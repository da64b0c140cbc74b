/** The rules GameCore applies after each stone: the five-in-a-row test of
    `checkWin`, the full-board test of `checkDraw`, and what `undo` does to
    the board and the move history. */
module Rules {
  import opened Board
  import opened Moves
  import opened Evaluation

  /** The cell at (x, y), Empty off the board (the source's bounds test
      comes first, so an off-board cell never matches a stone). */
  function CellAt(g: Grid, x: int, y: int): Cell
    requires WellFormed(g)
  {
    if InBounds(x, y) then g[x][y] else Empty
  }

  /** The i-th cell from (x, y) on one side of axis d:
      (x + dx * i, y + dy * i) forward, (x - dx * i, y - dy * i) backward. */
  function Step(x: int, y: int, d: int, forward: bool, i: int): (int, int)
    requires 0 <= d < 4
  {
    var dx, dy := Directions[d].0, Directions[d].1;
    if forward then (x + dx * i, y + dy * i) else (x - dx * i, y - dy * i)
  }

  /** The cell at step i of one side of axis d. */
  function SideCell(g: Grid, x: int, y: int, d: int, forward: bool, i: int): Cell
    requires WellFormed(g) && 0 <= d < 4
  {
    var pos := Step(x, y, d, forward, i);
    CellAt(g, pos.0, pos.1)
  }

  /** The move `new Move(nx, ny, player)` for step i of one side. */
  function SideMove(x: int, y: int, d: int, forward: bool, p: bool, i: int): Move
    requires 0 <= d < 4
  {
    var pos := Step(x, y, d, forward, i);
    Move(pos.0, pos.1, p)
  }

  /** One of the inner loops of `checkWin` from step i on (the loop runs
      for i = 1 .. 4): the moves of the player's stones found in a row. */
  function RunCells(g: Grid, x: int, y: int, d: int, forward: bool, p: bool, i: int): seq<Move>
    requires WellFormed(g) && 0 <= d < 4 && 1 <= i <= 5
    decreases 5 - i, g
  {
    if i == 5 then []
    else if SideCell(g, x, y, d, forward, i) == Stone(p) then
      [SideMove(x, y, d, forward, p, i)] + RunCells(g, x, y, d, forward, p, i + 1)
    else []
  }

  /** `currentMoves` of axis d: the stone itself, then the forward run,
      then the backward run. Its length is `count`. */
  function WinLine(g: Grid, x: int, y: int, d: int, p: bool): seq<Move>
    requires WellFormed(g) && 0 <= d < 4
  {
    [Move(x, y, p)] + RunCells(g, x, y, d, true, p, 1) + RunCells(g, x, y, d, false, p, 1)
  }

  /** `count >= 5` on axis d. */
  predicate Long(g: Grid, x: int, y: int, d: int, p: bool)
    requires WellFormed(g) && 0 <= d < 4
  {
    |WinLine(g, x, y, d, p)| >= 5
  }

  /** The loop of `checkWin` over the axes from d on: the line of the first
      axis whose count is at least 5. */
  function FindWin(g: Grid, x: int, y: int, p: bool, d: int): Option<seq<Move>>
    requires WellFormed(g) && 0 <= d <= 4
    decreases 4 - d, g
  {
    if d == 4 then None
    else if Long(g, x, y, d, p) then Some(WinLine(g, x, y, d, p))
    else FindWin(g, x, y, p, d + 1)
  }

  /** `checkWin(x, y)`: the line that wins, if any. The source reads the
      colour from (x, y) and boxes it into a `Move`, which throws on an
      empty cell, so the cell must hold a stone. */
  function CheckWinAt(g: Grid, x: int, y: int): Option<seq<Move>>
    requires WellFormed(g) && InBounds(x, y) && g[x][y] != Empty
  {
    FindWin(g, x, y, g[x][y].player, 0)
  }

  // ---------------------------------------------------------------------
  // An independent statement of five in a row

  /** The cell k steps from (x, y) along axis d (k may be negative). */
  function OffsetCell(g: Grid, x: int, y: int, d: int, k: int): Cell
    requires WellFormed(g) && 0 <= d < 4
  {
    CellAt(g, x + Directions[d].0 * k, y + Directions[d].1 * k)
  }

  /** The five cells at offsets s .. s + 4 along axis d all hold p's stones. */
  ghost predicate FiveAt(g: Grid, x: int, y: int, d: int, p: bool, s: int)
    requires WellFormed(g) && 0 <= d < 4
  {
    forall k :: s <= k < s + 5 ==> OffsetCell(g, x, y, d, k) == Stone(p)
  }

  /** Some five consecutive cells of axis d through (x, y) hold p's stones. */
  ghost predicate HasFive(g: Grid, x: int, y: int, d: int, p: bool)
    requires WellFormed(g) && 0 <= d < 4
  {
    exists s :: -4 <= s <= 0 && FiveAt(g, x, y, d, p, s)
  }

  /** Step i of a side is offset i forward and offset -i backward. */
  lemma StepIsOffset(g: Grid, x: int, y: int, d: int, i: int)
    requires WellFormed(g) && 0 <= d < 4
    ensures SideCell(g, x, y, d, true, i) == OffsetCell(g, x, y, d, i)
    ensures SideCell(g, x, y, d, false, i) == OffsetCell(g, x, y, d, -i)
  {
    var dx, dy := Directions[d].0, Directions[d].1;
    assert dx * (-i) == -(dx * i) && dy * (-i) == -(dy * i);
  }

  /** The moves of a run are the matching cells from step i on. */
  lemma {:induction false} RunMoves(g: Grid, x: int, y: int, d: int, forward: bool, p: bool, i: int)
    requires WellFormed(g) && 0 <= d < 4 && 1 <= i <= 5
    ensures var r := RunCells(g, x, y, d, forward, p, i);
      |r| <= 5 - i &&
      forall q :: 0 <= q < |r| ==>
        r[q] == SideMove(x, y, d, forward, p, i + q) && SideCell(g, x, y, d, forward, i + q) == Stone(p)
    decreases 5 - i
  {
    if i < 5 && SideCell(g, x, y, d, forward, i) == Stone(p) {
      RunMoves(g, x, y, d, forward, p, i + 1);
      var r := RunCells(g, x, y, d, forward, p, i);
      var rest := RunCells(g, x, y, d, forward, p, i + 1);
      assert r == [SideMove(x, y, d, forward, p, i)] + rest;
      forall q | 0 <= q < |r|
        ensures r[q] == SideMove(x, y, d, forward, p, i + q) && SideCell(g, x, y, d, forward, i + q) == Stone(p)
      {
        if q > 0 {
          assert r[q] == rest[q - 1] && i + q == (i + 1) + (q - 1);
        }
      }
    }
  }

  /** A run that stops before step 5 stops at a cell that does not match. */
  lemma {:induction false} RunStops(g: Grid, x: int, y: int, d: int, forward: bool, p: bool, i: int)
    requires WellFormed(g) && 0 <= d < 4 && 1 <= i <= 5
    ensures var r := RunCells(g, x, y, d, forward, p, i);
      i + |r| < 5 ==> SideCell(g, x, y, d, forward, i + |r|) != Stone(p)
    decreases 5 - i
  {
    if i < 5 && SideCell(g, x, y, d, forward, i) == Stone(p) {
      RunStops(g, x, y, d, forward, p, i + 1);
    }
  }

  /** The run of a side is at least k long (1 <= k <= 4) exactly when the
      cells at steps 1 .. k all hold p's stones. */
  lemma RunReaches(g: Grid, x: int, y: int, d: int, forward: bool, p: bool, k: int)
    requires WellFormed(g) && 0 <= d < 4 && 1 <= k <= 4
    ensures |RunCells(g, x, y, d, forward, p, 1)| >= k <==>
      forall q :: 1 <= q <= k ==> SideCell(g, x, y, d, forward, q) == Stone(p)
  {
    var r := RunCells(g, x, y, d, forward, p, 1);
    RunMoves(g, x, y, d, forward, p, 1);
    RunStops(g, x, y, d, forward, p, 1);
    if |r| >= k {
      forall q | 1 <= q <= k
        ensures SideCell(g, x, y, d, forward, q) == Stone(p)
      {
        assert r[q - 1] == SideMove(x, y, d, forward, p, 1 + (q - 1));
      }
    } else {
      assert SideCell(g, x, y, d, forward, 1 + |r|) != Stone(p);
    }
  }

  /** A count of five or more yields five cells in a row. */
  lemma FiveGivesHasFive(g: Grid, x: int, y: int, d: int, p: bool)
    requires WellFormed(g) && 0 <= d < 4 && InBounds(x, y) && g[x][y] == Stone(p)
    requires |WinLine(g, x, y, d, p)| >= 5
    ensures HasFive(g, x, y, d, p)
  {
    var fw, bw := RunCells(g, x, y, d, true, p, 1), RunCells(g, x, y, d, false, p, 1);
    var F, B := |fw|, |bw|;
    assert |WinLine(g, x, y, d, p)| == 1 + F + B;
    RunMoves(g, x, y, d, true, p, 1);
    RunMoves(g, x, y, d, false, p, 1);
    var s := -B;
    assert OffsetCell(g, x, y, d, 0) == Stone(p);
    forall k | s <= k < s + 5
      ensures OffsetCell(g, x, y, d, k) == Stone(p)
    {
      if k > 0 {
        StepIsOffset(g, x, y, d, k);
        assert fw[k - 1] == SideMove(x, y, d, true, p, 1 + (k - 1));
      } else if k < 0 {
        StepIsOffset(g, x, y, d, -k);
        assert bw[-k - 1] == SideMove(x, y, d, false, p, 1 + (-k - 1));
      }
    }
    assert FiveAt(g, x, y, d, p, s);
  }

  /** Five cells in a row yield a count of five or more. */
  lemma HasFiveGivesFive(g: Grid, x: int, y: int, d: int, p: bool)
    requires WellFormed(g) && 0 <= d < 4
    requires HasFive(g, x, y, d, p)
    ensures |WinLine(g, x, y, d, p)| >= 5
  {
    var s :| -4 <= s <= 0 && FiveAt(g, x, y, d, p, s);
    if s + 4 >= 1 {
      forall q | 1 <= q <= s + 4
        ensures SideCell(g, x, y, d, true, q) == Stone(p)
      {
        StepIsOffset(g, x, y, d, q);
      }
      RunReaches(g, x, y, d, true, p, s + 4);
    }
    if -s >= 1 {
      forall q | 1 <= q <= -s
        ensures SideCell(g, x, y, d, false, q) == Stone(p)
      {
        StepIsOffset(g, x, y, d, q);
      }
      RunReaches(g, x, y, d, false, p, -s);
    }
  }

  /** The axis loop finds a line exactly when some axis from d on is long. */
  lemma {:induction false} FindWinSome(g: Grid, x: int, y: int, p: bool, d: int)
    requires WellFormed(g) && 0 <= d <= 4
    ensures FindWin(g, x, y, p, d).Some? <==> exists e :: d <= e < 4 && Long(g, x, y, e, p)
    decreases 4 - d
  {
    if d < 4 && !Long(g, x, y, d, p) {
      FindWinSome(g, x, y, p, d + 1);
      assert forall e :: d <= e < 4 && Long(g, x, y, e, p) ==> d + 1 <= e;
    }
  }

  /** The line it finds is that of the first long axis from d on. */
  lemma {:induction false} FindWinFirst(g: Grid, x: int, y: int, p: bool, d: int) returns (e: int)
    requires WellFormed(g) && 0 <= d <= 4 && FindWin(g, x, y, p, d).Some?
    ensures d <= e < 4 && Long(g, x, y, e, p) && FindWin(g, x, y, p, d).value == WinLine(g, x, y, e, p)
    ensures forall e' :: d <= e' < e ==> !Long(g, x, y, e', p)
    decreases 4 - d
  {
    if Long(g, x, y, d, p) {
      e := d;
    } else {
      e := FindWinFirst(g, x, y, p, d + 1);
    }
  }

  /** Long axes are exactly the axes with five in a row through (x, y). */
  lemma LongIffHasFive(g: Grid, x: int, y: int, d: int, p: bool)
    requires WellFormed(g) && 0 <= d < 4 && InBounds(x, y) && g[x][y] == Stone(p)
    ensures Long(g, x, y, d, p) <==> HasFive(g, x, y, d, p)
  {
    if Long(g, x, y, d, p) {
      FiveGivesHasFive(g, x, y, d, p);
    }
    if HasFive(g, x, y, d, p) {
      HasFiveGivesFive(g, x, y, d, p);
    }
  }

  /** `checkWin` reports a win exactly when the stone at (x, y) completes
      five in a row on some axis; the line it records is that of the first
      such axis, in the order horizontal, vertical, diagonal, anti-diagonal. */
  lemma CheckWinIffFive(g: Grid, x: int, y: int)
    requires WellFormed(g) && InBounds(x, y) && g[x][y] != Empty
    ensures var p, r := g[x][y].player, CheckWinAt(g, x, y);
      (r.Some? <==> exists d :: 0 <= d < 4 && HasFive(g, x, y, d, p)) &&
      (r.Some? ==> exists d :: 0 <= d < 4 && HasFive(g, x, y, d, p) && r.value == WinLine(g, x, y, d, p) &&
                             forall e :: 0 <= e < d ==> !HasFive(g, x, y, e, p))
  {
    var p := g[x][y].player;
    forall d | 0 <= d < 4
      ensures Long(g, x, y, d, p) <==> HasFive(g, x, y, d, p)
    {
      LongIffHasFive(g, x, y, d, p);
    }
    FindWinSome(g, x, y, p, 0);
    if CheckWinAt(g, x, y).Some? {
      var d := FindWinFirst(g, x, y, p, 0);
    }
  }

  /** A winning line holds at most 9 moves, starts with the stone just
      played, and every move in it is a stone of that colour on the board.
      Runs stop after 4 cells a side, so a side holding five or more stones
      is recorded only up to four. */
  lemma WinLineShape(g: Grid, x: int, y: int, d: int, p: bool)
    requires WellFormed(g) && 0 <= d < 4 && InBounds(x, y) && g[x][y] == Stone(p)
    ensures var line := WinLine(g, x, y, d, p);
      |line| <= 9 && line[0] == Move(x, y, p) &&
      forall m :: m in line ==> InBounds(m.x, m.y) && g[m.x][m.y] == Stone(p) && m.player == p
  {
    var fw := RunCells(g, x, y, d, true, p, 1);
    var bw := RunCells(g, x, y, d, false, p, 1);
    RunMoves(g, x, y, d, true, p, 1);
    RunMoves(g, x, y, d, false, p, 1);
    var line := WinLine(g, x, y, d, p);
    forall m | m in line
      ensures InBounds(m.x, m.y) && g[m.x][m.y] == Stone(p) && m.player == p
    {
      if m in fw {
        var q :| 0 <= q < |fw| && fw[q] == m;
      } else if m in bw {
        var q :| 0 <= q < |bw| && bw[q] == m;
      }
    }
  }

  /** A matching cell at step i extends the run by its move. */
  lemma RunExtends(g: Grid, x: int, y: int, d: int, forward: bool, p: bool, i: int, moves: seq<Move>)
    requires WellFormed(g) && 0 <= d < 4 && 1 <= i < 5 && SideCell(g, x, y, d, forward, i) == Stone(p)
    ensures moves + RunCells(g, x, y, d, forward, p, i)
         == (moves + [SideMove(x, y, d, forward, p, i)]) + RunCells(g, x, y, d, forward, p, i + 1)
  {
    var m, rest := SideMove(x, y, d, forward, p, i), RunCells(g, x, y, d, forward, p, i + 1);
    assert RunCells(g, x, y, d, forward, p, i) == [m] + rest;
    assert moves + ([m] + rest) == (moves + [m]) + rest;
  }

  /** One inner loop of `checkWin` on the array: the moves of the
      player's stones met from step 1 until the first other cell, at most 4. */
  method CollectRun(board: array2<Cell>, ghost g: Grid, x: int, y: int, d: int, forward: bool, p: bool)
    returns (moves: seq<Move>)
    requires Mirrors(board, g) && 0 <= d < 4
    ensures moves == RunCells(g, x, y, d, forward, p, 1)
  {
    var dx, dy := Directions[d].0, Directions[d].1;
    moves := [];
    for i := 1 to 5
      invariant RunCells(g, x, y, d, forward, p, 1) == moves + RunCells(g, x, y, d, forward, p, i)
    {
      var nx, ny := if forward then x + dx * i else x - dx * i, if forward then y + dy * i else y - dy * i;
      assert Step(x, y, d, forward, i) == (nx, ny);
      if 0 <= nx < N && 0 <= ny < N {
        var c := board[nx, ny];
        assert c == g[nx][ny] == SideCell(g, x, y, d, forward, i);
        if c == Stone(p) {
          RunExtends(g, x, y, d, forward, p, i, moves);
          moves := moves + [Move(nx, ny, p)];
        } else {
          break;
        }
      } else {
        break;
      }
    }
  }

  /** The count of `checkWin` and the count of `evaluatePosition` agree:
      both sides stop at the first cell that is not the player's stone. */
  lemma {:induction false} RunIsScan(g: Grid, x: int, y: int, d: int, forward: bool, p: bool, i: int)
    requires WellFormed(g) && 0 <= d < 4 && 1 <= i <= 5
    ensures |RunCells(g, x, y, d, forward, p, i)| == Scan(g, x, y, d, forward, p, i).run
    decreases 5 - i
  {
    if i < 5 {
      RunIsScan(g, x, y, d, forward, p, i + 1);
    }
  }

  /** So `checkWin` wins on exactly the axes that `evaluatePosition` counts
      at five or more. */
  lemma WinLineIsAxisCount(g: Grid, x: int, y: int, d: int, p: bool)
    requires WellFormed(g) && 0 <= d < 4
    ensures |WinLine(g, x, y, d, p)| == AxisCount(g, x, y, p, d)
  {
    RunIsScan(g, x, y, d, true, p, 1);
    RunIsScan(g, x, y, d, false, p, 1);
  }

  // ---------------------------------------------------------------------
  // Undo and the consistency of board and history

  /** Some move of ms is at (i, j). */
  ghost predicate Occupies(ms: seq<Move>, i: int, j: int) {
    exists k :: 0 <= k < |ms| && ms[k].x == i && ms[k].y == j
  }

  predicate AllInBounds(ms: seq<Move>) {
    forall k :: 0 <= k < |ms| ==> InBounds(ms[k].x, ms[k].y)
  }

  /** The board with the cells of ms emptied, the last move first, as the
      loop of `undo` pops them. */
  function ClearMoves(g: Grid, ms: seq<Move>): (h: Grid)
    requires WellFormed(g) && AllInBounds(ms)
    ensures WellFormed(h)
    decreases |ms|, g
  {
    if ms == [] then g
    else Place(ClearMoves(g, ms[1..]), ms[0].x, ms[0].y, Empty)
  }

  /** Clearing empties exactly the cells of ms. */
  lemma {:induction false} ClearMovesAt(g: Grid, ms: seq<Move>)
    requires WellFormed(g) && AllInBounds(ms)
    ensures forall i, j :: InBounds(i, j) ==>
      ClearMoves(g, ms)[i][j] == if Occupies(ms, i, j) then Empty else g[i][j]
    decreases |ms|
  {
    if ms != [] {
      ClearMovesAt(g, ms[1..]);
      forall i, j | InBounds(i, j)
        ensures ClearMoves(g, ms)[i][j] == if Occupies(ms, i, j) then Empty else g[i][j]
      {
        if Occupies(ms[1..], i, j) {
          var k :| 0 <= k < |ms[1..]| && ms[1..][k].x == i && ms[1..][k].y == j;
          assert ms[k + 1] == ms[1..][k];
        }
        if Occupies(ms, i, j) && (ms[0].x != i || ms[0].y != j) {
          var k :| 0 <= k < |ms| && ms[k].x == i && ms[k].y == j;
          assert ms[1..][k - 1] == ms[k];
        }
      }
    }
  }

  /** The invariant GameCore keeps between board and history: every move
      of the history is on the board and occupied, no two moves share a
      cell, and every stone on the board is in the history. */
  ghost predicate Consistent(g: Grid, h: seq<Move>)
    requires WellFormed(g)
  {
    (forall k :: 0 <= k < |h| ==> InBounds(h[k].x, h[k].y) && g[h[k].x][h[k].y] != Empty) &&
    (forall k, l :: 0 <= k < l < |h| ==> h[k].x != h[l].x || h[k].y != h[l].y) &&
    (forall i, j :: InBounds(i, j) && g[i][j] != Empty ==> Occupies(h, i, j))
  }

  /** A new game is consistent. */
  lemma EmptyConsistent()
    ensures Consistent(EmptyGrid(), [])
  {
  }

  /** A stone placed on an empty cell and pushed on the history keeps the
      board and the history consistent, whatever its tag says. */
  lemma PlaceKeepsConsistent(g: Grid, h: seq<Move>, x: int, y: int, c: Cell, m: Move)
    requires WellFormed(g) && Consistent(g, h)
    requires InBounds(x, y) && g[x][y] == Empty && c != Empty && m.x == x && m.y == y
    ensures Consistent(Place(g, x, y, c), h + [m])
  {
    var g', h' := Place(g, x, y, c), h + [m];
    forall i, j | InBounds(i, j) && g'[i][j] != Empty
      ensures Occupies(h', i, j)
    {
      if i == x && j == y {
        assert h'[|h|] == m;
      } else {
        var k :| 0 <= k < |h| && h[k].x == i && h[k].y == j;
        assert h'[k] == h[k];
      }
    }
  }

  lemma OccupiesConcat(a: seq<Move>, b: seq<Move>, i: int, j: int)
    ensures Occupies(a + b, i, j) <==> Occupies(a, i, j) || Occupies(b, i, j)
  {
    var ab := a + b;
    if Occupies(ab, i, j) {
      var k :| 0 <= k < |ab| && ab[k].x == i && ab[k].y == j;
      if k < |a| {
        assert a[k] == ab[k];
      } else {
        assert b[k - |a|] == ab[k];
      }
    }
    if Occupies(a, i, j) {
      var k :| 0 <= k < |a| && a[k].x == i && a[k].y == j;
      assert ab[k] == a[k];
    }
    if Occupies(b, i, j) {
      var k :| 0 <= k < |b| && b[k].x == i && b[k].y == j;
      assert ab[|a| + k] == b[k];
    }
  }

  /** A move kept by an undo still has its stone. */
  lemma KeptStays(g: Grid, h: seq<Move>, K: int, k: int)
    requires WellFormed(g) && Consistent(g, h) && 0 <= K <= |h| && 0 <= k < |h| - K
    ensures AllInBounds(h[|h| - K..])
    ensures ClearMoves(g, h[|h| - K..])[h[k].x][h[k].y] != Empty
  {
    var n := |h|;
    var popped := h[n - K..];
    var x, y := h[k].x, h[k].y;
    forall q | 0 <= q < |popped|
      ensures InBounds(popped[q].x, popped[q].y)
      ensures popped[q].x != x || popped[q].y != y
    {
      assert popped[q] == h[n - K + q];
    }
    assert !Occupies(popped, x, y);
    ClearMovesAt(g, popped);
  }

  /** Undoing the last K moves empties their cells and keeps the rest
      consistent. */
  lemma UndoKeepsConsistent(g: Grid, h: seq<Move>, K: int)
    requires WellFormed(g) && Consistent(g, h) && 0 <= K <= |h|
    ensures AllInBounds(h[|h| - K..])
    ensures Consistent(ClearMoves(g, h[|h| - K..]), h[..|h| - K])
  {
    var n := |h|;
    var popped, kept := h[n - K..], h[..n - K];
    assert h == kept + popped;
    assert AllInBounds(popped) by {
      assert forall q :: 0 <= q < |popped| ==> popped[q] == h[n - K + q];
    }
    ClearMovesAt(g, popped);
    var g' := ClearMoves(g, popped);
    forall k | 0 <= k < |kept|
      ensures InBounds(kept[k].x, kept[k].y) && g'[kept[k].x][kept[k].y] != Empty
    {
      assert kept[k] == h[k];
      KeptStays(g, h, K, k);
    }
    forall i, j | InBounds(i, j) && g'[i][j] != Empty
      ensures Occupies(kept, i, j)
    {
      OccupiesConcat(kept, popped, i, j);
    }
  }

  /** Undoing one move right after it was played on an empty cell gives
      back the board it was played on. */
  lemma UndoLastPlacement(g: Grid, x: int, y: int, c: Cell, m: Move)
    requires WellFormed(g) && InBounds(x, y) && g[x][y] == Empty && m.x == x && m.y == y
    ensures AllInBounds([m])
    ensures ClearMoves(Place(g, x, y, c), [m]) == g
  {
    assert [m][1..] == [];
    PlaceUndo(g, x, y, c);
  }

  /** Undo is the inverse of play: on a consistent position, clearing the
      moves played since leaves the board as it was. */
  lemma UndoRestores(g: Grid, h: seq<Move>, g': Grid, ms: seq<Move>)
    requires WellFormed(g) && WellFormed(g') && Consistent(g, h) && Consistent(g', h + ms)
    requires forall i, j :: InBounds(i, j) && !Occupies(ms, i, j) ==> g'[i][j] == g[i][j]
    ensures AllInBounds(ms)
    ensures ClearMoves(g', ms) == g
  {
    var all := h + ms;
    assert forall k :: 0 <= k < |ms| ==> ms[k] == all[|h| + k];
    ClearMovesAt(g', ms);
    forall i, j | InBounds(i, j)
      ensures ClearMoves(g', ms)[i][j] == g[i][j]
    {
      if Occupies(ms, i, j) {
        var q :| 0 <= q < |ms| && ms[q].x == i && ms[q].y == j;
        forall k | 0 <= k < |h|
          ensures h[k].x != i || h[k].y != j
        {
          assert all[k] == h[k] && all[|h| + q] == ms[q];
        }
        assert !Occupies(h, i, j);
      }
    }
    GridExt(ClearMoves(g', ms), g);
  }
}
