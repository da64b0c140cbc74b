/** The heuristic scoring of AILogic: `evaluatePosition` (how strong a stone
    at one cell is for one colour) and `evaluateBoard` (the signed sum of
    that score over every stone). Pure definitions first, then the loop
    methods proved equal to them, then the properties. */
module Evaluation {
  import opened Board

  /** The four axes, in the source's order: horizontal (along x), vertical
      (along y), the diagonal and the anti-diagonal. */
  const Directions: seq<(int, int)> := [(1, 0), (0, 1), (1, 1), (1, -1)]

  // The recursive definitions below list the grid g last in their
  // `decreases` clauses. It changes nothing about termination; it keeps the
  // verifier from unrolling them in full whenever the counter is a literal.

  /** Score of a five; returned at once, before the remaining axes. */
  const FiveScore: int := 100000

  /** What one side of an axis contributes: the matching stones found
      (at most 4) and whether the first cell after them is empty (0 or 1). */
  datatype Side = Side(run: nat, open: nat)

  /** Scans one side of axis d from step i (1 <= i <= 4): forward looks at
      (x + dx * i, y + dy * i), backward at (x - dx * i, y - dy * i), where
      (dx, dy) is Directions[d]. A matching stone continues the scan, an
      empty cell ends it as open, anything else (an opposing stone or the
      edge) ends it closed. Step 5 is never looked at. */
  function Scan(g: Grid, x: int, y: int, d: int, forward: bool, owner: bool, i: int): Side
    requires WellFormed(g) && 0 <= d < 4 && 1 <= i <= 5
    decreases 5 - i, g
  {
    if i == 5 then Side(0, 0)
    else
      var dx, dy := Directions[d].0, Directions[d].1;
      var nx, ny := if forward then x + dx * i else x - dx * i, if forward then y + dy * i else y - dy * i;
      if InBounds(nx, ny) then
        if g[nx][ny] == Stone(owner) then
          var rest := Scan(g, x, y, d, forward, owner, i + 1);
          Side(rest.run + 1, rest.open)
        else if g[nx][ny] == Empty then Side(0, 1)
        else Side(0, 0)
      else Side(0, 0)
  }

  function Forward(g: Grid, x: int, y: int, owner: bool, d: int): Side
    requires WellFormed(g) && 0 <= d < 4
  {
    Scan(g, x, y, d, true, owner, 1)
  }

  function Backward(g: Grid, x: int, y: int, owner: bool, d: int): Side
    requires WellFormed(g) && 0 <= d < 4
  {
    Scan(g, x, y, d, false, owner, 1)
  }

  /** `count`: the stone itself plus the matching stones on both sides. */
  function AxisCount(g: Grid, x: int, y: int, owner: bool, d: int): int
    requires WellFormed(g) && 0 <= d < 4
  {
    1 + Forward(g, x, y, owner, d).run + Backward(g, x, y, owner, d).run
  }

  /** `spaceLeft + spaceRight`. */
  function AxisSpaces(g: Grid, x: int, y: int, owner: bool, d: int): int
    requires WellFormed(g) && 0 <= d < 4
  {
    Forward(g, x, y, owner, d).open + Backward(g, x, y, owner, d).open
  }

  /** The score of one axis that is not a five, as the source's cascade of
      tests on `count` and on the number of open sides has it. */
  function AxisScore(count: int, spaces: int): int {
    if count == 4 then
      (if spaces >= 1 then 10000 else 0)
    else if count == 3 then
      (if spaces >= 2 then 1000 else if spaces >= 1 then 100 else 0)
    else if count == 2 then
      (if spaces >= 3 then 10 else if spaces >= 2 then 5 else 0)
    else 0
  }

  /** The loop over the axes from axis d on, with `score` accumulated so far. */
  function EvalFrom(g: Grid, x: int, y: int, owner: bool, d: int, score: int): int
    requires WellFormed(g) && 0 <= d <= 4
    decreases 4 - d, g
  {
    if d == 4 then score
    else if AxisCount(g, x, y, owner, d) == 5 then FiveScore
    else EvalFrom(g, x, y, owner, d + 1,
                  score + AxisScore(AxisCount(g, x, y, owner, d), AxisSpaces(g, x, y, owner, d)))
  }

  /** `evaluatePosition(x, y, owner, board)`. The cell (x, y) itself is never
      read, so x and y need not even be on the board. */
  function EvalPosition(g: Grid, x: int, y: int, owner: bool): int
    requires WellFormed(g)
  {
    EvalFrom(g, x, y, owner, 0, 0)
  }

  /** The score of cell (i, j) for owner if it holds owner's stone, else 0. */
  function StoneScore(g: Grid, owner: bool, i: int, j: int): int
    requires WellFormed(g) && InBounds(i, j)
  {
    if g[i][j] == Stone(owner) then EvalPosition(g, i, j, owner) else 0
  }

  /** Sum of the scores of owner's stones from cell (i, j) on, in the
      row-major order of the source's two loops. */
  function StoneSum(g: Grid, owner: bool, i: int, j: int): int
    requires WellFormed(g) && 0 <= i <= N && 0 <= j <= N
    decreases N - i, N - j, g
  {
    if i == N then 0
    else if j == N then StoneSum(g, owner, i + 1, 0)
    else StoneScore(g, owner, i, j) + StoneSum(g, owner, i, j + 1)
  }

  /** `evaluateBoard`: the AI's (white) total minus the human's (black). */
  function EvalBoard(g: Grid): int
    requires WellFormed(g)
  {
    StoneSum(g, false, 0, 0) - StoneSum(g, true, 0, 0)
  }

  // ---------------------------------------------------------------------
  // The loop methods

  /** One of the two inner loops of `evaluatePosition`: scans one side of
      axis d on the array, step by step. */
  method ScanSide(board: array2<Cell>, ghost g: Grid, x: int, y: int, d: int, forward: bool, owner: bool)
    returns (run: nat, space: nat)
    requires Mirrors(board, g) && 0 <= d < 4
    ensures Scan(g, x, y, d, forward, owner, 1) == Side(run, space)
  {
    var dx, dy := Directions[d].0, Directions[d].1;
    run, space := 0, 0;
    for i := 1 to 5
      invariant space == 0
      invariant Scan(g, x, y, d, forward, owner, 1)
             == Side(run + Scan(g, x, y, d, forward, owner, i).run, Scan(g, x, y, d, forward, owner, i).open)
    {
      var nx, ny := if forward then x + dx * i else x - dx * i, if forward then y + dy * i else y - dy * i;
      if 0 <= nx < N && 0 <= ny < N {
        var c := board[nx, ny];
        assert c == g[nx][ny];
        if c == Stone(owner) {
          run := run + 1;
        } else if c == Empty {
          space := space + 1;
          break;
        } else {
          break;
        }
      } else {
        break;
      }
    }
  }

  /** One axis of `evaluatePosition`: both sides scanned, giving `count` and
      `spaceLeft + spaceRight`. */
  method ScanAxis(board: array2<Cell>, ghost g: Grid, x: int, y: int, owner: bool, d: int)
    returns (count: int, spaces: int)
    requires Mirrors(board, g) && 0 <= d < 4
    ensures count == AxisCount(g, x, y, owner, d) && spaces == AxisSpaces(g, x, y, owner, d)
  {
    var right, spaceRight := ScanSide(board, g, x, y, d, true, owner);
    var left, spaceLeft := ScanSide(board, g, x, y, d, false, owner);
    count := 1 + right + left;
    spaces := spaceLeft + spaceRight;
  }

  /** `evaluatePosition`: reads the board only (no `modifies`). */
  method EvaluatePosition(board: array2<Cell>, x: int, y: int, isPlayer: bool) returns (score: int)
    requires Dims(board)
    ensures score == EvalPosition(Snap(board), x, y, isPlayer)
  {
    score := EvaluateAxes(board, Snap(board), x, y, isPlayer);
  }

  /** The loop over the four axes of `evaluatePosition`. */
  method EvaluateAxes(board: array2<Cell>, ghost g: Grid, x: int, y: int, isPlayer: bool) returns (score: int)
    requires Mirrors(board, g)
    ensures score == EvalPosition(g, x, y, isPlayer)
  {
    score := 0;
    for d := 0 to 4
      invariant EvalFrom(g, x, y, isPlayer, d, score) == EvalPosition(g, x, y, isPlayer)
    {
      var count, spaces := ScanAxis(board, g, x, y, isPlayer, d);
      EvalFromStep(g, x, y, isPlayer, d, score, count, spaces);
      if count == 5 {
        return FiveScore;
      }
      score := score + AxisScore(count, spaces);
    }
  }

  lemma EvalFromStep(g: Grid, x: int, y: int, owner: bool, d: int, score: int, count: int, spaces: int)
    requires WellFormed(g) && 0 <= d < 4
    requires count == AxisCount(g, x, y, owner, d) && spaces == AxisSpaces(g, x, y, owner, d)
    ensures EvalFrom(g, x, y, owner, d, score) ==
      if count == 5 then FiveScore else EvalFrom(g, x, y, owner, d + 1, score + AxisScore(count, spaces))
  {
  }

  /** The body of `evaluateBoard`'s inner loop: what cell (i, j) adds to the
      AI's and to the human's total. */
  method CellContribution(board: array2<Cell>, ghost g: Grid, i: int, j: int)
    returns (ai: int, player: int)
    requires Mirrors(board, g) && InBounds(i, j)
    ensures ai == StoneScore(g, false, i, j) && player == StoneScore(g, true, i, j)
  {
    ai, player := 0, 0;
    if board[i, j] != Empty {
      if board[i, j].player {
        player := EvaluateAxes(board, g, i, j, true);
      } else {
        ai := EvaluateAxes(board, g, i, j, false);
      }
    }
  }

  /** `evaluateBoard`: reads the board only (no `modifies`). */
  method EvaluateBoard(board: array2<Cell>) returns (score: int)
    requires Dims(board)
    ensures score == EvalBoard(Snap(board))
  {
    score := EvaluateCells(board, Snap(board));
  }

  /** The pass of `evaluateBoard` over the cells with its two accumulators. */
  method EvaluateCells(board: array2<Cell>, ghost g: Grid) returns (score: int)
    requires Mirrors(board, g)
    ensures score == EvalBoard(g)
  {
    var aiScore, playerScore := 0, 0;
    for i := 0 to N
      invariant aiScore + StoneSum(g, false, i, 0) == StoneSum(g, false, 0, 0)
      invariant playerScore + StoneSum(g, true, i, 0) == StoneSum(g, true, 0, 0)
    {
      for j := 0 to N
        invariant aiScore + StoneSum(g, false, i, j) == StoneSum(g, false, 0, 0)
        invariant playerScore + StoneSum(g, true, i, j) == StoneSum(g, true, 0, 0)
      {
        var ai, player := CellContribution(board, g, i, j);
        aiScore, playerScore := aiScore + ai, playerScore + player;
      }
    }
    score := aiScore - playerScore;
  }

  // ---------------------------------------------------------------------
  // Properties of evaluatePosition

  /** One side looks at no more than the steps left and is open at most once. */
  lemma {:induction false} ScanBounds(g: Grid, x: int, y: int, d: int, forward: bool, owner: bool, i: int)
    requires WellFormed(g) && 0 <= d < 4 && 1 <= i <= 5
    ensures Scan(g, x, y, d, forward, owner, i).run <= 5 - i
    ensures Scan(g, x, y, d, forward, owner, i).open <= 1
    decreases 5 - i
  {
    if i < 5 {
      ScanBounds(g, x, y, d, forward, owner, i + 1);
    }
  }

  /** Each side adds at most 4 stones and at most one open end: the count of
      an axis lies in 1 .. 9 and its open ends in 0 .. 2. */
  lemma AxisBounds(g: Grid, x: int, y: int, owner: bool, d: int)
    requires WellFormed(g) && 0 <= d < 4
    ensures 1 <= AxisCount(g, x, y, owner, d) <= 9
    ensures 0 <= AxisSpaces(g, x, y, owner, d) <= 2
  {
    ScanBounds(g, x, y, d, true, owner, 1);
    ScanBounds(g, x, y, d, false, owner, 1);
  }

  /** The scoring table as it can actually fire: a four scores 10000 with at
      least one open end; a three 1000 with two and 100 with one; a two 5,
      and only with both ends open (the 10-point branch needs three open
      ends, which an axis never has); a single stone or an axis count of 6
      to 9 scores nothing. */
  lemma AxisTable(g: Grid, x: int, y: int, owner: bool, d: int)
    requires WellFormed(g) && 0 <= d < 4
    ensures var count, spaces := AxisCount(g, x, y, owner, d), AxisSpaces(g, x, y, owner, d);
      AxisScore(count, spaces) ==
        if count == 4 && spaces >= 1 then 10000
        else if count == 3 && spaces == 2 then 1000
        else if count == 3 && spaces == 1 then 100
        else if count == 2 && spaces == 2 then 5
        else 0
  {
    AxisBounds(g, x, y, owner, d);
  }

  lemma {:induction false} EvalFromRange(g: Grid, x: int, y: int, owner: bool, d: int, score: int)
    requires WellFormed(g) && 0 <= d <= 4 && 0 <= score <= 10000 * d
    ensures var r := EvalFrom(g, x, y, owner, d, score); r == FiveScore || 0 <= r <= 40000
    decreases 4 - d
  {
    if d < 4 && AxisCount(g, x, y, owner, d) != 5 {
      EvalFromRange(g, x, y, owner, d + 1,
                    score + AxisScore(AxisCount(g, x, y, owner, d), AxisSpaces(g, x, y, owner, d)));
    }
  }

  /** The score of a position is a five (100000) or lies in 0 .. 40000. */
  lemma EvalRange(g: Grid, x: int, y: int, owner: bool)
    requires WellFormed(g)
    ensures var r := EvalPosition(g, x, y, owner); r == FiveScore || 0 <= r <= 40000
  {
    EvalFromRange(g, x, y, owner, 0, 0);
  }

  predicate HasFiveAxis(g: Grid, x: int, y: int, owner: bool)
    requires WellFormed(g)
  {
    AxisCount(g, x, y, owner, 0) == 5 || AxisCount(g, x, y, owner, 1) == 5 ||
    AxisCount(g, x, y, owner, 2) == 5 || AxisCount(g, x, y, owner, 3) == 5
  }

  function AxesSum(g: Grid, x: int, y: int, owner: bool): int
    requires WellFormed(g)
  {
    AxisScore(AxisCount(g, x, y, owner, 0), AxisSpaces(g, x, y, owner, 0)) +
    AxisScore(AxisCount(g, x, y, owner, 1), AxisSpaces(g, x, y, owner, 1)) +
    AxisScore(AxisCount(g, x, y, owner, 2), AxisSpaces(g, x, y, owner, 2)) +
    AxisScore(AxisCount(g, x, y, owner, 3), AxisSpaces(g, x, y, owner, 3))
  }

  /** The loop with its early return is the same as: 100000 if any axis
      counts exactly five, else the plain sum of the four axis scores (the
      axes do not suppress each other). */
  lemma EvalClosedForm(g: Grid, x: int, y: int, owner: bool)
    requires WellFormed(g)
    ensures EvalPosition(g, x, y, owner) ==
      if HasFiveAxis(g, x, y, owner) then FiveScore else AxesSum(g, x, y, owner)
  {
    var s0 := AxisScore(AxisCount(g, x, y, owner, 0), AxisSpaces(g, x, y, owner, 0));
    var s1 := AxisScore(AxisCount(g, x, y, owner, 1), AxisSpaces(g, x, y, owner, 1));
    var s2 := AxisScore(AxisCount(g, x, y, owner, 2), AxisSpaces(g, x, y, owner, 2));
    var s3 := AxisScore(AxisCount(g, x, y, owner, 3), AxisSpaces(g, x, y, owner, 3));
    if AxisCount(g, x, y, owner, 0) != 5 {
      assert EvalFrom(g, x, y, owner, 0, 0) == EvalFrom(g, x, y, owner, 1, s0);
      if AxisCount(g, x, y, owner, 1) != 5 {
        assert EvalFrom(g, x, y, owner, 1, s0) == EvalFrom(g, x, y, owner, 2, s0 + s1);
        if AxisCount(g, x, y, owner, 2) != 5 {
          assert EvalFrom(g, x, y, owner, 2, s0 + s1) == EvalFrom(g, x, y, owner, 3, s0 + s1 + s2);
          if AxisCount(g, x, y, owner, 3) != 5 {
            assert EvalFrom(g, x, y, owner, 3, s0 + s1 + s2) == EvalFrom(g, x, y, owner, 4, s0 + s1 + s2 + s3);
          }
        }
      }
    }
  }

  /** A position scores 100000 exactly when one of its axes counts five. */
  lemma FiveScoreIffFive(g: Grid, x: int, y: int, owner: bool)
    requires WellFormed(g)
    ensures EvalPosition(g, x, y, owner) == FiveScore <==> HasFiveAxis(g, x, y, owner)
  {
    EvalClosedForm(g, x, y, owner);
    if !HasFiveAxis(g, x, y, owner) {
      EvalRange(g, x, y, owner);
    }
  }

  lemma {:induction false} ScanIgnoresOrigin(g: Grid, x: int, y: int, d: int, forward: bool, owner: bool, i: int, c: Cell)
    requires WellFormed(g) && InBounds(x, y) && 0 <= d < 4 && 1 <= i <= 5
    ensures Scan(Place(g, x, y, c), x, y, d, forward, owner, i) == Scan(g, x, y, d, forward, owner, i)
    decreases 5 - i
  {
    if i < 5 {
      var dx, dy := Directions[d].0, Directions[d].1;
      var nx, ny := if forward then x + dx * i else x - dx * i, if forward then y + dy * i else y - dy * i;
      StepLeavesOrigin(d, i);
      assert nx != x || ny != y;
      if InBounds(nx, ny) {
        assert Place(g, x, y, c)[nx][ny] == g[nx][ny];
      }
      ScanIgnoresOrigin(g, x, y, d, forward, owner, i + 1, c);
    }
  }

  /** A step of one or more along an axis moves off the starting cell. */
  lemma StepLeavesOrigin(d: int, i: int)
    requires 0 <= d < 4 && 1 <= i
    ensures Directions[d].0 * i != 0 || Directions[d].1 * i != 0
  {
    assert Directions[d].0 == 1 || Directions[d].1 == 1;
  }

  /** The cell under evaluation is never read: whatever it holds, the score
      is the same (the pickers place a trial stone there first). */
  lemma EvalIgnoresOrigin(g: Grid, x: int, y: int, owner: bool, c: Cell)
    requires WellFormed(g) && InBounds(x, y)
    ensures EvalPosition(Place(g, x, y, c), x, y, owner) == EvalPosition(g, x, y, owner)
  {
    var h := Place(g, x, y, c);
    forall d | 0 <= d < 4
      ensures AxisCount(h, x, y, owner, d) == AxisCount(g, x, y, owner, d)
      ensures AxisSpaces(h, x, y, owner, d) == AxisSpaces(g, x, y, owner, d)
    {
      ScanIgnoresOrigin(g, x, y, d, true, owner, 1, c);
      ScanIgnoresOrigin(g, x, y, d, false, owner, 1, c);
    }
    EvalClosedForm(g, x, y, owner);
    EvalClosedForm(h, x, y, owner);
  }

  /** On an empty board every side is open or at the edge after zero stones. */
  lemma EmptyScan(x: int, y: int, d: int, forward: bool, owner: bool)
    requires 0 <= d < 4
    ensures Scan(EmptyGrid(), x, y, d, forward, owner, 1).run == 0
  {
  }

  /** On an empty board any cell scores 0 for either colour. */
  lemma EvalEmptyBoard(x: int, y: int, owner: bool)
    ensures EvalPosition(EmptyGrid(), x, y, owner) == 0
  {
    forall d | 0 <= d < 4
      ensures AxisCount(EmptyGrid(), x, y, owner, d) == 1
    {
      EmptyScan(x, y, d, true, owner);
      EmptyScan(x, y, d, false, owner);
    }
    EvalClosedForm(EmptyGrid(), x, y, owner);
  }

  function SwapCell(c: Cell): Cell {
    if c.Stone? then Stone(!c.player) else Empty
  }

  /** The board with every stone's colour exchanged. */
  function Swap(g: Grid): (h: Grid)
    requires WellFormed(g)
    ensures WellFormed(h)
    ensures forall i, j :: InBounds(i, j) ==> h[i][j] == SwapCell(g[i][j])
  {
    seq(N, i requires 0 <= i < N => seq(N, j requires 0 <= j < N => SwapCell(g[i][j])))
  }

  lemma {:induction false} ScanSwap(g: Grid, x: int, y: int, d: int, forward: bool, owner: bool, i: int)
    requires WellFormed(g) && 0 <= d < 4 && 1 <= i <= 5
    ensures Scan(Swap(g), x, y, d, forward, !owner, i) == Scan(g, x, y, d, forward, owner, i)
    decreases 5 - i
  {
    if i < 5 {
      ScanSwap(g, x, y, d, forward, owner, i + 1);
    }
  }

  /** The evaluation is colour-blind: exchanging every stone's colour and
      the colour asked about gives the same score. */
  lemma EvalSwap(g: Grid, x: int, y: int, owner: bool)
    requires WellFormed(g)
    ensures EvalPosition(Swap(g), x, y, !owner) == EvalPosition(g, x, y, owner)
  {
    forall d | 0 <= d < 4
      ensures AxisCount(Swap(g), x, y, !owner, d) == AxisCount(g, x, y, owner, d)
      ensures AxisSpaces(Swap(g), x, y, !owner, d) == AxisSpaces(g, x, y, owner, d)
    {
      ScanSwap(g, x, y, d, true, owner, 1);
      ScanSwap(g, x, y, d, false, owner, 1);
    }
    EvalClosedForm(g, x, y, owner);
    EvalClosedForm(Swap(g), x, y, !owner);
  }

  // ---------------------------------------------------------------------
  // Properties of evaluateBoard

  /** Cells from (i, j) on, in row-major order. */
  function CellsFrom(i: int, j: int): int {
    (N - i) * N - j
  }

  lemma {:induction false} StoneSumRange(g: Grid, owner: bool, i: int, j: int)
    requires WellFormed(g) && 0 <= i <= N && 0 <= j <= N
    requires i == N ==> j == 0
    ensures 0 <= StoneSum(g, owner, i, j) <= 100000 * CellsFrom(i, j)
    decreases N - i, N - j
  {
    if i == N {
    } else if j == N {
      StoneSumRange(g, owner, i + 1, 0);
    } else {
      StoneSumRange(g, owner, i, j + 1);
      EvalRange(g, i, j, owner);
    }
  }

  /** The signed board score is bounded by 225 fives either way, far inside
      the range of a 32-bit int. */
  lemma EvalBoardRange(g: Grid)
    requires WellFormed(g)
    ensures -22500000 <= EvalBoard(g) <= 22500000
  {
    StoneSumRange(g, false, 0, 0);
    StoneSumRange(g, true, 0, 0);
  }

  lemma {:induction false} StoneSumEmpty(owner: bool, i: int, j: int)
    requires 0 <= i <= N && 0 <= j <= N
    ensures StoneSum(EmptyGrid(), owner, i, j) == 0
    decreases N - i, N - j
  {
    if i == N {
    } else if j == N {
      StoneSumEmpty(owner, i + 1, 0);
    } else {
      StoneSumEmpty(owner, i, j + 1);
    }
  }

  /** An empty board scores 0. */
  lemma EvalBoardEmpty()
    ensures EvalBoard(EmptyGrid()) == 0
  {
    StoneSumEmpty(false, 0, 0);
    StoneSumEmpty(true, 0, 0);
  }

  lemma {:induction false} StoneSumSwap(g: Grid, owner: bool, i: int, j: int)
    requires WellFormed(g) && 0 <= i <= N && 0 <= j <= N
    ensures StoneSum(Swap(g), !owner, i, j) == StoneSum(g, owner, i, j)
    decreases N - i, N - j
  {
    if i == N {
    } else if j == N {
      StoneSumSwap(g, owner, i + 1, 0);
    } else {
      StoneSumSwap(g, owner, i, j + 1);
      EvalSwap(g, i, j, owner);
    }
  }

  /** Exchanging the colours of all stones negates the board score: the
      evaluation favours neither side. */
  lemma EvalBoardSwap(g: Grid)
    requires WellFormed(g)
    ensures EvalBoard(Swap(g)) == -EvalBoard(g)
  {
    StoneSumSwap(g, false, 0, 0);
    StoneSumSwap(g, true, 0, 0);
  }
}
