/** The move pickers of AILogic and the game's hint: each scans the empty
    cells in row-major order, scores a trial stone on each and keeps the best
    one. `findBestMoveEasy` and the hint break ties towards the centre,
    `findBestMoveMedium` too, and `findBestMoveHard` collects every cell of
    the best score and picks one at random. */
module AI {
  import opened Board
  import opened Moves
  import opened Evaluation
  import opened Search

  /** `(BOARD_SIZE - 1) / 2`. */
  const Center: int := (N - 1) / 2

  function Abs(v: int): int { if v < 0 then -v else v }

  /** Manhattan distance of (x, y) from the centre cell (7, 7). */
  function Dist(x: int, y: int): int {
    Abs(x - Center) + Abs(y - Center)
  }

  /** `isCloserToCenter(x, y, move)`: true when there is no move yet,
      otherwise whether (x, y) is strictly nearer the centre than the move. */
  function IsCloserToCenter(x: int, y: int, move: Option<Move>): bool {
    match move
    case None => true
    case Some(m) => Dist(x, y) < Dist(m.x, m.y)
  }

  /** Being strictly closer is a strict order on cells: never true of a
      cell against itself, never both ways, and transitive. So a tie in the
      score keeps the first-scanned of the nearest cells. */
  lemma CloserIsStrictOrder(a: Move, b: Move, c: Move)
    ensures !IsCloserToCenter(a.x, a.y, Some(a))
    ensures IsCloserToCenter(a.x, a.y, Some(b)) ==> !IsCloserToCenter(b.x, b.y, Some(a))
    ensures IsCloserToCenter(a.x, a.y, Some(b)) && IsCloserToCenter(b.x, b.y, Some(c)) ==>
            IsCloserToCenter(a.x, a.y, Some(c))
  {
  }

  // ---------------------------------------------------------------------
  // What each picker scores a cell by

  /** The trial a picker makes on an empty cell. */
  datatype Scoring =
    | EasyScoring               // max of white's and black's evaluatePosition there
    | LookAhead(depth: nat)     // white there, then minimax(depth, false, MIN, MAX)
    | HintScoring(player: bool) // player's evaluatePosition there

  function ScoreOf(g: Grid, sc: Scoring, i: int, j: int): int
    requires WellFormed(g) && InBounds(i, j)
  {
    match sc
    case EasyScoring =>
      Max(EvalPosition(Place(g, i, j, Stone(false)), i, j, false),
          EvalPosition(Place(g, i, j, Stone(true)), i, j, true))
    case LookAhead(depth) =>
      Minimax(Place(g, i, j, Stone(false)), depth, false, MinInt, MaxInt)
    case HintScoring(p) =>
      EvalPosition(Place(g, i, j, Stone(p)), i, j, p)
  }

  /** A table of one score per cell. */
  type Table = seq<seq<int>>

  predicate IsTable(t: Table) {
    |t| == N && forall i :: 0 <= i < N ==> |t[i]| == N
  }

  /** Every empty cell's score under sc (occupied cells are never read). */
  function Scores(g: Grid, sc: Scoring): (t: Table)
    requires WellFormed(g)
    ensures IsTable(t)
    ensures forall i, j :: InBounds(i, j) && g[i][j] == Empty ==> t[i][j] == ScoreOf(g, sc, i, j)
  {
    seq(N, i requires 0 <= i < N =>
      seq(N, j requires 0 <= j < N => if g[i][j] == Empty then ScoreOf(g, sc, i, j) else 0))
  }

  /** Every empty cell scores at least `floor`. */
  ghost predicate AtLeast(g: Grid, t: Table, floor: int)
    requires WellFormed(g) && IsTable(t)
  {
    forall i, j :: InBounds(i, j) && g[i][j] == Empty ==> t[i][j] >= floor
  }

  /** The easy and hint scores are never negative. */
  lemma EvalScoresNonNegative(g: Grid, sc: Scoring)
    requires WellFormed(g) && !sc.LookAhead?
    ensures AtLeast(g, Scores(g, sc), 0)
  {
    forall i, j | InBounds(i, j) && g[i][j] == Empty
      ensures Scores(g, sc)[i][j] >= 0
    {
      EvalRange(Place(g, i, j, Stone(false)), i, j, false);
      EvalRange(Place(g, i, j, Stone(true)), i, j, true);
    }
  }

  /** The look-ahead scores fit in a Java int. */
  lemma LookAheadScoresInRange(g: Grid, depth: nat)
    requires WellFormed(g)
    ensures AtLeast(g, Scores(g, LookAhead(depth)), MinInt)
  {
    forall i, j | InBounds(i, j) && g[i][j] == Empty
      ensures Scores(g, LookAhead(depth))[i][j] >= MinInt
    {
      MinimaxClamp(Place(g, i, j, Stone(false)), depth, false, MinInt, MaxInt);
    }
  }

  /** The evaluation ignores the trial stone itself: the easy score of a
      cell is the larger of what a white and a black stone there would make
      of their neighbours. */
  lemma EasyScoreIgnoresTrialStone(g: Grid, i: int, j: int)
    requires WellFormed(g) && InBounds(i, j)
    ensures ScoreOf(g, EasyScoring, i, j) == Max(EvalPosition(g, i, j, false), EvalPosition(g, i, j, true))
  {
    EvalIgnoresOrigin(g, i, j, false, Stone(false));
    EvalIgnoresOrigin(g, i, j, true, Stone(true));
  }

  /** The medium score of a cell is white's stone there followed by black's
      most damaging reply: no reply scores lower, and unless the board is
      then full some reply scores exactly that (Integer.MAX_VALUE if full). */
  lemma MediumScoreIsWorstReply(g: Grid, i: int, j: int)
    requires WellFormed(g) && InBounds(i, j)
    ensures var h := Place(g, i, j, Stone(false));
      var s := ScoreOf(g, LookAhead(1), i, j);
      (forall k, l :: InBounds(k, l) && h[k][l] == Empty ==> s <= EvalBoard(Place(h, k, l, Stone(true)))) &&
      (s == MaxInt || exists k, l :: InBounds(k, l) && h[k][l] == Empty && s == EvalBoard(Place(h, k, l, Stone(true))))
  {
    var h := Place(g, i, j, Stone(false));
    PruningIsExact(h, 1, false);
    PlainIsBestChild(h, 1, false);
    forall k, l | InBounds(k, l) && h[k][l] == Empty
      ensures Child(h, 1, false, k, l) == EvalBoard(Place(h, k, l, Stone(true)))
    {
    }
  }

  // ---------------------------------------------------------------------
  // Keeping the best cell, ties towards the centre

  /** The scan of findBestMoveEasy, findBestMoveMedium and
      findBestMoveForPlayer from cell (i, j) on: a cell replaces the current
      choice when it scores higher, or the same and is closer to the centre
      (always, when there is no choice yet). */
  function PickFrom(g: Grid, t: Table, tag: bool, i: int, j: int, bestScore: int, best: Option<Move>): Option<Move>
    requires WellFormed(g) && IsTable(t) && 0 <= i <= N && 0 <= j <= N
    decreases N - i, N - j, g
  {
    if i == N then best
    else if j == N then PickFrom(g, t, tag, i + 1, 0, bestScore, best)
    else if g[i][j] != Empty then PickFrom(g, t, tag, i, j + 1, bestScore, best)
    else
      var score := t[i][j];
      if score > bestScore || (score == bestScore && IsCloserToCenter(i, j, best))
      then PickFrom(g, t, tag, i, j + 1, score, Some(Move(i, j, tag)))
      else PickFrom(g, t, tag, i, j + 1, bestScore, best)
  }

  /** Cell (a, b) is at least as good a pick as (c, d): a higher score, or
      the same score and nearer the centre, or as near and scanned first. */
  predicate Prefers(t: Table, a: int, b: int, c: int, d: int)
    requires IsTable(t) && InBounds(a, b) && InBounds(c, d)
  {
    t[a][b] > t[c][d] ||
    (t[a][b] == t[c][d] && (Dist(a, b) < Dist(c, d) || (Dist(a, b) == Dist(c, d) && RowMajorLe(a, b, c, d))))
  }

  /** m is the empty cell, tagged `tag`, that is preferred to every other
      empty cell. */
  ghost predicate IsBestPick(g: Grid, t: Table, tag: bool, m: Move)
    requires WellFormed(g) && IsTable(t)
  {
    InBounds(m.x, m.y) && g[m.x][m.y] == Empty && m.player == tag &&
    forall k, l :: InBounds(k, l) && g[k][l] == Empty ==> Prefers(t, m.x, m.y, k, l)
  }

  /** The best pick is unique: the preference is a total order on cells. */
  lemma BestPickUnique(g: Grid, t: Table, tag: bool, m1: Move, m2: Move)
    requires WellFormed(g) && IsTable(t)
    requires IsBestPick(g, t, tag, m1) && IsBestPick(g, t, tag, m2)
    ensures m1 == m2
  {
    assert Prefers(t, m1.x, m1.y, m2.x, m2.y) && Prefers(t, m2.x, m2.y, m1.x, m1.y);
  }

  /** What the scan has established before cell (i, j): no choice and no
      empty cell yet, or a choice that is an empty cell scanned already,
      whose score is bestScore and which is preferred to every empty cell
      scanned so far. */
  ghost predicate PickInv(g: Grid, t: Table, tag: bool, i: int, j: int, bestScore: int, best: Option<Move>, floor: int)
    requires WellFormed(g) && IsTable(t)
  {
    match best
    case None =>
      bestScore == floor &&
      forall k, l :: InBounds(k, l) && !RowMajorLe(i, j, k, l) ==> g[k][l] != Empty
    case Some(m) =>
      InBounds(m.x, m.y) && !RowMajorLe(i, j, m.x, m.y) && g[m.x][m.y] == Empty && m.player == tag &&
      bestScore == t[m.x][m.y] &&
      forall k, l :: InBounds(k, l) && !RowMajorLe(i, j, k, l) && g[k][l] == Empty ==> Prefers(t, m.x, m.y, k, l)
  }

  /** One empty cell of the scan keeps the invariant; the scan goes on
      with the choice (s, b) that cell leaves. */
  lemma PickStep(g: Grid, t: Table, tag: bool, i: int, j: int, bestScore: int, best: Option<Move>, floor: int)
    returns (s: int, b: Option<Move>)
    requires WellFormed(g) && IsTable(t) && InBounds(i, j) && g[i][j] == Empty
    requires AtLeast(g, t, floor)
    requires PickInv(g, t, tag, i, j, bestScore, best, floor)
    ensures PickInv(g, t, tag, i, j + 1, s, b, floor)
    ensures PickFrom(g, t, tag, i, j, bestScore, best) == PickFrom(g, t, tag, i, j + 1, s, b)
  {
    var score := t[i][j];
    if score > bestScore || (score == bestScore && IsCloserToCenter(i, j, best)) {
      s, b := score, Some(Move(i, j, tag));
      forall k, l | InBounds(k, l) && !RowMajorLe(i, j + 1, k, l) && g[k][l] == Empty
        ensures Prefers(t, i, j, k, l)
      {
        if k != i || l != j {
          assert best.Some?;
          assert Prefers(t, best.value.x, best.value.y, k, l);
        }
      }
    } else {
      s, b := bestScore, best;
      assert best.Some?;
    }
  }

  lemma {:induction false} PickFromCorrect(g: Grid, t: Table, tag: bool, i: int, j: int,
                                           bestScore: int, best: Option<Move>, floor: int)
    requires WellFormed(g) && IsTable(t) && 0 <= i <= N && 0 <= j <= N
    requires AtLeast(g, t, floor)
    requires PickInv(g, t, tag, i, j, bestScore, best, floor)
    ensures var r := PickFrom(g, t, tag, i, j, bestScore, best);
      (r.None? <==> Full(g)) && (r.Some? ==> IsBestPick(g, t, tag, r.value))
    decreases N - i, N - j
  {
    if i == N {
      if best.None? {
        assert Full(g);
      }
    } else if j == N {
      PickFromCorrect(g, t, tag, i + 1, 0, bestScore, best, floor);
    } else if g[i][j] != Empty {
      PickFromCorrect(g, t, tag, i, j + 1, bestScore, best, floor);
    } else {
      var s, b := PickStep(g, t, tag, i, j, bestScore, best, floor);
      PickFromCorrect(g, t, tag, i, j + 1, s, b, floor);
    }
  }

  /** The pick of a scan from the start: None exactly when the board is
      full, otherwise the unique best pick. */
  lemma PickIsBest(g: Grid, t: Table, tag: bool, floor: int)
    requires WellFormed(g) && IsTable(t) && AtLeast(g, t, floor)
    ensures var r := PickFrom(g, t, tag, 0, 0, floor, None);
      (r.None? <==> Full(g)) && (r.Some? ==> IsBestPick(g, t, tag, r.value))
  {
    PickFromCorrect(g, t, tag, 0, 0, floor, None, floor);
  }

  /** `findBestMoveEasy` on the grid g (best score starts at 0). */
  function EasyPick(g: Grid): Option<Move>
    requires WellFormed(g)
  {
    PickFrom(g, Scores(g, EasyScoring), false, 0, 0, 0, None)
  }

  /** `findBestMoveMedium`: one-reply look-ahead (best score starts at
      Integer.MIN_VALUE). */
  function MediumPick(g: Grid): Option<Move>
    requires WellFormed(g)
  {
    PickFrom(g, Scores(g, LookAhead(1)), false, 0, 0, MinInt, None)
  }

  /** `findBestMoveForPlayer(player)`: the hint (best score starts at 0). */
  function HintPick(g: Grid, player: bool): Option<Move>
    requires WellFormed(g)
  {
    PickFrom(g, Scores(g, HintScoring(player)), player, 0, 0, 0, None)
  }

  lemma EasyPickIsBest(g: Grid)
    requires WellFormed(g)
    ensures EasyPick(g).None? <==> Full(g)
    ensures EasyPick(g).Some? ==> IsBestPick(g, Scores(g, EasyScoring), false, EasyPick(g).value)
  {
    EvalScoresNonNegative(g, EasyScoring);
    PickIsBest(g, Scores(g, EasyScoring), false, 0);
  }

  lemma MediumPickIsBest(g: Grid)
    requires WellFormed(g)
    ensures MediumPick(g).None? <==> Full(g)
    ensures MediumPick(g).Some? ==> IsBestPick(g, Scores(g, LookAhead(1)), false, MediumPick(g).value)
  {
    LookAheadScoresInRange(g, 1);
    PickIsBest(g, Scores(g, LookAhead(1)), false, MinInt);
  }

  lemma HintPickIsBest(g: Grid, player: bool)
    requires WellFormed(g)
    ensures HintPick(g, player).None? <==> Full(g)
    ensures HintPick(g, player).Some? ==> IsBestPick(g, Scores(g, HintScoring(player)), player, HintPick(g, player).value)
  {
    EvalScoresNonNegative(g, HintScoring(player));
    PickIsBest(g, Scores(g, HintScoring(player)), player, 0);
  }

  /** When every empty cell of the empty board scores the same, the centre
      cell is the best pick: the tie-break alone decides. */
  lemma CentreIsBest(t: Table, tag: bool, score: int)
    requires IsTable(t)
    requires forall k, l :: InBounds(k, l) ==> t[k][l] == score
    ensures IsBestPick(EmptyGrid(), t, tag, Move(Center, Center, tag))
  {
    forall k, l | InBounds(k, l)
      ensures Prefers(t, Center, Center, k, l)
    {
      assert t[k][l] == t[Center][Center];
    }
  }

  /** On an empty board every cell scores 0 for the easy AI, so it opens on
      the centre cell. */
  lemma EasyOpensAtCentre()
    ensures EasyPick(EmptyGrid()) == Some(Move(Center, Center, false))
  {
    var g := EmptyGrid();
    var t := Scores(g, EasyScoring);
    forall k, l | InBounds(k, l)
      ensures t[k][l] == 0
    {
      EvalIgnoresOrigin(g, k, l, false, Stone(false));
      EvalIgnoresOrigin(g, k, l, true, Stone(true));
      EvalEmptyBoard(k, l, false);
      EvalEmptyBoard(k, l, true);
    }
    assert g[Center][Center] == Empty;
    EasyPickIsBest(g);
    CentreIsBest(t, false, 0);
    BestPickUnique(g, t, false, EasyPick(g).value, Move(Center, Center, false));
  }

  /** On an empty board the hint for either player is the centre cell. */
  lemma HintOpensAtCentre(player: bool)
    ensures HintPick(EmptyGrid(), player) == Some(Move(Center, Center, player))
  {
    var g := EmptyGrid();
    var t := Scores(g, HintScoring(player));
    forall k, l | InBounds(k, l)
      ensures t[k][l] == 0
    {
      EvalIgnoresOrigin(g, k, l, player, Stone(player));
      EvalEmptyBoard(k, l, player);
    }
    assert g[Center][Center] == Empty;
    HintPickIsBest(g, player);
    CentreIsBest(t, player, 0);
    BestPickUnique(g, t, player, HintPick(g, player).value, Move(Center, Center, player));
  }

  // ---------------------------------------------------------------------
  // findBestMoveHard: every cell of the best score, then a random one

  /** The scan of findBestMoveHard from (i, j) on: a higher score restarts
      the list of candidates, an equal one joins it. */
  function HardFrom(g: Grid, t: Table, i: int, j: int, bestScore: int, cands: seq<Move>): seq<Move>
    requires WellFormed(g) && IsTable(t) && 0 <= i <= N && 0 <= j <= N
    decreases N - i, N - j, g
  {
    if i == N then cands
    else if j == N then HardFrom(g, t, i + 1, 0, bestScore, cands)
    else if g[i][j] != Empty then HardFrom(g, t, i, j + 1, bestScore, cands)
    else if t[i][j] > bestScore then HardFrom(g, t, i, j + 1, t[i][j], [Move(i, j, false)])
    else if t[i][j] == bestScore then HardFrom(g, t, i, j + 1, bestScore, cands + [Move(i, j, false)])
    else HardFrom(g, t, i, j + 1, bestScore, cands)
  }

  /** The reference definitions: the largest of acc and the scores of the
      empty cells from (i, j) on ... */
  function MaxFrom(g: Grid, t: Table, i: int, j: int, acc: int): int
    requires WellFormed(g) && IsTable(t) && 0 <= i <= N && 0 <= j <= N
    decreases N - i, N - j, g
  {
    if i == N then acc
    else if j == N then MaxFrom(g, t, i + 1, 0, acc)
    else if g[i][j] != Empty then MaxFrom(g, t, i, j + 1, acc)
    else MaxFrom(g, t, i, j + 1, Max(t[i][j], acc))
  }

  /** ... and the empty cells from (i, j) on that score m, in scan order. */
  function Filter(g: Grid, t: Table, m: int, i: int, j: int): seq<Move>
    requires WellFormed(g) && IsTable(t) && 0 <= i <= N && 0 <= j <= N
    decreases N - i, N - j, g
  {
    if i == N then []
    else if j == N then Filter(g, t, m, i + 1, 0)
    else if g[i][j] == Empty && t[i][j] == m then [Move(i, j, false)] + Filter(g, t, m, i, j + 1)
    else Filter(g, t, m, i, j + 1)
  }

  lemma {:induction false} MaxFromMono(g: Grid, t: Table, i: int, j: int, acc: int)
    requires WellFormed(g) && IsTable(t) && 0 <= i <= N && 0 <= j <= N
    ensures MaxFrom(g, t, i, j, acc) >= acc
    decreases N - i, N - j
  {
    if i == N {
    } else if j == N {
      MaxFromMono(g, t, i + 1, 0, acc);
    } else if g[i][j] != Empty {
      MaxFromMono(g, t, i, j + 1, acc);
    } else {
      MaxFromMono(g, t, i, j + 1, Max(t[i][j], acc));
    }
  }

  /** The candidate list of the scan is the list of the empty cells of the
      maximal score. */
  lemma {:induction false} HardFromIsFilter(g: Grid, t: Table, i: int, j: int, bestScore: int, cands: seq<Move>)
    requires WellFormed(g) && IsTable(t) && 0 <= i <= N && 0 <= j <= N
    ensures var m := MaxFrom(g, t, i, j, bestScore);
      HardFrom(g, t, i, j, bestScore, cands) ==
        if m == bestScore then cands + Filter(g, t, m, i, j) else Filter(g, t, m, i, j)
    decreases N - i, N - j
  {
    if i == N {
    } else if j == N {
      HardFromIsFilter(g, t, i + 1, 0, bestScore, cands);
    } else if g[i][j] != Empty {
      HardFromIsFilter(g, t, i, j + 1, bestScore, cands);
    } else {
      var c := Move(i, j, false);
      var m := MaxFrom(g, t, i, j + 1, Max(t[i][j], bestScore));
      MaxFromMono(g, t, i, j + 1, Max(t[i][j], bestScore));
      if t[i][j] > bestScore {
        HardFromIsFilter(g, t, i, j + 1, t[i][j], [c]);
      } else if t[i][j] == bestScore {
        HardFromIsFilter(g, t, i, j + 1, bestScore, cands + [c]);
        if m == bestScore {
          assert cands + [c] + Filter(g, t, m, i, j + 1) == cands + ([c] + Filter(g, t, m, i, j + 1));
        }
      } else {
        HardFromIsFilter(g, t, i, j + 1, bestScore, cands);
      }
    }
  }

  lemma {:induction false} MaxFromBound(g: Grid, t: Table, i: int, j: int, acc: int)
    requires WellFormed(g) && IsTable(t) && 0 <= i <= N && 0 <= j <= N
    ensures forall k, l :: InBounds(k, l) && RowMajorLe(i, j, k, l) && g[k][l] == Empty ==>
      t[k][l] <= MaxFrom(g, t, i, j, acc)
    ensures var m := MaxFrom(g, t, i, j, acc);
      m == acc || exists k, l :: InBounds(k, l) && RowMajorLe(i, j, k, l) && g[k][l] == Empty && t[k][l] == m
    decreases N - i, N - j
  {
    if i == N {
    } else if j == N {
      MaxFromBound(g, t, i + 1, 0, acc);
    } else if g[i][j] != Empty {
      MaxFromBound(g, t, i, j + 1, acc);
    } else {
      MaxFromBound(g, t, i, j + 1, Max(t[i][j], acc));
      MaxFromMono(g, t, i, j + 1, Max(t[i][j], acc));
    }
  }

  lemma {:induction false} FilterMembers(g: Grid, t: Table, m: int, i: int, j: int)
    requires WellFormed(g) && IsTable(t) && 0 <= i <= N && 0 <= j <= N
    ensures forall c :: c in Filter(g, t, m, i, j) <==>
      InBounds(c.x, c.y) && RowMajorLe(i, j, c.x, c.y) && g[c.x][c.y] == Empty && t[c.x][c.y] == m && !c.player
    decreases N - i, N - j
  {
    if i == N {
    } else if j == N {
      FilterMembers(g, t, m, i + 1, 0);
    } else {
      FilterMembers(g, t, m, i, j + 1);
    }
  }

  /** Cell (a, b) is scanned strictly before (c, d). */
  predicate RowMajorLt(a: int, b: int, c: int, d: int) {
    a < c || (a == c && b < d)
  }

  /** The moves are in strictly increasing scan order, hence distinct. */
  predicate InScanOrder(f: seq<Move>) {
    forall p, q :: 0 <= p < q < |f| ==> RowMajorLt(f[p].x, f[p].y, f[q].x, f[q].y)
  }

  /** A move scanned before every move of a list in scan order, put in
      front of it, keeps the list in scan order. */
  lemma ConsInScanOrder(c: Move, rest: seq<Move>)
    requires InScanOrder(rest)
    requires forall p :: 0 <= p < |rest| ==> RowMajorLt(c.x, c.y, rest[p].x, rest[p].y)
    ensures InScanOrder([c] + rest)
  {
    var f := [c] + rest;
    forall p, q | 0 <= p < q < |f|
      ensures RowMajorLt(f[p].x, f[p].y, f[q].x, f[q].y)
    {
      assert f[q] == rest[q - 1];
      if p > 0 {
        assert f[p] == rest[p - 1];
      }
    }
  }

  lemma {:induction false} FilterSorted(g: Grid, t: Table, m: int, i: int, j: int)
    requires WellFormed(g) && IsTable(t) && 0 <= i <= N && 0 <= j <= N
    ensures InScanOrder(Filter(g, t, m, i, j))
    decreases N - i, N - j
  {
    if i == N {
    } else if j == N {
      FilterSorted(g, t, m, i + 1, 0);
    } else {
      FilterSorted(g, t, m, i, j + 1);
      var rest := Filter(g, t, m, i, j + 1);
      if g[i][j] == Empty && t[i][j] == m {
        FilterMembers(g, t, m, i, j + 1);
        assert forall p :: 0 <= p < |rest| ==> rest[p] in rest;
        ConsInScanOrder(Move(i, j, false), rest);
      }
    }
  }

  /** The scan of findBestMoveHard from the start over any table whose
      empty cells score at least Integer.MIN_VALUE: the candidates are
      exactly the empty cells of the maximal score, tagged white, in scan
      order without repetition; no empty cell beats that score; and there
      are candidates exactly when the board is not full. */
  lemma CandidatesAreBest(g: Grid, t: Table)
    requires WellFormed(g) && IsTable(t) && AtLeast(g, t, MinInt)
    ensures var f, m := HardFrom(g, t, 0, 0, MinInt, []), MaxFrom(g, t, 0, 0, MinInt);
      (forall c :: c in f <==> InBounds(c.x, c.y) && g[c.x][c.y] == Empty && !c.player && t[c.x][c.y] == m) &&
      (forall k, l :: InBounds(k, l) && g[k][l] == Empty ==> t[k][l] <= m) &&
      InScanOrder(f) &&
      (f == [] <==> Full(g))
  {
    var m := MaxFrom(g, t, 0, 0, MinInt);
    var f := HardFrom(g, t, 0, 0, MinInt, []);
    HardFromIsFilter(g, t, 0, 0, MinInt, []);
    assert f == Filter(g, t, m, 0, 0);
    FilterMembers(g, t, m, 0, 0);
    FilterSorted(g, t, m, 0, 0);
    MaxFromBound(g, t, 0, 0, MinInt);
    if !Full(g) {
      var k, l :| InBounds(k, l) && g[k][l] == Empty;
      if m == MinInt {
        assert Move(k, l, false) in f;
      } else {
        var k', l' :| InBounds(k', l') && g[k'][l'] == Empty && t[k'][l'] == m;
        assert Move(k', l', false) in f;
      }
    }
    if f != [] {
      assert f[0] in f;
    }
  }

  /** The candidate list of findBestMoveHard. */
  function HardCandidates(g: Grid): seq<Move>
    requires WellFormed(g)
  {
    HardFrom(g, Scores(g, LookAhead(2)), 0, 0, MinInt, [])
  }

  /** The best two-ply score over the empty cells. */
  function HardBest(g: Grid): int
    requires WellFormed(g)
  {
    MaxFrom(g, Scores(g, LookAhead(2)), 0, 0, MinInt)
  }

  lemma HardCandidatesAreBest(g: Grid)
    requires WellFormed(g)
    ensures forall c :: c in HardCandidates(g) <==>
      InBounds(c.x, c.y) && g[c.x][c.y] == Empty && !c.player &&
      Scores(g, LookAhead(2))[c.x][c.y] == HardBest(g)
    ensures forall k, l :: InBounds(k, l) && g[k][l] == Empty ==> Scores(g, LookAhead(2))[k][l] <= HardBest(g)
    ensures InScanOrder(HardCandidates(g))
    ensures HardCandidates(g) == [] <==> Full(g)
  {
    LookAheadScoresInRange(g, 2);
    CandidatesAreBest(g, Scores(g, LookAhead(2)));
  }

  /** `bestMoves.get(random.nextInt(bestMoves.size()))` when the list is
      not empty, with the random number drawn by the caller: `nextInt(n)`
      is uniform on 0 .. n - 1, which `draw % n` covers for any draw. */
  function ChooseAt(cands: seq<Move>, draw: nat): (r: Option<Move>)
    ensures r.None? <==> cands == []
    ensures r.Some? ==> r.value in cands
  {
    if cands == [] then None else Some(cands[draw % |cands|])
  }

  /** Every candidate is chosen by some draw. */
  lemma ChooseAtCovers(cands: seq<Move>, c: Move) returns (d: nat)
    requires c in cands
    ensures ChooseAt(cands, d) == Some(c)
  {
    d :| d < |cands| && cands[d] == c;
  }

  /** `findBestMoveHard` for a given draw. */
  function HardPick(g: Grid, draw: nat): Option<Move>
    requires WellFormed(g)
  {
    ChooseAt(HardCandidates(g), draw)
  }

  /** Whatever the draw, the hard pick is an empty cell of the best score,
      tagged white, None only on a full board; and every empty cell of the
      best score is picked by some draw. */
  lemma HardPickIsBest(g: Grid, draw: nat)
    requires WellFormed(g)
    ensures HardPick(g, draw).None? <==> Full(g)
    ensures HardPick(g, draw).Some? ==>
      var m := HardPick(g, draw).value;
      InBounds(m.x, m.y) && g[m.x][m.y] == Empty && !m.player &&
      Scores(g, LookAhead(2))[m.x][m.y] == HardBest(g)
    ensures forall k, l :: InBounds(k, l) && g[k][l] == Empty && Scores(g, LookAhead(2))[k][l] == HardBest(g) ==>
      exists d: nat :: HardPick(g, d) == Some(Move(k, l, false))
  {
    HardCandidatesAreBest(g);
    forall k, l | InBounds(k, l) && g[k][l] == Empty && Scores(g, LookAhead(2))[k][l] == HardBest(g)
      ensures exists d: nat :: HardPick(g, d) == Some(Move(k, l, false))
    {
      var d := ChooseAtCovers(HardCandidates(g), Move(k, l, false));
      assert HardPick(g, d) == Some(Move(k, l, false));
    }
  }

  // ---------------------------------------------------------------------
  // The pickers on the array

  /** The two trial stones of findBestMoveEasy on the empty cell (i, j). */
  method EasyScore(board: array2<Cell>, ghost g: Grid, i: int, j: int) returns (score: int)
    requires Mirrors(board, g) && InBounds(i, j) && g[i][j] == Empty
    modifies board
    ensures Mirrors(board, g)
    ensures score == ScoreOf(g, EasyScoring, i, j)
  {
    ghost var white, black := Place(g, i, j, Stone(false)), Place(g, i, j, Stone(true));
    SetCell(board, g, i, j, Stone(false));
    var aiScore := EvaluateAxes(board, white, i, j, false);
    SetCell(board, white, i, j, Empty);
    PlaceUndo(g, i, j, Stone(false));
    SetCell(board, g, i, j, Stone(true));
    var playerScore := EvaluateAxes(board, black, i, j, true);
    SetCell(board, black, i, j, Empty);
    PlaceUndo(g, i, j, Stone(true));
    score := Max(aiScore, playerScore);
  }

  /** `findBestMoveEasy`: the board is left as it was. */
  method FindBestMoveEasy(board: array2<Cell>, ghost g: Grid) returns (bestMove: Option<Move>)
    requires Mirrors(board, g)
    modifies board
    ensures Mirrors(board, g)
    ensures bestMove == EasyPick(g)
  {
    ghost var t := Scores(g, EasyScoring);
    bestMove := None;
    var bestScore := 0;
    for i := 0 to N
      invariant Mirrors(board, g)
      invariant PickFrom(g, t, false, i, 0, bestScore, bestMove) == EasyPick(g)
    {
      for j := 0 to N
        invariant Mirrors(board, g)
        invariant PickFrom(g, t, false, i, j, bestScore, bestMove) == EasyPick(g)
      {
        if board[i, j] == Empty {
          var score := EasyScore(board, g, i, j);
          if score > bestScore || (score == bestScore && IsCloserToCenter(i, j, bestMove)) {
            bestScore := score;
            bestMove := Some(Move(i, j, false));
          }
        }
      }
    }
  }

  /** The trial of findBestMoveMedium and findBestMoveHard on the empty
      cell (i, j): white's stone is placed and pushed on the history, the
      reply searched to the given depth, and both undone. */
  method LookAheadScore(board: array2<Cell>, ghost g: Grid, history: MoveStack, i: int, j: int, depth: nat)
    returns (score: int)
    requires Mirrors(board, g) && InBounds(i, j) && g[i][j] == Empty
    modifies board, history
    ensures Mirrors(board, g) && history.elems == old(history.elems)
    ensures score == ScoreOf(g, LookAhead(depth), i, j)
  {
    ghost var white := Place(g, i, j, Stone(false));
    SetCell(board, g, i, j, Stone(false));
    history.Push(Move(i, j, false));
    score := MinimaxSearch(board, white, depth, false, MinInt, MaxInt);
    SetCell(board, white, i, j, Empty);
    PlaceUndo(g, i, j, Stone(false));
    var popped := history.Pop();
  }

  /** `findBestMoveMedium`: board and history are left as they were. */
  method FindBestMoveMedium(board: array2<Cell>, ghost g: Grid, history: MoveStack) returns (bestMove: Option<Move>)
    requires Mirrors(board, g)
    modifies board, history
    ensures Mirrors(board, g) && history.elems == old(history.elems)
    ensures bestMove == MediumPick(g)
  {
    ghost var t := Scores(g, LookAhead(1));
    bestMove := None;
    var bestScore := MinInt;
    for i := 0 to N
      invariant Mirrors(board, g) && history.elems == old(history.elems)
      invariant PickFrom(g, t, false, i, 0, bestScore, bestMove) == MediumPick(g)
    {
      for j := 0 to N
        invariant Mirrors(board, g) && history.elems == old(history.elems)
        invariant PickFrom(g, t, false, i, j, bestScore, bestMove) == MediumPick(g)
      {
        if board[i, j] == Empty {
          var score := LookAheadScore(board, g, history, i, j, 1);
          if score > bestScore || (score == bestScore && IsCloserToCenter(i, j, bestMove)) {
            bestScore := score;
            bestMove := Some(Move(i, j, false));
          }
        }
      }
    }
  }

  /** `findBestMoveHard` with the random number drawn by the caller: board
      and history are left as they were. */
  method FindBestMoveHard(board: array2<Cell>, ghost g: Grid, history: MoveStack, draw: nat)
    returns (bestMove: Option<Move>)
    requires Mirrors(board, g)
    modifies board, history
    ensures Mirrors(board, g) && history.elems == old(history.elems)
    ensures bestMove == HardPick(g, draw)
  {
    ghost var t := Scores(g, LookAhead(2));
    bestMove := None;
    var bestScore := MinInt;
    var bestMoves: seq<Move> := [];
    for i := 0 to N
      invariant Mirrors(board, g) && history.elems == old(history.elems)
      invariant HardFrom(g, t, i, 0, bestScore, bestMoves) == HardCandidates(g)
    {
      for j := 0 to N
        invariant Mirrors(board, g) && history.elems == old(history.elems)
        invariant HardFrom(g, t, i, j, bestScore, bestMoves) == HardCandidates(g)
      {
        if board[i, j] == Empty {
          var score := LookAheadScore(board, g, history, i, j, 2);
          if score > bestScore {
            bestScore := score;
            bestMoves := [Move(i, j, false)];
          } else if score == bestScore {
            bestMoves := bestMoves + [Move(i, j, false)];
          }
        }
      }
    }
    if bestMoves != [] {
      bestMove := Some(bestMoves[draw % |bestMoves|]);
    }
  }
}
