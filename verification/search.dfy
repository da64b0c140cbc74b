/** AILogic's `minimax`: a depth-limited game-tree search with alpha-beta
    pruning over the empty cells in row-major order. White (the AI, `false`)
    is the maximising side and black (`true`) the minimising one; a leaf is
    scored by `evaluateBoard`. The search never looks for a five: a won
    position is searched on like any other. */
module Search {
  import opened Board
  import opened Evaluation

  /** Integer.MIN_VALUE and Integer.MAX_VALUE: the initial best scores and
      the window of a top-level call. */
  const MinInt: int := -2147483648
  const MaxInt: int := 2147483647

  function Max(a: int, b: int): int { if a >= b then a else b }
  function Min(a: int, b: int): int { if a <= b then a else b }

  /** The score a node starts from before any child is seen. */
  function Sentinel(maximizing: bool): int {
    if maximizing then MinInt else MaxInt
  }

  /** The stone a node tries on each empty cell: white at a maximising node,
      black at a minimising one. */
  function Mover(maximizing: bool): Cell {
    Stone(!maximizing)
  }

  // The recursive definitions list the grid last in `decreases`; it keeps
  // the verifier from unrolling them whenever the counters are literals.

  /** `minimax(depth, isMaximizing, alpha, beta)` on the grid g. */
  function Minimax(g: Grid, depth: nat, maximizing: bool, alpha: int, beta: int): int
    requires WellFormed(g)
    decreases depth, 1, 0, 0, g
  {
    if depth == 0 then EvalBoard(g)
    else SearchLoop(g, depth, maximizing, 0, 0, Sentinel(maximizing), alpha, beta)
  }

  /** The two nested loops of one node from cell (i, j) on, with the best
      score and the window so far. After each child the window is narrowed
      (alpha at a maximising node, beta at a minimising one); once
      beta <= alpha the inner `break` and the test after the inner loop end
      the node. The test after the inner loop also runs at the end of every
      row. */
  function SearchLoop(g: Grid, depth: nat, maximizing: bool, i: int, j: int,
                      best: int, alpha: int, beta: int): int
    requires WellFormed(g) && depth >= 1 && 0 <= i <= N && 0 <= j <= N
    decreases depth, 0, N - i, N - j, g
  {
    if i == N then best
    else if j == N then
      (if beta <= alpha then best
       else SearchLoop(g, depth, maximizing, i + 1, 0, best, alpha, beta))
    else if g[i][j] != Empty then
      SearchLoop(g, depth, maximizing, i, j + 1, best, alpha, beta)
    else
      var score := Minimax(Place(g, i, j, Mover(maximizing)), depth - 1, !maximizing, alpha, beta);
      var best' := if maximizing then Max(score, best) else Min(score, best);
      var alpha' := if maximizing then Max(alpha, best') else alpha;
      var beta' := if maximizing then beta else Min(beta, best');
      if beta' <= alpha' then best'
      else SearchLoop(g, depth, maximizing, i, j + 1, best', alpha', beta')
  }

  /** The reference: the same search without pruning, the plain maximum
      (or minimum) over every empty cell of the child's value. */
  function Plain(g: Grid, depth: nat, maximizing: bool): int
    requires WellFormed(g)
    decreases depth, 1, 0, 0, g
  {
    if depth == 0 then EvalBoard(g)
    else PlainLoop(g, depth, maximizing, 0, 0, Sentinel(maximizing))
  }

  function PlainLoop(g: Grid, depth: nat, maximizing: bool, i: int, j: int, best: int): int
    requires WellFormed(g) && depth >= 1 && 0 <= i <= N && 0 <= j <= N
    decreases depth, 0, N - i, N - j, g
  {
    if i == N then best
    else if j == N then PlainLoop(g, depth, maximizing, i + 1, 0, best)
    else if g[i][j] != Empty then PlainLoop(g, depth, maximizing, i, j + 1, best)
    else
      var score := Child(g, depth, maximizing, i, j);
      PlainLoop(g, depth, maximizing, i, j + 1, if maximizing then Max(score, best) else Min(score, best))
  }

  /** The unpruned value of trying cell (i, j) at a node. */
  function Child(g: Grid, depth: nat, maximizing: bool, i: int, j: int): int
    requires WellFormed(g) && depth >= 1 && InBounds(i, j)
    decreases depth - 1, 2, 0, 0, g
  {
    Plain(Place(g, i, j, Mover(maximizing)), depth - 1, !maximizing)
  }

  // ---------------------------------------------------------------------
  // The unpruned search is the maximum (minimum) over the children

  lemma {:induction false} PlainLoopMono(g: Grid, depth: nat, maximizing: bool, i: int, j: int, best: int)
    requires WellFormed(g) && depth >= 1 && 0 <= i <= N && 0 <= j <= N
    ensures maximizing ==> PlainLoop(g, depth, maximizing, i, j, best) >= best
    ensures !maximizing ==> PlainLoop(g, depth, maximizing, i, j, best) <= best
    decreases N - i, N - j
  {
    if i == N {
    } else if j == N {
      PlainLoopMono(g, depth, maximizing, i + 1, 0, best);
    } else if g[i][j] != Empty {
      PlainLoopMono(g, depth, maximizing, i, j + 1, best);
    } else {
      var s := Child(g, depth, maximizing, i, j);
      PlainLoopMono(g, depth, maximizing, i, j + 1, if maximizing then Max(s, best) else Min(s, best));
    }
  }

  lemma {:induction false} PlainLoopBound(g: Grid, depth: nat, maximizing: bool, i: int, j: int, best: int)
    requires WellFormed(g) && depth >= 1 && 0 <= i <= N && 0 <= j <= N
    ensures forall k, l :: InBounds(k, l) && RowMajorLe(i, j, k, l) && g[k][l] == Empty ==>
      if maximizing then PlainLoop(g, depth, maximizing, i, j, best) >= Child(g, depth, maximizing, k, l)
      else PlainLoop(g, depth, maximizing, i, j, best) <= Child(g, depth, maximizing, k, l)
    decreases N - i, N - j
  {
    if i == N {
    } else if j == N {
      PlainLoopBound(g, depth, maximizing, i + 1, 0, best);
    } else if g[i][j] != Empty {
      PlainLoopBound(g, depth, maximizing, i, j + 1, best);
    } else {
      var s := Child(g, depth, maximizing, i, j);
      var best' := if maximizing then Max(s, best) else Min(s, best);
      PlainLoopBound(g, depth, maximizing, i, j + 1, best');
      PlainLoopMono(g, depth, maximizing, i, j + 1, best');
    }
  }

  lemma {:induction false} PlainLoopAttained(g: Grid, depth: nat, maximizing: bool, i: int, j: int, best: int)
    requires WellFormed(g) && depth >= 1 && 0 <= i <= N && 0 <= j <= N
    ensures var r := PlainLoop(g, depth, maximizing, i, j, best);
      r == best || exists k, l :: InBounds(k, l) && RowMajorLe(i, j, k, l) && g[k][l] == Empty &&
                                  r == Child(g, depth, maximizing, k, l)
    decreases N - i, N - j
  {
    if i == N {
    } else if j == N {
      PlainLoopAttained(g, depth, maximizing, i + 1, 0, best);
    } else if g[i][j] != Empty {
      PlainLoopAttained(g, depth, maximizing, i, j + 1, best);
    } else {
      var s := Child(g, depth, maximizing, i, j);
      PlainLoopAttained(g, depth, maximizing, i, j + 1, if maximizing then Max(s, best) else Min(s, best));
    }
  }

  /** At depth >= 1 the unpruned value of a node is the best child for the
      side to move: no child beats it, and unless the board is full some
      empty cell attains it. */
  lemma PlainIsBestChild(g: Grid, depth: nat, maximizing: bool)
    requires WellFormed(g) && depth >= 1
    ensures forall k, l :: InBounds(k, l) && g[k][l] == Empty ==>
      if maximizing then Plain(g, depth, maximizing) >= Child(g, depth, maximizing, k, l)
      else Plain(g, depth, maximizing) <= Child(g, depth, maximizing, k, l)
    ensures Plain(g, depth, maximizing) == Sentinel(maximizing) ||
      exists k, l :: InBounds(k, l) && g[k][l] == Empty && Plain(g, depth, maximizing) == Child(g, depth, maximizing, k, l)
  {
    PlainLoopBound(g, depth, maximizing, 0, 0, Sentinel(maximizing));
    PlainLoopAttained(g, depth, maximizing, 0, 0, Sentinel(maximizing));
  }

  // ---------------------------------------------------------------------
  // Alpha-beta pruning computes the unpruned value

  /** v cut to the window [a, b]. */
  function Clamp(v: int, a: int, b: int): int {
    if v <= a then a else if v >= b then b else v
  }

  /** One child at a maximising node keeps the pruned and the unpruned best
      scores equal once cut to the window. */
  lemma ClampMaxStep(s: int, ps: int, best: int, pbest: int, a: int, b: int)
    requires a < b && Max(a, best) < b
    requires Clamp(best, a, b) == Clamp(pbest, a, b)
    requires Clamp(s, Max(a, best), b) == Clamp(ps, Max(a, best), b)
    ensures Clamp(Max(s, best), a, b) == Clamp(Max(ps, pbest), a, b)
  {
  }

  lemma ClampMinStep(s: int, ps: int, best: int, pbest: int, a: int, b: int)
    requires a < b && a < Min(b, best)
    requires Clamp(best, a, b) == Clamp(pbest, a, b)
    requires Clamp(s, a, Min(b, best)) == Clamp(ps, a, Min(b, best))
    ensures Clamp(Min(s, best), a, b) == Clamp(Min(ps, pbest), a, b)
  {
  }

  lemma {:induction false} MinimaxClamp(g: Grid, depth: nat, maximizing: bool, a: int, b: int)
    requires WellFormed(g) && MinInt <= a < b <= MaxInt
    ensures MinInt <= Minimax(g, depth, maximizing, a, b) <= MaxInt
    ensures Clamp(Minimax(g, depth, maximizing, a, b), a, b) == Clamp(Plain(g, depth, maximizing), a, b)
    decreases depth, 1, 0, 0
  {
    if depth == 0 {
      EvalBoardRange(g);
    } else {
      var s := Sentinel(maximizing);
      LoopClamp(g, depth, maximizing, 0, 0, s, s, a, b, a, b);
    }
  }

  lemma {:induction false} LoopClamp(g: Grid, depth: nat, maximizing: bool, i: int, j: int,
                                     best: int, pbest: int, alpha: int, beta: int, a: int, b: int)
    requires WellFormed(g) && depth >= 1 && 0 <= i <= N && 0 <= j <= N
    requires MinInt <= a < b <= MaxInt && MinInt <= best <= MaxInt
    requires maximizing ==> alpha == Max(a, best) && beta == b && alpha < b
    requires !maximizing ==> beta == Min(b, best) && alpha == a && a < beta
    requires Clamp(best, a, b) == Clamp(pbest, a, b)
    ensures MinInt <= SearchLoop(g, depth, maximizing, i, j, best, alpha, beta) <= MaxInt
    ensures Clamp(SearchLoop(g, depth, maximizing, i, j, best, alpha, beta), a, b)
         == Clamp(PlainLoop(g, depth, maximizing, i, j, pbest), a, b)
    decreases depth, 0, N - i, N - j
  {
    if i == N {
    } else if j == N {
      LoopClamp(g, depth, maximizing, i + 1, 0, best, pbest, alpha, beta, a, b);
    } else if g[i][j] != Empty {
      LoopClamp(g, depth, maximizing, i, j + 1, best, pbest, alpha, beta, a, b);
    } else {
      var h := Place(g, i, j, Mover(maximizing));
      MinimaxClamp(h, depth - 1, !maximizing, alpha, beta);
      var s := Minimax(h, depth - 1, !maximizing, alpha, beta);
      var ps := Child(g, depth, maximizing, i, j);
      if maximizing {
        ClampMaxStep(s, ps, best, pbest, a, b);
        var best', pbest' := Max(s, best), Max(ps, pbest);
        if beta <= Max(alpha, best') {
          PlainLoopMono(g, depth, maximizing, i, j + 1, pbest');
        } else {
          LoopClamp(g, depth, maximizing, i, j + 1, best', pbest', Max(alpha, best'), beta, a, b);
        }
      } else {
        ClampMinStep(s, ps, best, pbest, a, b);
        var best', pbest' := Min(s, best), Min(ps, pbest);
        if Min(beta, best') <= alpha {
          PlainLoopMono(g, depth, maximizing, i, j + 1, pbest');
        } else {
          LoopClamp(g, depth, maximizing, i, j + 1, best', pbest', alpha, Min(beta, best'), a, b);
        }
      }
    }
  }

  lemma {:induction false} PlainRange(g: Grid, depth: nat, maximizing: bool)
    requires WellFormed(g)
    ensures MinInt <= Plain(g, depth, maximizing) <= MaxInt
    decreases depth, 1, 0, 0
  {
    if depth == 0 {
      EvalBoardRange(g);
    } else {
      PlainLoopRange(g, depth, maximizing, 0, 0, Sentinel(maximizing));
    }
  }

  lemma {:induction false} PlainLoopRange(g: Grid, depth: nat, maximizing: bool, i: int, j: int, best: int)
    requires WellFormed(g) && depth >= 1 && 0 <= i <= N && 0 <= j <= N
    requires MinInt <= best <= MaxInt
    ensures MinInt <= PlainLoop(g, depth, maximizing, i, j, best) <= MaxInt
    decreases depth, 0, N - i, N - j
  {
    if i == N {
    } else if j == N {
      PlainLoopRange(g, depth, maximizing, i + 1, 0, best);
    } else if g[i][j] != Empty {
      PlainLoopRange(g, depth, maximizing, i, j + 1, best);
    } else {
      PlainRange(Place(g, i, j, Mover(maximizing)), depth - 1, !maximizing);
      var s := Child(g, depth, maximizing, i, j);
      PlainLoopRange(g, depth, maximizing, i, j + 1, if maximizing then Max(s, best) else Min(s, best));
    }
  }

  /** The pruning is exact for a call with the full window, the only
      window the move pickers use: it returns the unpruned value. */
  lemma PruningIsExact(g: Grid, depth: nat, maximizing: bool)
    requires WellFormed(g)
    ensures Minimax(g, depth, maximizing, MinInt, MaxInt) == Plain(g, depth, maximizing)
  {
    MinimaxClamp(g, depth, maximizing, MinInt, MaxInt);
    PlainRange(g, depth, maximizing);
  }

  /** With no empty cell left, a node at depth >= 1 returns its starting
      sentinel (Integer.MIN_VALUE or Integer.MAX_VALUE), not a board score. */
  lemma FullBoardSentinel(g: Grid, depth: nat, maximizing: bool, alpha: int, beta: int)
    requires WellFormed(g) && depth >= 1 && Full(g)
    ensures Minimax(g, depth, maximizing, alpha, beta) == Sentinel(maximizing)
  {
    FullLoop(g, depth, maximizing, 0, 0, Sentinel(maximizing), alpha, beta);
  }

  lemma {:induction false} FullLoop(g: Grid, depth: nat, maximizing: bool, i: int, j: int,
                                    best: int, alpha: int, beta: int)
    requires WellFormed(g) && depth >= 1 && 0 <= i <= N && 0 <= j <= N && Full(g)
    ensures SearchLoop(g, depth, maximizing, i, j, best, alpha, beta) == best
    decreases N - i, N - j
  {
    if i == N {
    } else if j == N {
      FullLoop(g, depth, maximizing, i + 1, 0, best, alpha, beta);
    } else {
      FullLoop(g, depth, maximizing, i, j + 1, best, alpha, beta);
    }
  }

  // ---------------------------------------------------------------------
  // The search on the array

  /** `minimax` on the array: each trial stone is written into the board,
      searched below and erased again, so the board is left as it was. */
  method MinimaxSearch(board: array2<Cell>, ghost g: Grid, depth: nat, isMaximizing: bool,
                       alpha: int, beta: int) returns (score: int)
    requires Mirrors(board, g)
    modifies board
    ensures Mirrors(board, g)
    ensures score == Minimax(g, depth, isMaximizing, alpha, beta)
    decreases depth
  {
    if depth == 0 {
      score := EvaluateCells(board, g);
      return;
    }
    var bestScore := Sentinel(isMaximizing);
    var a, b := alpha, beta;
    var i := 0;
    while i < N
      invariant 0 <= i <= N && Mirrors(board, g)
      invariant SearchLoop(g, depth, isMaximizing, i, 0, bestScore, a, b) == Minimax(g, depth, isMaximizing, alpha, beta)
    {
      var j := 0;
      while j < N
        invariant 0 <= j <= N && Mirrors(board, g)
        invariant SearchLoop(g, depth, isMaximizing, i, j, bestScore, a, b) == Minimax(g, depth, isMaximizing, alpha, beta)
      {
        if board[i, j] == Empty {
          var s := TryCell(board, g, depth, isMaximizing, i, j, a, b);
          if isMaximizing {
            bestScore := Max(s, bestScore);
            a := Max(a, bestScore);
          } else {
            bestScore := Min(s, bestScore);
            b := Min(b, bestScore);
          }
          if b <= a {
            break;
          }
        }
        j := j + 1;
      }
      if b <= a {
        break;
      }
      i := i + 1;
    }
    score := bestScore;
  }

  /** The trial of one empty cell: place the mover's stone, search the
      child, take the stone back. */
  method TryCell(board: array2<Cell>, ghost g: Grid, depth: nat, isMaximizing: bool,
                 i: int, j: int, alpha: int, beta: int) returns (score: int)
    requires Mirrors(board, g) && depth >= 1 && InBounds(i, j) && g[i][j] == Empty
    modifies board
    ensures Mirrors(board, g)
    ensures score == Minimax(Place(g, i, j, Mover(isMaximizing)), depth - 1, !isMaximizing, alpha, beta)
    decreases depth, 0
  {
    ghost var h := Place(g, i, j, Mover(isMaximizing));
    board[i, j] := Mover(isMaximizing);
    assert Mirrors(board, h);
    score := MinimaxSearch(board, h, depth - 1, !isMaximizing, alpha, beta);
    board[i, j] := Empty;
    assert Mirrors(board, g);
  }
}
