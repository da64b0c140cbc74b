/** GameCore: the state of one game and the operations the interface calls
    on it. The board and the move stack are objects updated in place; a
    ghost grid `cells` follows the board so that contracts can speak of it. */
module Game {
  import opened Board
  import opened Moves
  import opened Evaluation
  import opened Search
  import opened AI
  import opened Rules

  /** UNDO_LIMIT: at most this many moves are taken back at once. */
  const UndoLimit: int := 10

  /** The three AI strategies. */
  datatype Strategy = EasyStrategy | MediumStrategy | HardStrategy

  /** The `switch (aiDifficulty)` of `makeAIMove`: 1 easy, 2 medium,
      3 hard, anything else medium. */
  function Dispatch(difficulty: int): Strategy {
    if difficulty == 1 then EasyStrategy
    else if difficulty == 2 then MediumStrategy
    else if difficulty == 3 then HardStrategy
    else MediumStrategy
  }

  /** The move `makeAIMove` chooses on grid g; `draw` is the random number
      the hard strategy asks for. */
  function AIChoice(g: Grid, difficulty: int, draw: nat): Option<Move>
    requires WellFormed(g)
  {
    match Dispatch(difficulty)
    case EasyStrategy => EasyPick(g)
    case MediumStrategy => MediumPick(g)
    case HardStrategy => HardPick(g, draw)
  }

  /** Every strategy returns a white move on an empty cell, and returns
      nothing only on a full board. */
  lemma AIChoiceIsLegal(g: Grid, difficulty: int, draw: nat)
    requires WellFormed(g)
    ensures AIChoice(g, difficulty, draw).None? <==> Full(g)
    ensures AIChoice(g, difficulty, draw).Some? ==>
      var m := AIChoice(g, difficulty, draw).value;
      InBounds(m.x, m.y) && g[m.x][m.y] == Empty && !m.player
  {
    match Dispatch(difficulty)
    case EasyStrategy => EasyPickIsBest(g);
    case MediumStrategy => MediumPickIsBest(g);
    case HardStrategy => HardPickIsBest(g, draw);
  }

  /** `getDifficultyName` as written. */
  function DifficultyName(difficulty: int): string {
    if difficulty == 1 then "困难"
    else if difficulty == 2 then "中等"
    else if difficulty == 3 then "简单"
    else "中等"
  }

  /** The name of each strategy: easy, medium, hard. */
  function StrategyName(s: Strategy): string {
    match s
    case EasyStrategy => "简单"
    case MediumStrategy => "中等"
    case HardStrategy => "困难"
  }

  /** The labels of levels 1 and 3 are swapped: level 1 runs the easy
      strategy but is called hard, level 3 the other way round. */
  lemma DifficultyLabelsInverted()
    ensures Dispatch(1) == EasyStrategy && DifficultyName(1) == StrategyName(HardStrategy)
    ensures Dispatch(3) == HardStrategy && DifficultyName(3) == StrategyName(EasyStrategy)
    ensures DifficultyName(1) != StrategyName(Dispatch(1)) && DifficultyName(3) != StrategyName(Dispatch(3))
  {
  }

  /** The name the levels evidently should carry. */
  function CorrectedDifficultyName(difficulty: int): (r: string)
    ensures r == StrategyName(Dispatch(difficulty))
  {
    if difficulty == 1 then "简单"
    else if difficulty == 3 then "困难"
    else "中等"
  }

  /** How many moves `undo(steps)` takes back from a history of `size`:
      `Math.min(Math.min(steps, size), UNDO_LIMIT)`, and none when that is
      negative, since the loop then does not run. */
  function UndoCount(steps: int, size: nat): (k: nat)
    ensures k <= size && k <= UndoLimit
    ensures k == 0 <==> steps <= 0 || size == 0
    ensures 0 < k ==> k == steps || k == size || k == UndoLimit
    ensures 0 <= steps <= size && steps <= UndoLimit ==> k == steps
  {
    var s := Min(Min(steps, size), UndoLimit);
    if s < 0 then 0 else s
  }

  class GameCore {
    /** `board`: the 15 x 15 cells. */
    const board: array2<Cell>
    /** `moveHistory`: every stone on the board, the last one on top. */
    const moveHistory: MoveStack
    /** `currentPlayer`: true when black is to move. */
    var currentPlayer: bool
    var gameOver: bool
    var aiMode: bool
    /** `aiDifficulty`: 1 to 3 through `setAIDifficulty`. */
    var aiDifficulty: int
    /** The line of the last win that `checkWin` found. */
    var winningMoves: seq<Move>
    var hintMove: Option<Move>
    /** The board's contents as a grid. */
    ghost var cells: Grid

    /** The board is followed by `cells`, which is consistent with the
        history. */
    ghost predicate Valid()
      reads this, board, moveHistory
    {
      Mirrors(board, cells) && Consistent(cells, moveHistory.elems)
    }

    /** The field initialisers: an empty board, black to move, medium AI. */
    constructor ()
      ensures Valid() && fresh(board) && fresh(moveHistory)
      ensures cells == EmptyGrid() && moveHistory.elems == []
      ensures currentPlayer && !gameOver && !aiMode && aiDifficulty == 2
      ensures winningMoves == [] && hintMove == None
    {
      board := new Cell[N, N]((i, j) => Empty);
      moveHistory := new MoveStack();
      currentPlayer := true;
      gameOver := false;
      aiMode := false;
      aiDifficulty := 2;
      winningMoves := [];
      hintMove := None;
      cells := EmptyGrid();
      EmptyConsistent();
    }

    /** `initBoard`: every cell emptied and the game restarted; the AI mode
        and difficulty are kept. */
    method InitBoard()
      requires Valid()
      modifies this, board, moveHistory
      ensures Valid()
      ensures cells == EmptyGrid() && moveHistory.elems == []
      ensures currentPlayer && !gameOver && winningMoves == [] && hintMove == None
      ensures aiMode == old(aiMode) && aiDifficulty == old(aiDifficulty)
    {
      for i := 0 to N
        modifies board
        invariant forall a, b :: 0 <= a < i && 0 <= b < N ==> board[a, b] == Empty
      {
        for j := 0 to N
          modifies board
          invariant forall a, b :: 0 <= a < i && 0 <= b < N ==> board[a, b] == Empty
          invariant forall b :: 0 <= b < j ==> board[i, b] == Empty
        {
          board[i, j] := Empty;
        }
      }
      cells := EmptyGrid();
      currentPlayer := true;
      gameOver := false;
      moveHistory.Clear();
      winningMoves := [];
      hintMove := None;
      EmptyConsistent();
    }

    /** `checkWin(x, y)` on the stone at (x, y): whether it completes five
        in a row, recording the line when it does. */
    method CheckWin(x: int, y: int) returns (won: bool)
      requires Valid() && InBounds(x, y) && cells[x][y] != Empty
      modifies this`winningMoves
      ensures won == CheckWinAt(cells, x, y).Some?
      ensures won ==> winningMoves == CheckWinAt(cells, x, y).value
      ensures !won ==> winningMoves == old(winningMoves)
    {
      var player := board[x, y].player;
      for d := 0 to 4
        invariant FindWin(cells, x, y, player, d) == CheckWinAt(cells, x, y)
        invariant winningMoves == old(winningMoves)
      {
        var forwardMoves := CollectRun(board, cells, x, y, d, true, player);
        var backwardMoves := CollectRun(board, cells, x, y, d, false, player);
        var count := 1 + |forwardMoves| + |backwardMoves|;
        var currentMoves := [Move(x, y, player)] + forwardMoves + backwardMoves;
        if count >= 5 {
          winningMoves := currentMoves;
          return true;
        }
      }
      return false;
    }

    /** `checkDraw`: whether no empty cell is left. */
    method CheckDraw() returns (draw: bool)
      requires Valid()
      ensures draw == Full(cells)
    {
      for i := 0 to N
        invariant forall a, b :: 0 <= a < i && 0 <= b < N ==> cells[a][b] != Empty
      {
        for j := 0 to N
          invariant forall a, b :: 0 <= a < i && 0 <= b < N ==> cells[a][b] != Empty
          invariant forall b :: 0 <= b < j ==> cells[i][b] != Empty
        {
          if board[i, j] == Empty {
            return false;
          }
        }
      }
      return true;
    }

    /** The outcome of a stone at (x, y) placed by `player0`: a win ends
        the game with its line recorded and the same player to move;
        otherwise a full board ends it, and the turn passes if it does not. */
    ghost predicate Settled(x: int, y: int, player0: bool, over0: bool, winning0: seq<Move>)
      requires WellFormed(cells) && InBounds(x, y) && cells[x][y] != Empty
      reads this
    {
      var w := CheckWinAt(cells, x, y);
      (w.Some? ==> gameOver && winningMoves == w.value && currentPlayer == player0) &&
      (w.None? ==> winningMoves == winning0 && gameOver == (over0 || Full(cells)) &&
                   currentPlayer == (if Full(cells) then player0 else !player0))
    }

    /** The state after a stone of colour `player0` is put on the empty
        cell of m: the hint is cleared and the outcome settled. */
    ghost predicate Played(g0: Grid, player0: bool, over0: bool, winning0: seq<Move>, m: Move)
      requires WellFormed(g0) && InBounds(m.x, m.y)
      reads this
    {
      cells == Place(g0, m.x, m.y, Stone(player0)) && hintMove == None &&
      Settled(m.x, m.y, player0, over0, winning0)
    }

    /** The checks after a stone is placed at (x, y): win, then draw, then
        the change of turn. */
    method Settle(x: int, y: int)
      requires Valid() && InBounds(x, y) && cells[x][y] == Stone(currentPlayer)
      modifies this`gameOver, this`winningMoves, this`currentPlayer
      ensures Valid()
      ensures Settled(x, y, old(currentPlayer), old(gameOver), old(winningMoves))
    {
      var won := CheckWin(x, y);
      if won {
        gameOver := true;
        return;
      }
      var draw := CheckDraw();
      if draw {
        gameOver := true;
        return;
      }
      currentPlayer := !currentPlayer;
    }

    /** Puts a stone of the current player on the empty cell (x, y), pushes
        the move, and runs the win and draw checks. */
    method PlayAt(x: int, y: int, m: Move)
      requires Valid() && InBounds(x, y) && cells[x][y] == Empty && m.x == x && m.y == y
      modifies this, board, moveHistory
      ensures Valid()
      ensures moveHistory.elems == old(moveHistory.elems) + [m]
      ensures Played(old(cells), old(currentPlayer), old(gameOver), old(winningMoves), m)
      ensures aiMode == old(aiMode) && aiDifficulty == old(aiDifficulty)
    {
      PlaceKeepsConsistent(cells, moveHistory.elems, x, y, Stone(currentPlayer), m);
      SetCell(board, cells, x, y, Stone(currentPlayer));
      cells := Place(cells, x, y, Stone(currentPlayer));
      moveHistory.Push(m);
      hintMove := None;
      Settle(x, y);
    }

    /** `placeStone(x, y)`: refused off the board, on an occupied cell and
        after the game is over; otherwise the current player's stone is
        played there with a move tagged with that player. */
    method PlaceStone(x: int, y: int) returns (placed: bool)
      requires Valid()
      modifies this, board, moveHistory
      ensures Valid()
      ensures placed <==> InBounds(x, y) && old(cells)[x][y] == Empty && !old(gameOver)
      ensures !placed ==>
        cells == old(cells) && moveHistory.elems == old(moveHistory.elems) &&
        currentPlayer == old(currentPlayer) && gameOver == old(gameOver) &&
        winningMoves == old(winningMoves) && hintMove == old(hintMove)
      ensures placed ==>
        var m := Move(x, y, old(currentPlayer));
        moveHistory.elems == old(moveHistory.elems) + [m] &&
        Played(old(cells), old(currentPlayer), old(gameOver), old(winningMoves), m)
      ensures aiMode == old(aiMode) && aiDifficulty == old(aiDifficulty)
    {
      if x < 0 || x >= N || y < 0 || y >= N {
        return false;
      }
      if board[x, y] != Empty {
        return false;
      }
      if gameOver {
        return false;
      }
      PlayAt(x, y, Move(x, y, currentPlayer));
      return true;
    }

    /** `makeAIMove`, with the random number for the hard level passed in:
        the level's strategy picks a move, which is played with the current
        player's colour but pushed as the strategy tagged it (white). A
        full board leaves everything as it was. The game being over is not
        checked. */
    method MakeAIMove(draw: nat)
      requires Valid()
      modifies this, board, moveHistory
      ensures Valid()
      ensures var choice := AIChoice(old(cells), old(aiDifficulty), draw);
        (choice.None? ==>
          cells == old(cells) && moveHistory.elems == old(moveHistory.elems) &&
          currentPlayer == old(currentPlayer) && gameOver == old(gameOver) &&
          winningMoves == old(winningMoves) && hintMove == old(hintMove)) &&
        (choice.Some? ==>
          InBounds(choice.value.x, choice.value.y) &&
          moveHistory.elems == old(moveHistory.elems) + [choice.value] &&
          Played(old(cells), old(currentPlayer), old(gameOver), old(winningMoves), choice.value))
      ensures aiMode == old(aiMode) && aiDifficulty == old(aiDifficulty)
    {
      var bestMove: Option<Move>;
      if aiDifficulty == 1 {
        bestMove := FindBestMoveEasy(board, cells);
      } else if aiDifficulty == 2 {
        bestMove := FindBestMoveMedium(board, cells, moveHistory);
      } else if aiDifficulty == 3 {
        bestMove := FindBestMoveHard(board, cells, moveHistory, draw);
      } else {
        bestMove := FindBestMoveMedium(board, cells, moveHistory);
      }
      AIChoiceIsLegal(cells, aiDifficulty, draw);
      if bestMove.Some? {
        var m := bestMove.value;
        PlayAt(m.x, m.y, m);
      }
    }

    /** `undo(steps)`: with an empty history nothing happens; otherwise the
        last UndoCount(steps, size) moves are popped, their cells emptied,
        the turn handed to the player the last popped move is tagged with,
        and the game reopened. */
    method Undo(steps: int)
      requires Valid()
      modifies this, board, moveHistory
      ensures Valid()
      ensures old(moveHistory.elems) == [] ==>
        cells == old(cells) && moveHistory.elems == [] &&
        currentPlayer == old(currentPlayer) && gameOver == old(gameOver) &&
        winningMoves == old(winningMoves) && hintMove == old(hintMove)
      ensures old(moveHistory.elems) != [] ==>
        var h := old(moveHistory.elems);
        var K := UndoCount(steps, |h|);
        AllInBounds(h[|h| - K..]) &&
        moveHistory.elems == h[..|h| - K] &&
        cells == ClearMoves(old(cells), h[|h| - K..]) &&
        currentPlayer == (if K == 0 then old(currentPlayer) else h[|h| - K].player) &&
        !gameOver && winningMoves == [] && hintMove == None
      ensures aiMode == old(aiMode) && aiDifficulty == old(aiDifficulty)
    {
      if moveHistory.IsEmpty() {
        return;
      }
      var k := Min(steps, moveHistory.Size());
      k := Min(k, UndoLimit);
      ghost var h0, g0 := moveHistory.elems, cells;
      ghost var K := UndoCount(steps, |h0|);
      assert K == if k < 0 then 0 else k;
      UndoKeepsConsistent(g0, h0, K);
      assert AllInBounds(h0);
      PopMoves(k);
      assert cells == ClearMoves(g0, h0[|h0| - K..]) && moveHistory.elems == h0[..|h0| - K];
      gameOver := false;
      winningMoves := [];
      hintMove := None;
    }

    /** The loop of `undo`: the top max(k, 0) moves popped one by one. */
    method PopMoves(k: int)
      requires Mirrors(board, cells) && AllInBounds(moveHistory.elems) && k <= |moveHistory.elems|
      modifies this`cells, this`currentPlayer, board, moveHistory
      ensures var h := old(moveHistory.elems);
        var K := if k < 0 then 0 else k;
        AllInBounds(h[|h| - K..]) && Mirrors(board, cells) &&
        moveHistory.elems == h[..|h| - K] && cells == ClearMoves(old(cells), h[|h| - K..]) &&
        currentPlayer == (if K == 0 then old(currentPlayer) else h[|h| - K].player)
    {
      ghost var h0, g0 := moveHistory.elems, cells;
      ghost var popped: seq<Move> := [];
      var i := 0;
      while i < k
        invariant 0 <= i <= (if k < 0 then 0 else k) && |popped| == i
        invariant h0 == moveHistory.elems + popped
        invariant AllInBounds(moveHistory.elems) && AllInBounds(popped)
        invariant Mirrors(board, cells) && cells == ClearMoves(g0, popped)
        invariant currentPlayer == if i == 0 then old(currentPlayer) else popped[0].player
      {
        ghost var h := moveHistory.elems;
        PopMove();
        ghost var m := h[|h| - 1];
        assert h == moveHistory.elems + [m];
        assert ([m] + popped)[1..] == popped;
        popped := [m] + popped;
        i := i + 1;
      }
      assert popped == h0[|h0| - i..] && moveHistory.elems == h0[..|h0| - i];
    }

    /** One round of the loop of `undo`: the top move is popped, its cell
        emptied, and its player put to move. */
    method PopMove()
      requires Mirrors(board, cells) && moveHistory.elems != [] && AllInBounds(moveHistory.elems)
      modifies this`cells, this`currentPlayer, board, moveHistory
      ensures var h := old(moveHistory.elems);
        var m := h[|h| - 1];
        moveHistory.elems == h[..|h| - 1] && currentPlayer == m.player &&
        cells == Place(old(cells), m.x, m.y, Empty) && Mirrors(board, cells)
    {
      var move := moveHistory.Pop();
      assert InBounds(move.x, move.y);
      SetCell(board, cells, move.x, move.y, Empty);
      cells := Place(cells, move.x, move.y, Empty);
      currentPlayer := move.player;
    }

    /** `surrender`: ends the game (already over: nothing changes). */
    method Surrender()
      modifies this`gameOver
      ensures gameOver
    {
      if gameOver {
        return;
      }
      gameOver := true;
    }

    /** `setAIDifficulty`: only 1, 2 and 3 are accepted. */
    method SetAIDifficulty(difficulty: int)
      requires Valid()
      modifies this`aiDifficulty
      ensures Valid()
      ensures aiDifficulty == if 1 <= difficulty <= 3 then difficulty else old(aiDifficulty)
    {
      if difficulty < 1 || difficulty > 3 {
        return;
      }
      aiDifficulty := difficulty;
    }

    /** `showHint`: when the game is running and it is not the AI's turn,
        the best cell for the player to move becomes the hint (a full
        board keeps the old hint). The board is left as it was. */
    method ShowHint()
      requires Valid()
      modifies this`hintMove, board
      ensures Valid()
      ensures if gameOver || (aiMode && !currentPlayer) then hintMove == old(hintMove)
              else var pick := HintPick(cells, currentPlayer);
                   hintMove == if pick.Some? then pick else old(hintMove)
    {
      if gameOver {
        return;
      }
      if aiMode && !currentPlayer {
        return;
      }
      var bestMove: Option<Move>;
      if currentPlayer {
        bestMove := FindBestMoveForPlayer(true);
      } else {
        bestMove := FindBestMoveForPlayer(false);
      }
      if bestMove.Some? {
        hintMove := bestMove;
      }
    }

    /** The trial stone of `findBestMoveForPlayer` on the empty cell (i, j). */
    method HintScore(i: int, j: int, isPlayer: bool) returns (score: int)
      requires Valid() && InBounds(i, j) && cells[i][j] == Empty
      modifies board
      ensures Valid()
      ensures score == ScoreOf(cells, HintScoring(isPlayer), i, j)
    {
      ghost var trial := Place(cells, i, j, Stone(isPlayer));
      SetCell(board, cells, i, j, Stone(isPlayer));
      score := EvaluateAxes(board, trial, i, j, isPlayer);
      SetCell(board, trial, i, j, Empty);
      PlaceUndo(cells, i, j, Stone(isPlayer));
    }

    /** `findBestMoveForPlayer(isPlayer)`: the best cell for that player,
        scored by its own `evaluatePosition` there. */
    method FindBestMoveForPlayer(isPlayer: bool) returns (bestMove: Option<Move>)
      requires Valid()
      modifies board
      ensures Valid()
      ensures bestMove == HintPick(cells, isPlayer)
    {
      ghost var t := Scores(cells, HintScoring(isPlayer));
      bestMove := None;
      var bestScore := 0;
      for i := 0 to N
        invariant Valid()
        invariant PickFrom(cells, t, isPlayer, i, 0, bestScore, bestMove) == HintPick(cells, isPlayer)
      {
        for j := 0 to N
          invariant Valid()
          invariant PickFrom(cells, t, isPlayer, i, j, bestScore, bestMove) == HintPick(cells, isPlayer)
        {
          if board[i, j] == Empty {
            var score := HintScore(i, j, isPlayer);
            if score > bestScore || (score == bestScore && IsCloserToCenter(i, j, bestMove)) {
              bestScore := score;
              bestMove := Some(Move(i, j, isPlayer));
            }
          }
        }
      }
    }
  }
}
