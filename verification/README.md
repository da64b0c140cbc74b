# Gomoku core in Dafny

This is a model of the decision-making core of a two-player connect-five game on a
15 x 15 board. Black, the human, moves first. White is the AI. It covers:

- the game state (`GameCore`): placing a stone, the win and draw checks, undo, surrender,
  the AI level and the hint;
- the heuristic evaluator (`evaluatePosition`, `evaluateBoard`);
- the three AI strategies: easy (one ply), medium (minimax one reply deep) and hard
  (minimax two plies deep, with a random choice among equal-best cells);
- minimax with alpha-beta pruning.

A cell is `Empty` or `Stone(player)`, where `true` is black and `false` is white. This is
the source's `Boolean[][]` with `null` for an empty cell. `Move` (Move.java:4-13) is the
datatype `Moves.Move(x, y, player)`. `java.util.Stack<Move>` becomes the class
`Moves.MoveStack`, which holds a `seq` that its methods reassign.

The code updates state in place, and the model keeps that form:

- `Game.GameCore` is a class with the source's fields. The board is an `array2<Cell>`.
- The pickers and `minimax` place trial stones on that same array and take them back.
- Every such method is proved equal to a pure function on a grid snapshot
  (`seq<seq<Cell>>`). Those functions are:
  - `Evaluation.EvalPosition` and `Evaluation.EvalBoard`;
  - `Search.Minimax`;
  - `AI.EasyPick`, `AI.MediumPick`, `AI.HardPick` and `AI.HintPick`;
  - `Rules.CheckWinAt` and `Rules.ClearMoves`.
- The properties are proved about those functions:
  - the alpha-beta search equals plain minimax;
  - each pick is the best cell under its scoring, with the centre tie-break;
  - a win is reported exactly when five stones are in a row;
  - undo restores the board;
  - scores are bounded, swapping the colours flips them, and a win scores 100000.
- The class invariant `Valid()` says two things. The ghost grid `cells` mirrors the
  board. The move history matches the stones on the board: distinct cells, each one
  occupied, and every stone recorded.

Some behaviours of the code are easy to misread. The model keeps them as written:

- A win line collects at most four stones on each side of the new stone, because each
  scan stops after four steps. So a side holding five or more stones would be recorded
  only up to four. This cannot happen in play, because such a side would already be a
  five that ended the game.
- A run of six or more wins in `checkWin`. `evaluatePosition` counts a stone itself plus
  at most four stones on each side. So a stone in such a run whose axis count comes to 6
  to 9 gets nothing for that axis. A stone whose capped count is exactly 5, such as the
  end stone of a run of six, still scores 100000.
- On a full board at depth > 0, `minimax` returns its start value, Integer.MIN_VALUE or
  Integer.MAX_VALUE. It does not return the static evaluation (`Search.FullBoardSentinel`).
- The easy strategy and the hint start from a best score of 0. Their tie-break prefers
  any cell when no move is held yet. So they return a move whenever an empty cell exists,
  even when every cell scores 0 (`AI.EasyPickIsBest`, `AI.HintPickIsBest`).
- The 10-point "open two" branch never fires. At most two open ends are counted
  (`Evaluation.AxisTable`).
- `makeAIMove` places a stone of `currentPlayer`'s colour but pushes the move as the
  strategy tagged it, which is always white. It does not check whether the game is over.
- `undo` hands the turn to the player that the last popped move is tagged with.

## Model

| member | source | states |
|---|---|---|
| Board.Place | AILogic.java:19 | writing one cell changes that cell and no other |
| Board.PlaceUndo | AILogic.java:19-21 | writing back a cell's old content after a trial stone restores the grid exactly |
| Board.SetCell | AILogic.java:19 | the array write is followed on the grid by `Place` |
| Board.EmptyGrid | GameCore.java:34-39 | the cleared board has every cell empty |
| Moves.MoveStack.constructor | GameCore.java:21 | a new history is empty |
| Moves.MoveStack.Push | GameCore.java:66 | the move is appended on top, and nothing else changes |
| Moves.MoveStack.Pop | GameCore.java:240 | returns the top move and removes exactly it |
| Moves.MoveStack.Clear | GameCore.java:42 | the history becomes empty |
| Evaluation.Scan | AILogic.java:251-286 | a definition of one side's scan (stones matched, open end); bounded by `Evaluation.ScanBounds` and shown blind to its own cell by `Evaluation.ScanIgnoresOrigin` |
| Evaluation.EvalFrom | AILogic.java:240-319 | a definition of the direction loop with its early return of 100000; its closed form is `Evaluation.EvalClosedForm` and its range `Evaluation.EvalFromRange` |
| Evaluation.EvalPosition | AILogic.java:230-320 | a definition of `evaluatePosition`; its meaning is stated by `Evaluation.EvalClosedForm`, `Evaluation.FiveScoreIffFive`, `Evaluation.EvalRange` and `Evaluation.EvalSwap` |
| Evaluation.StoneSum | AILogic.java:212-224 | a definition of one colour's total over the cells from (i, j) on; bounded by `Evaluation.StoneSumRange` |
| Evaluation.EvalBoard | AILogic.java:207-227 | a definition of `evaluateBoard`; bounded by `Evaluation.EvalBoardRange` and negated by a colour swap (`Evaluation.EvalBoardSwap`) |
| Evaluation.ScanSide | AILogic.java:251-286 | the loop over one side of an axis returns the run of matching stones and whether an empty cell ended it, as `Scan` defines them |
| Evaluation.ScanAxis | AILogic.java:240-286 | the axis count includes the stone itself, and the open ends are summed over both sides |
| Evaluation.EvaluatePosition | AILogic.java:230-320 | the method returns `EvalPosition` of the board's contents |
| Evaluation.EvaluateAxes | AILogic.java:230-320 | the loop over the four directions computes `EvalPosition` |
| Evaluation.CellContribution | AILogic.java:214-221 | each stone adds its own colour's evaluation to that colour's total; an empty cell adds nothing |
| Evaluation.EvaluateBoard | AILogic.java:207-227 | the method returns `EvalBoard`: white's total minus black's |
| Evaluation.EvaluateCells | AILogic.java:207-227 | the nested loops sum every cell's contribution, in row-major order |
| Evaluation.ScanBounds | AILogic.java:251-286 | one side contributes at most 4 stones and at most one open end |
| Evaluation.AxisBounds | AILogic.java:245-286 | an axis count lies in 1..9 and its open ends in 0..2 |
| Evaluation.AxisTable | AILogic.java:292-316 | the axis score is 10000 for an open four, 1000 for three with 2 open ends, 100 for three with 1, and 5 for two with 2; the 10-point case is unreachable |
| Evaluation.EvalFromRange | AILogic.java:288-319 | the remaining axes add up to 100000 or to a value in 0..40000 |
| Evaluation.EvalRange | AILogic.java:230-320 | a position scores 100000 or lies in 0..40000 |
| Evaluation.EvalClosedForm | AILogic.java:240-319 | the score is 100000 when any axis counts exactly five, and otherwise the sum of the four axis scores |
| Evaluation.FiveScoreIffFive | AILogic.java:289-291 | the score is 100000 if and only if some axis counts exactly five |
| Evaluation.StepLeavesOrigin | AILogic.java:235-237 | no direction is zero, so every step leaves the cell itself |
| Evaluation.ScanIgnoresOrigin | AILogic.java:251-286 | a scan never reads the cell it starts from |
| Evaluation.EvalIgnoresOrigin | AILogic.java:230-320 | the evaluation of (x, y) does not depend on what (x, y) holds, so the trial stone does not affect it |
| Evaluation.EmptyScan | AILogic.java:251-267 | on an empty board a side finds no stones |
| Evaluation.EvalEmptyBoard | AILogic.java:230-320 | on an empty board every position scores 0 |
| Evaluation.ScanSwap | AILogic.java:256-262 | swapping every stone's colour and the owner leaves a scan unchanged |
| Evaluation.EvalSwap | AILogic.java:230-320 | the evaluation is symmetric in the two colours |
| Evaluation.StoneSumRange | AILogic.java:212-224 | the remaining cells' totals lie between 0 and 100000 per cell |
| Evaluation.EvalBoardRange | AILogic.java:207-227 | the board score lies within plus or minus 22,500,000, so the Java `int` sums cannot overflow |
| Evaluation.StoneSumEmpty | AILogic.java:212-224 | an empty board contributes nothing |
| Evaluation.EvalBoardEmpty | AILogic.java:207-227 | the empty board scores 0 |
| Evaluation.StoneSumSwap | AILogic.java:212-224 | with the colours swapped, white's total becomes black's |
| Evaluation.EvalBoardSwap | AILogic.java:207-227 | swapping the colours negates the board score |
| Search.Minimax | AILogic.java:133-204 | a definition of `minimax` with alpha-beta pruning; equal to plain minimax under the full window (`Search.PruningIsExact`) |
| Search.SearchLoop | AILogic.java:139-203 | a definition of one node's two loops, with the window narrowing and both `break`s; related to the plain loop by `Search.LoopClamp` |
| Search.Plain | AILogic.java:133-204 | an independent reference: minimax without pruning, the max or min over the children (`Search.PlainIsBestChild`) |
| Search.PlainLoopMono | AILogic.java:139-203 | the running best only rises at a maximising node and only falls at a minimising one |
| Search.PlainLoopBound | AILogic.java:139-203 | without pruning, a node's value bounds the value of every later child |
| Search.PlainLoopAttained | AILogic.java:139-203 | without pruning, a node's value is its start value or the value of some child |
| Search.PlainIsBestChild | AILogic.java:133-204 | plain minimax is the max or min over the children, or the start value when no cell is empty |
| Search.ClampMaxStep | AILogic.java:155-156 | a maximising step keeps the pruned and the plain value equal once both are clamped to the window |
| Search.ClampMinStep | AILogic.java:187-188 | the same holds for a minimising step |
| Search.MinimaxClamp | AILogic.java:133-204 | the pruned value stays in the `int` range and agrees with plain minimax inside the window (alpha, beta) |
| Search.LoopClamp | AILogic.java:139-203 | the pruned loops agree with the plain loops inside the window, including after a pruning break |
| Search.PlainRange | AILogic.java:133-204 | plain minimax stays within Integer.MIN_VALUE..Integer.MAX_VALUE |
| Search.PlainLoopRange | AILogic.java:139-203 | the plain loop stays within the `int` range |
| Search.PruningIsExact | AILogic.java:133-204 | called with the full window, as every picker calls it, alpha-beta returns exactly the plain minimax value |
| Search.FullBoardSentinel | AILogic.java:139-203 | on a full board at depth > 0 the result is Integer.MIN_VALUE at a maximising node and Integer.MAX_VALUE at a minimising one |
| Search.FullLoop | AILogic.java:143-168 | on a full board the loops leave the best score as it was |
| Search.MinimaxSearch | AILogic.java:133-204 | the recursive method returns `Minimax` and leaves the board as it found it |
| Search.TryCell | AILogic.java:145-153 | a trial stone of the side to move is placed, searched one level deeper and taken back |
| AI.ScoreOf | AILogic.java:17-90 | a definition of the trial score of each picker (both colours for easy, minimax after a white stone for medium and hard, the player's own stone for the hint); described by `AI.EasyScoreIgnoresTrialStone` and `AI.MediumScoreIsWorstReply` |
| AI.PickFrom | AILogic.java:15-38 | a definition of the scan that keeps the best cell with the centre tie-break; proved to return the best pick by `AI.PickFromCorrect` |
| AI.EasyPick | AILogic.java:11-41 | a definition of `findBestMoveEasy`; its meaning is `AI.EasyPickIsBest` |
| AI.MediumPick | AILogic.java:44-73 | a definition of `findBestMoveMedium`; its meaning is `AI.MediumPickIsBest` |
| AI.HintPick | GameCore.java:321-343 | a definition of `findBestMoveForPlayer`; its meaning is `AI.HintPickIsBest` |
| AI.HardFrom | AILogic.java:82-108 | a definition of the candidate-list loop; characterised by `AI.HardFromIsFilter` and `AI.CandidatesAreBest` |
| AI.HardPick | AILogic.java:76-117 | a definition of `findBestMoveHard` for a given draw; its meaning is `AI.HardPickIsBest` |
| AI.IsCloserToCenter | AILogic.java:120-130 | a definition: true when no move is held yet, otherwise a strictly smaller Manhattan distance to (7, 7); its meaning is stated by `AI.CloserIsStrictOrder` and `AI.CentreIsBest` |
| AI.CloserIsStrictOrder | AILogic.java:120-130 | "closer to the centre" is irreflexive, asymmetric and transitive, so the tie-break keeps the first-scanned of the nearest cells |
| AI.CentreIsBest | AILogic.java:120-130 | when all cells score the same on an empty board, the tie-break alone makes the centre cell (7, 7) the best pick |
| AI.EasyOpensAtCentre | AILogic.java:11-41 | on an empty board every easy score is 0, and the easy AI plays the centre cell |
| AI.HintOpensAtCentre | GameCore.java:321-343 | on an empty board the hint for either player is the centre cell |
| AI.EvalScoresNonNegative | AILogic.java:17-29 | easy and hint scores are never negative, so a start value of 0 excludes no cell |
| AI.LookAheadScoresInRange | AILogic.java:53-57 | look-ahead scores are at least Integer.MIN_VALUE |
| AI.EasyScoreIgnoresTrialStone | AILogic.java:17-29 | the easy score of a cell is the larger of white's and black's evaluation there |
| AI.MediumScoreIsWorstReply | AILogic.java:52-61 | the medium score of a cell is black's best reply: at most the board score after every reply, and equal to one of them unless no cell is left |
| AI.BestPickUnique | AILogic.java:32 | the preference order (score, then distance to the centre, then scan order) is total, so the best cell is unique |
| AI.PickStep | AILogic.java:17-35 | one cell of the scan keeps the invariant "the held move is the best of the cells scanned so far" |
| AI.PickFromCorrect | AILogic.java:15-38 | from any point of the scan that keeps the invariant, the result is the best empty cell, and None only on a full board |
| AI.PickIsBest | AILogic.java:11-41 | a whole scan from a start value no score falls below picks the best cell, and None only on a full board |
| AI.EasyPickIsBest | AILogic.java:11-41 | the easy move is the white move on the best empty cell under the easy score, and None only on a full board |
| AI.MediumPickIsBest | AILogic.java:44-73 | the medium move is the best empty cell under the one-reply look-ahead, and None only on a full board |
| AI.HintPickIsBest | GameCore.java:321-343 | the hint is the best empty cell for that player under its own evaluation, and None only on a full board |
| AI.MaxFromMono | AILogic.java:97-98 | the best score found never drops below the running best |
| AI.HardFromIsFilter | AILogic.java:96-105 | building the candidate list (restart on a higher score, append on an equal one) gives every cell of the final best score |
| AI.MaxFromBound | AILogic.java:82-108 | the best score bounds every later empty cell and is attained by one of them |
| AI.FilterMembers | AILogic.java:96-105 | a move is a candidate exactly when it is a white move on an empty cell of the best score |
| AI.ConsInScanOrder | AILogic.java:82-83 | prepending a cell scanned earlier keeps the list in scan order |
| AI.FilterSorted | AILogic.java:82-108 | the candidates appear in row-major scan order |
| AI.CandidatesAreBest | AILogic.java:82-108 | the list holds exactly the best-scoring empty cells, in scan order, and is empty only on a full board |
| AI.HardCandidatesAreBest | AILogic.java:82-108 | the same facts for the two-ply look-ahead scores |
| AI.ChooseAt | AILogic.java:111-114 | a draw picks a member of the list, and nothing only when the list is empty |
| AI.ChooseAtCovers | AILogic.java:112-113 | every candidate is chosen by some draw |
| AI.HardPickIsBest | AILogic.java:76-117 | whatever the draw, the hard move is a white move on an empty cell of the best two-ply score, None only on a full board, and every such cell is reachable by some draw |
| AI.EasyScore | AILogic.java:17-29 | the two trial stones are placed and taken back, and the score is the larger evaluation |
| AI.FindBestMoveEasy | AILogic.java:11-41 | the method returns `EasyPick` of the board and leaves the board as it found it |
| AI.LookAheadScore | AILogic.java:51-61 | the trial stone and move are pushed, searched and popped; the board and the history are left as they were |
| AI.FindBestMoveMedium | AILogic.java:44-73 | the method returns `MediumPick` and restores the board and the history |
| AI.FindBestMoveHard | AILogic.java:76-117 | the method returns `HardPick` for the given draw and restores the board and the history |
| Rules.RunCells | GameCore.java:176-187 | a definition of the moves one side of `checkWin` collects; described by `Rules.RunMoves`, `Rules.RunStops` and `Rules.RunReaches` |
| Rules.WinLine | GameCore.java:171-201 | a definition of the line of one axis; shaped as `Rules.WinLineShape` states, its length the axis count (`Rules.WinLineIsAxisCount`) |
| Rules.FindWin | GameCore.java:168-208 | a definition of the direction loop; described by `Rules.FindWinSome` and `Rules.FindWinFirst` |
| Rules.CheckWinAt | GameCore.java:159-211 | a definition of `checkWin`; its meaning is `Rules.CheckWinIffFive` |
| Rules.ClearMoves | GameCore.java:239-243 | the grid with the cells of the popped moves emptied; described cell by cell by `Rules.ClearMovesAt` |
| Rules.StepIsOffset | GameCore.java:176-201 | step i forward is offset +i along the axis, and step i backward is offset -i |
| Rules.RunMoves | GameCore.java:176-187 | a side collects at most 4 moves, the i-th being the p-stone i steps out |
| Rules.RunStops | GameCore.java:176-187 | a side stops before 4 stones only at a cell that is not the player's stone |
| Rules.RunReaches | GameCore.java:176-201 | a side collects at least k stones exactly when the first k cells are the player's stones |
| Rules.FiveGivesHasFive | GameCore.java:171-207 | a collected line of 5 or more means five stones in a row through (x, y) on that axis |
| Rules.HasFiveGivesFive | GameCore.java:171-207 | five in a row through (x, y) on an axis makes the collected line reach 5 |
| Rules.LongIffHasFive | GameCore.java:204 | the count test `count >= 5` holds exactly when there are five in a row through the stone |
| Rules.FindWinSome | GameCore.java:168-208 | the direction loop finds a line exactly when some remaining axis is long enough |
| Rules.FindWinFirst | GameCore.java:168-208 | the line found is the one of the first long axis |
| Rules.CheckWinIffFive | GameCore.java:159-211 | `checkWin` reports a win exactly when some axis has five in a row through (x, y), and then the line is that of the first such axis |
| Rules.WinLineShape | GameCore.java:171-201 | a line starts with the new stone, holds at most 9 moves, and every move is a stone of that player on the board |
| Rules.CollectRun | GameCore.java:175-201 | the loop over one side returns exactly the moves of `RunCells` |
| Rules.RunIsScan | GameCore.java:176-187 | `checkWin` and `evaluatePosition` agree on a side's run length |
| Rules.WinLineIsAxisCount | GameCore.java:171-201 | the line length is the count `evaluatePosition` computes on that axis |
| Rules.ClearMovesAt | GameCore.java:239-243 | after the popped moves are cleared, a cell is empty exactly when a popped move names it, and is unchanged otherwise |
| Rules.EmptyConsistent | GameCore.java:34-45 | the empty board is consistent with the empty history |
| Rules.PlaceKeepsConsistent | GameCore.java:65-66 | a stone on an empty cell, pushed with its move, keeps board and history consistent |
| Rules.UndoKeepsConsistent | GameCore.java:234-243 | popping the top K moves and clearing their cells keeps board and history consistent |
| Rules.UndoLastPlacement | GameCore.java:239-243 | undoing a single placement gives back the board before it |
| Rules.UndoRestores | GameCore.java:227-249 | clearing the moves pushed since an earlier consistent state gives back that state's board exactly |
| Game.Dispatch | GameCore.java:109-121 | a definition of the `switch`: 1 easy, 2 medium, 3 hard, anything else medium |
| Game.AIChoice | GameCore.java:107-121 | a definition of the move the level's strategy returns; its meaning is `Game.AIChoiceIsLegal` |
| Game.DifficultyName | GameCore.java:281-292 | a definition of `getDifficultyName` as written; its mismatch with `Game.Dispatch` is `Game.DifficultyLabelsInverted` |
| Game.AIChoiceIsLegal | GameCore.java:109-124 | whatever the level and the draw, the AI's move is a white move on an empty cell, and None only on a full board |
| Game.DifficultyLabelsInverted | GameCore.java:281-292 | level 1 runs the easy strategy but is named hard, and level 3 the reverse |
| Game.CorrectedDifficultyName | GameCore.java:281-292 | each level is named after the strategy that `makeAIMove` runs for it |
| Game.UndoCount | GameCore.java:235-239 | the number undone is at most the history size and 10, is 0 exactly for a non-positive request or an empty history, and is the request when that fits |
| Game.GameCore.constructor | GameCore.java:14-31 | empty board and history, black to move, game running, AI off at level 2, no line, no hint |
| Game.GameCore.InitBoard | GameCore.java:34-45 | every cell is emptied, the history cleared, black to move, game running, no line, no hint; the AI mode and level are kept |
| Game.GameCore.CheckWin | GameCore.java:159-211 | the result is `CheckWinAt`; on a win the line is recorded, otherwise it is left as it was |
| Game.GameCore.CheckDraw | GameCore.java:214-224 | the result is true exactly when no cell is empty |
| Game.GameCore.Settle | GameCore.java:69-95 | a win ends the game with its line and the same player to move; otherwise a full board ends it, and the turn passes if it does not |
| Game.GameCore.PlayAt | GameCore.java:64-95 | the current player's stone is put on the cell, its move pushed, the hint cleared and the outcome settled |
| Game.GameCore.PlaceStone | GameCore.java:48-98 | a stone is placed exactly when the cell is on the board, empty and the game is running; a refused call changes nothing |
| Game.GameCore.MakeAIMove | GameCore.java:105-156 | the level's strategy (1 easy, 2 and others medium, 3 hard) picks a move, which is played like a stone of the current player and pushed; a full board changes nothing |
| Game.GameCore.Undo | GameCore.java:227-249 | with an empty history nothing changes; otherwise the last `UndoCount` moves are popped, their cells emptied, the turn given to the last popped move's player, and the game reopened with no line or hint |
| Game.GameCore.PopMoves | GameCore.java:239-243 | the loop pops the top moves one by one and empties their cells |
| Game.GameCore.PopMove | GameCore.java:240-242 | one round pops the top move, empties its cell and gives the turn to its player |
| Game.GameCore.Surrender | GameCore.java:252-267 | afterwards the game is over |
| Game.GameCore.SetAIDifficulty | GameCore.java:270-278 | levels 1 to 3 are accepted and anything else leaves the level unchanged |
| Game.GameCore.ShowHint | GameCore.java:295-318 | with the game running and no AI turn, the hint becomes `HintPick` for the player to move (unchanged on a full board); the board is left as it was |
| Game.GameCore.HintScore | GameCore.java:327-331 | the trial stone is placed, evaluated for that player and taken back |
| Game.GameCore.FindBestMoveForPlayer | GameCore.java:321-343 | the method returns `HintPick` for that player and leaves the board as it found it |

## Left out

- The window, the dialogs (`JOptionPane`), repainting, the status panel and the `gameUI` link are out of the model. So are `Main.java` and `GomokuGameUI.java`. The messages shown by placeStone, makeAIMove, undo, surrender, setAIDifficulty and showHint are not modelled.
- The save and load of a game are out of the model. Load replaces the board and the history objects, so both are `const` fields here.
- `new Random()` in findBestMoveHard becomes a `draw` parameter. The candidate index is `draw % size`, and every candidate is reachable (`AI.ChooseAtCovers`). The uniform distribution is not modelled.
- Getters and setters other than `setAIDifficulty` are not modelled, because they only read or write a field.
- The `moveHistory` parameter of `minimax` is never used by the source and is left out. The pickers' push and pop around each trial are modelled (`AI.LookAheadScore`).
- Comparing `Boolean` objects with `==` is modelled as comparing colours. That is what the source gets, because boxing always yields the two canonical `Boolean` objects.
- Game.GameCore.CheckWin: requires a stone at (x, y). On an empty cell the source would throw a NullPointerException when it unboxes `null` at GameCore.java:173, and it is only called right after a stone is placed.
- Game.GameCore.Surrender: states only that the game ends. Nothing else changes, and the dialog naming the winner is not modelled.
- Java `int` overflow is not modelled, because it cannot happen. Positions score at most 100000 and boards at most 22,500,000 in absolute value (`Evaluation.EvalBoardRange`). Minimax stays within the `int` range (`Search.MinimaxClamp`, `Search.PlainRange`).

## Findings

| source | as written | input that shows it | evidently intended | confidence | as-written member | corrected member |
|---|---|---|---|---|---|---|
| GameCore.java:281-292 | level 1 is named 困难 (hard) and level 3 is named 简单 (easy) | `setAIDifficulty(1)` announces 困难, but `makeAIMove` then runs `findBestMoveEasy` (GameCore.java:110-111) | each level is named after its strategy: 1 简单, 2 中等, 3 困难 | high; not executed | Game.DifficultyLabelsInverted | Game.CorrectedDifficultyName |
