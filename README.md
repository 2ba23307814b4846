# Reversi game engine in Dafny

This project models the game-state engine of a console Reversi (Othello)
program: the `ReversiGame` class and the computer player
`SimpleComputer.get_move` of `reversi.py`.

- **Board and state.** The board is a square grid of cell codes: 0 for empty,
  1 for black and 2 for white. The opponent of a player is `3 - player`. The
  game also holds the player to move, a game-over flag, the winner (none yet,
  1, 2, or 0 for a draw) and a move counter.
- **Operations.** Reset to the start position, the legality test, the list of
  legal moves, playing a move with flipping, piece counting, the turn switch
  with passes, and the end-of-game decision.

The model has two layers.

- **Module `Rules`** defines the rules as pure functions over a board value
  `Grid` (a square `seq<seq<int>>`). These include:
  - the eight directions in the program's scan order;
  - a run of opponent pieces and where it ends (`RunEnd`);
  - the bracketing test (`Brackets`) and `Legal`;
  - the row-major list of legal moves (`LegalMoves`);
  - the board after a move (`AfterMove`), which flips every run bracketed on
    the pre-move board at once;
  - the board the program actually builds (`Sequential`), where each
    direction is tested and flipped on the board left by the directions
    before it;
  - piece counts, the winner code, and the start position.
- **Module `Reversi`** holds class `ReversiGame`.
  - Its board is an `array2<int>` that the methods update in place.
  - The ghost field `cells` is the same board as a `Grid`, and `Mirrors()`
    ties the two together.
  - Every method is proved against the `Rules` definitions, with loop
    invariants for each of the program's loops.

The other modules:

- `RayFacts` proves that the in-order flipping the program does equals
  flipping everything bracketed on the pre-move board. The key fact is that
  rays leaving one cell in different directions never share a cell.
- `CountFacts` proves how a move changes the piece counts, and the counts of
  the start position.
- `MoveList` proves what the list of legal moves contains and in which order.
- `SimpleComputer` models the computer player.

## Model

| member | source | states |
|---|---|---|
| Reversi.ReversiGame.constructor | reversi.py:10-13 | a new game on a size-by-size board (size >= 2) is in the start position, black to move, not over, no winner, no moves made |
| Reversi.ReversiGame.ResetGame | reversi.py:15-30 | the board is a fresh array holding the start position; black moves first, the game is not over, there is no winner and the move count is 0 |
| CountFacts.StartCounts | reversi.py:21-25 | the start position holds exactly two black and two white pieces |
| CountFacts.StartRowCount | reversi.py:21-25 | in the start position, a prefix of a row holds colour v exactly at the centre cells of v it contains |
| CountFacts.StartRowsCount | reversi.py:21-25 | in the start position, the first m rows hold colour v once per centre row among them |
| Reversi.ReversiGame.IsValidMove | reversi.py:78-102 | returns true exactly when the cell is on the board, is empty and some direction brackets a run of opponent pieces closed by the player's own piece; the state is unchanged |
| Reversi.ReversiGame.BracketsFrom | reversi.py:92-101 | the per-direction walk returns exactly the bracketing test for that direction |
| Reversi.ReversiGame.SkipRun | reversi.py:95-99 | the walk stops at the first cell along the direction that is off the board or not the opponent's |
| Rules.RunEnd | reversi.py:97-99 | the cell where a run ends does not hold the run's colour |
| RayFacts.BracketsAtRunEnd | reversi.py:93-101 | once the adjacent cell holds the opponent, bracketing is decided by whether the cell past the run holds the player's piece |
| RayFacts.NoRunNoBracket | reversi.py:93 | a direction whose adjacent cell does not hold the opponent never brackets |
| Reversi.ReversiGame.GetAllValidMoves | reversi.py:104-111 | returns the list of legal moves of the player in row-major order |
| Reversi.ReversiGame.RowValidMoves | reversi.py:108-110 | the inner loop collects the legal moves of one row from left to right |
| MoveList.RowMovesExact | reversi.py:108-110 | a row's list holds exactly the legal cells of that row left of the bound, in strictly increasing column order |
| MoveList.MovesAboveExact | reversi.py:107-110 | the list for the rows above a bound holds exactly the legal cells there, sorted in row-major order |
| MoveList.LegalMovesMembers | reversi.py:104-111 | a position is in the legal-move list exactly when it is a legal move |
| MoveList.LegalMovesSorted | reversi.py:104-111 | the legal-move list is strictly increasing in row-major order, so it has no duplicates |
| MoveList.LegalMovesEmpty | reversi.py:104-111 | the legal-move list is empty exactly when the player has no legal move |
| Reversi.ReversiGame.MakeMove | reversi.py:113-144 | returns whether the move is legal; an illegal move changes neither the board nor the move count; a legal one leaves the board equal to AfterMove of the old board and adds 1 to the move count |
| Reversi.ReversiGame.FlipBracketed | reversi.py:119-141 | placing the piece and then testing and flipping direction by direction on the current board gives AfterMove of the pre-move board |
| Reversi.ReversiGame.FlipRunFrom | reversi.py:137-141 | the flipping loop turns exactly the run of opponent pieces next to the placed cell into the player's pieces |
| Reversi.ReversiGame.PaintCell | reversi.py:119 | writing one cell changes the board value at that cell only |
| Rules.Paint | reversi.py:139 | writing one cell changes that cell and no other |
| Rules.Overwrite | reversi.py:138-141 | writing a list of cells sets exactly the listed cells and keeps all others |
| Rules.OverwriteSnoc | reversi.py:138-141 | writing one more cell at the end of the list is the same as writing it last |
| Rules.PaintingStep | reversi.py:138-141 | while the run is painted in order, the loop guard holds exactly until the run is exhausted, each step paints the next cell of the run, and at the end the whole run is painted |
| Rules.FlipRun | reversi.py:137-141 | flipping one direction turns the cells of its opponent run into the player's pieces and keeps every other cell |
| Rules.RunCellsExact | reversi.py:138-141 | the list of a run's cells holds exactly the cells on the run |
| Rules.RunCellsStep | reversi.py:138-141 | each listed cell of a run holds the run's colour and the next listed cell is one step further; the cell after the last one does not hold that colour |
| Rules.RunCellsDistinct | reversi.py:138-141 | a run visits no cell twice |
| RayFacts.AfterMoveCell | reversi.py:119-141 | after a move, the placed cell and every cell on a run bracketed on the pre-move board hold the player's piece, and every other cell keeps its value |
| RayFacts.SequentialIsAfterMove | reversi.py:126-141 | testing and flipping direction by direction on the current board gives the same board as flipping every run bracketed on the pre-move board |
| RayFacts.SequentialIsStage | reversi.py:126-141 | after the first k directions, the board the program builds equals the board with the runs bracketed on the pre-move board in those k directions flipped |
| RayFacts.SequentialStep | reversi.py:126-141 | one more direction keeps the program's board equal to the simultaneous flip |
| RayFacts.StageStep | reversi.py:126-141 | processing direction k the program's way on stage k yields stage k + 1 |
| RayFacts.StageAgreesOnRay | reversi.py:126-141 | before direction k is processed, the board still agrees with the pre-move board along that direction's ray |
| RayFacts.FlipKeepsOtherDirections | reversi.py:126-141 | flipping one direction changes neither the bracketing test nor the run of any other direction |
| RayFacts.PlaceKeepsDirections | reversi.py:119-135 | placing the piece changes no direction's bracketing test or run |
| RayFacts.BracketsFrame | reversi.py:127-135 | the bracketing test in a direction depends only on the cells of that direction's ray |
| RayFacts.InRunOnRay | reversi.py:137-141 | every flipped cell of a direction lies on that direction's ray |
| RayFacts.OnRunHolds | reversi.py:138 | every cell of a run holds the run's colour |
| CountFacts.FlippedWasOpponent | reversi.py:138-139 | every flipped cell held an opponent piece before the move |
| CountFacts.MoveFlipsSome | reversi.py:126-141 | a legal move flips at least one piece |
| CountFacts.MoveCellChanges | reversi.py:119-141 | a legal move turns only the placed empty cell and opponent pieces into the player's pieces, and the placed cell is the only empty cell that changes |
| CountFacts.MoveKeepsCellsOk | reversi.py:113-144 | a legal move leaves only empty cells and pieces on the board |
| CountFacts.MoveCounts | reversi.py:119-150 | a legal move that flips k >= 1 pieces raises the mover's count by 1 + k, lowers the opponent's count by k and adds exactly one piece to the board |
| Reversi.ReversiGame.CountPieces | reversi.py:146-150 | returns the numbers of cells holding 1 and holding 2 |
| Reversi.ReversiGame.SwitchPlayer | reversi.py:152-165 | if the opponent can move, the turn passes to the opponent; else if the player can move, the turn stays; else the turn stays, the game is over with its winner recorded, and false is returned |
| Reversi.ReversiGame.CheckGameOver | reversi.py:167-185 | returns true exactly when neither side has a legal move; then the game is over and the winner is 1 or 2 for a strictly larger count and 0 on a tie; otherwise nothing changes |
| Reversi.ReversiGame.CheckGameOverTwice | reversi.py:167-185 | a second check right after the first gives the same answer and the same state |
| SimpleComputer.GetMove | reversi.py:191-199 | returns no move exactly when the player has no legal move; otherwise a legal move, namely the one at the drawn index of the legal-move list; the game is only read |
| SimpleComputer.EveryLegalMoveCanBePicked | reversi.py:199 | every legal move sits at some index of the list the computer draws from |

## Left out

- `print_board`, the menus, `play_game` and `main` are console output, screen clearing and input parsing. They are not modelled.
- SimpleComputer.GetMove: `random.choice` is modelled as an index `pick` that the caller supplies; which index is drawn, and with what distribution, is not modelled.
- numpy is not modelled. The board is an `array2<int>`, and the counts that `np.sum` computes are plain natural numbers.
- The default board size of 8 is not fixed. The model takes any size of at least 2. For size 1, `mid - 1` is -1 and numpy wraps it, so every start piece lands on the one cell and the board is `[[2]]`; size 0 raises IndexError. Neither is a playable game, so the constructor and `ResetGame` require a size of at least 2.
- Python's arbitrary precision is matched by Dafny's unbounded `int`, so no overflow is modelled.
- The ray walks in `is_valid_move` and `make_move` are factored into helper methods (`SkipRun`, `BracketsFrom`, `FlipRunFrom`, `RowValidMoves`, `FlipBracketed`, `PaintCell`). The loops and their order of steps are the same.
- The ghost field `cells` mirrors the array for the proofs only. No operation of the program reads it.
- `HoldsAt` is the loop guard of the flipping loop, written as a predicate on the array.
