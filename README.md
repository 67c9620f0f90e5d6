# Bagh-Chal game engine in Dafny

This project models the rules engine of a browser Bagh-Chal game ("tigers and
goats") written as one JavaScript file, `script.js`. The game is played on a
5×5 board:

- Four tigers start in the corners.
- The goat side first places 20 goats, one per turn, and then moves them one
  step in any of eight directions.
- A tiger steps the same way, or captures by jumping over an adjacent goat
  onto the empty cell beyond it.
- The tigers win after five captures. The goats win when no tiger can move.
- One side is played by a human through cell clicks. The other side is played
  by a simple AI that picks at random.

The model has four layers, one file each:

- `board.dfy` (module `Board`): pieces, cells, positions and the constants.
  - A board is specified as a flat, row-major sequence of 25 cells (`Grid`).
  - `Count` counts pieces, with lemmas about overwriting one cell.
- `moves.dfy` (module `Moves`):
  - `getValidMoves` as the specification function `ValidMoves`, built one
    direction at a time (`TryDirection`, `MovesFrom`) in the source's
    direction order.
  - An independent, declarative definition of a legal move (`Legal`).
  - The board-wide scans of the AIs and of the win check: `AllMoves`,
    `TigerCanMove` and `EmptyCells`.
  - The proof that move generation returns exactly the legal moves
    (`ValidMovesIff`), and the matching facts about the scans.
- `rules.dfy` (module `Rules`): the game as a pure state machine over a
  `State` value: `initBoard` (`Initial`), `onCellClick` (`Click`, made of
  `GoatBlock` then `TigerBlock`), `switchTurn`, `checkWinConditions`
  (`WinReached`, `EndTurn`) and the two AIs (`TigerAI`, `GoatAI`). It also
  defines the invariant `Inv`:
  - exactly four tigers;
  - goats on the board = placed − captured;
  - captures stay below five while the game is running;
  - a selection is always one of the mover's own pieces, made by the human
    on their own turn, and never during goat placement.
- `properties.dfy` (module `Properties`): what is proved about the state
  machine.
  - The start position satisfies the invariant, and every click and every AI
    move preserves it.
  - The click handler's behaviour, phase by phase.
  - What each AI chooses.
  - The quirk where the goat block falls through into the tiger block (see
    below).
- `game.dfy` (module `BaghChal`): the program as it actually runs.
  - Class `Game` holds the board as a 5×5 `array2<Cell>`, updated in place,
    plus the global counters as fields.
  - Its methods are the source's functions, written as loops.
  - Each state-changing method is proved to perform exactly the transition of
    the matching `Rules` function. Each scan is proved to compute the
    matching `Moves` function.
  - The ghost field `cells` mirrors the array's contents, and `Wf()` ties
    the two together.

Modelling choices:

- **The random index.** The AIs' `Math.floor(Math.random() * n)` becomes a
  parameter `i` that the caller supplies. `TigerIndexOk` and `GoatIndexOk`
  require it to be smaller than the number of candidates. The tiger AI makes
  candidate `i` of its capture-preferring list; the goat AI places on the
  `i`-th empty cell, or makes the `i`-th goat move, in row-major order.
- **The 500 ms timer.** The delayed AI call becomes `Game.AIMove`. The caller
  invokes it whenever it is not the human's turn (`currentTurn !=
  playerRole`), as the source's timers do; a call after the game ended
  changes nothing.
- **Click coordinates.** `Click` takes the clicked row and column and
  requires them to be on the board. The source only creates click targets
  for the 25 cells.
- **The fall-through quirk.** In `onCellClick` the tiger block
  (script.js:249) is a separate `if`, not an `else`. After a goat moves and
  the turn passes to the tigers, control therefore enters the tiger block
  within the same click. The model keeps this structure: `Rules.Click` is
  `GoatBlock` followed by `TigerBlock`. `Properties.FallThroughIsNoOp` proves
  that this second pass never changes anything: the selection has just been
  cleared, and the clicked cell now holds a goat.
- **Goats with no move.** When the goat side cannot move, it does not lose.
  The AI makes no move, and the turn still passes (`Properties.GoatAINoMove`).

## Model

| member | source | states |
|---|---|---|
| Board.Opponent | script.js:289 | the side to move next differs from the current one |
| Board.Index | script.js:14 | every on-board (row, column) has one place in the row-major cell sequence, and that place maps back to the same position |
| Board.PosOfIndex | script.js:56-59 | converting a place in the cell sequence to (row, column) and back returns the same place |
| Moves.TryDirectionIff | script.js:161-191 | one pass of the direction loop adds exactly the legal moves in that direction: a step onto an empty neighbour, or a tiger's jump over a goat onto an empty on-board cell |
| Moves.MovesFromIff | script.js:161-192 | after the first n directions, the list holds exactly the moves that are legal in one of those directions |
| Moves.ValidMovesIff | script.js:148-194 | `getValidMoves` returns exactly the legal moves of the piece, as given by the declarative definition `Legal` |
| Moves.ValidMoveLandsOnEmpty | script.js:165-190 | every generated move starts at the piece and lands on an empty on-board cell; a capture is made only by a tiger and only over a goat |
| Moves.ValidMoveShape | script.js:151-188 | goats never capture; a step goes one cell in one of the eight directions; a jump lands two cells away and captures the cell in between |
| Moves.StepIsNotJump | script.js:176-179 | no cell is both one step and one jump away from the same origin |
| Moves.MovesUpToIff | script.js:306-315 | the row-major scan over the first n cells collects exactly the generated moves of the pieces of that kind among them |
| Moves.AllMovesIff | script.js:306-315 | the board-wide move list holds exactly the legal moves that start on a piece of that kind |
| Moves.AllMovesWellFormed | script.js:330-336 | a move from the board-wide list starts on a piece of that kind and lands on an empty cell; a capture jumps a goat and is a tiger's |
| Moves.TigerCanMoveIff | script.js:396-409 | the win check's scan finds a movable tiger exactly when the tiger move list is non-empty, that is, when some tiger has a legal move |
| Moves.EmptiesUpToIff | script.js:349-354 | the scan over the first n cells collects exactly the empty positions among them |
| Moves.EmptyCellsIff | script.js:349-354 | the goat AI's candidate list holds exactly the empty on-board cells |
| Moves.TryDirection | script.js:161-191 | one pass of the direction loop: a step onto an empty on-board neighbour, then for a tiger a jump over a goat onto an empty on-board cell; characterised by `Moves.TryDirectionIff` |
| Moves.MovesFrom | script.js:161-192 | the move list after the first n directions, in direction order; characterised by `Moves.MovesFromIff` |
| Moves.ValidMoves | script.js:148-194 | `getValidMoves`: all eight directions tried in the source's order; characterised by `Moves.ValidMovesIff` |
| Moves.LegalIn | script.js:165-190 | the reference definition of a legal step or jump in one direction, independent of the generator |
| Moves.Legal | script.js:151-190 | a move is legal when it is legal in one of the eight directions |
| Moves.AllMoves | script.js:305-315 | the moves of every piece of one kind, collected in row-major order; characterised by `Moves.AllMovesIff` |
| Moves.TigerCanMove | script.js:396-408 | some tiger has a generated move; characterised by `Moves.TigerCanMoveIff` |
| Moves.EmptyCells | script.js:349-354 | the empty cells in row-major order; characterised by `Moves.EmptyCellsIff` |
| Rules.EmptyGrid | script.js:56-59 | every cell cleared |
| Rules.TigersPlaced | script.js:76-78 | the cleared board with the first n corners written; characterised by `Properties.TigersPlacedAt` and `Properties.TigersPlacedCounts` |
| Rules.StartGrid | script.js:69-78 | the board after `initBoard`: a tiger in each corner, all else empty |
| Rules.Initial | script.js:42-78 | the state after `initBoard`: start board, no goat placed or captured, goats to move, game running, nothing selected; its properties are `Properties.InitialInv` and `Properties.InitialNotWon` |
| Rules.SwitchTurn | script.js:287-289 | the other side moves; characterised by `Properties.SwitchTurnFlips` |
| Rules.WinReached | script.js:386-416 | five captures, or no tiger can move; characterised by `Properties.WinReachedIff` |
| Rules.EndTurn | script.js:215-216 | the win check sets `gameOver`, and otherwise the turn switches; characterised by `Properties.EndTurnInv` |
| Rules.PlaceGoat | script.js:212-213 | a goat written to the cell and counted as placed |
| Rules.Relocate | script.js:238-239 | the piece written to its destination, then its origin cleared |
| Rules.ApplyTigerMove | script.js:269-274 | the tiger relocated; on a capture the jumped cell is cleared and the capture counted |
| Rules.GoatBlock | script.js:207-246 | the goat block of `onCellClick`, with the flag telling whether the handler returns; a selection stays on the board; its behaviour is stated by `Properties.ClickPlacement`, `Properties.ClickOwnPiece`, `Properties.ClickNoSelectionElsewhere`, `Properties.GoatClickLegalDestination` and `Properties.GoatBlockInv` |
| Rules.TigerBlock | script.js:248-281 | the tiger block of `onCellClick`; its behaviour is stated by `Properties.ClickOwnPiece`, `Properties.ClickNoSelectionElsewhere`, `Properties.TigerClickLegalDestination` and `Properties.TigerBlockInv` |
| Rules.Click | script.js:199-282 | `onCellClick`: ignored when the game is over or it is not the human's turn, otherwise the goat block and then the tiger block; its behaviour is stated by `Properties.ClickInv` and the `Properties.Click…` lemmas |
| Rules.TigerIndexOk | script.js:326-328 | the index chosen for the tiger AI selects one of its candidates |
| Rules.TigerAI | script.js:303-340 | `tigerAIMove` with the chosen index; its behaviour is stated by `Properties.TigerAIEffect`, `Properties.TigerAITrapped` and `Properties.TigerAIInv` |
| Rules.GoatChoiceCount | script.js:349-373 | the number of candidates of the goat AI: empty cells while placing, goat moves afterwards |
| Rules.GoatIndexOk | script.js:356-373 | the index chosen for the goat AI selects one of its candidates |
| Rules.GoatAI | script.js:345-381 | `goatAIMove` with the chosen index; its behaviour is stated by `Properties.GoatAIEffect`, `Properties.GoatAIReachesEveryCandidate`, `Properties.GoatAINoMove` and `Properties.GoatAIInv` |
| Rules.FindTo | script.js:236 | `find` returns a move of the list that lands on the clicked cell, and returns nothing exactly when no move lands there |
| Rules.Captures | script.js:323 | the filter keeps exactly the capturing moves |
| Rules.TigerChoices | script.js:322-329 | the tiger AI's candidates are tiger moves; when any capture exists they are all captures and include every capture, otherwise they are every move; there are none exactly when the tigers have no move |
| Properties.LegalDestinationUnique | script.js:236 | from one cell, at most one legal move lands on a given cell, so `find` is unambiguous |
| Properties.FindLegalDestination | script.js:235-236 | looking up the destination of a legal move finds exactly that move |
| Properties.FindNoDestination | script.js:236-237 | the lookup finds nothing exactly when no legal move lands on the clicked cell |
| Properties.InitialInv | script.js:42-78 | the position `initBoard` sets up (four corner tigers, no goats, nothing selected, goats to move) satisfies the invariant |
| Properties.InitialNotWon | script.js:69-78 | in the start position a tiger can move, so the win check does not end the game |
| Properties.CornerTigerCanMove | script.js:161-173 | a top-left tiger with an empty cell below it has a move |
| Properties.TigersPlacedAt | script.js:70-78 | after the first n corners are filled, a cell holds a tiger exactly when it is one of those corners, and is empty otherwise |
| Properties.TigersPlacedCounts | script.js:70-78 | filling the first n corners leaves n tigers and no goat |
| Properties.EndTurnInv | script.js:215-216 | ending a turn keeps the invariant; the game ends exactly when the win test holds, and the turn passes otherwise |
| Properties.PlaceGoatBoardInv | script.js:210-213 | placing a goat on an empty cell keeps the piece counts consistent with the placed count |
| Properties.GoatMoveBoardInv | script.js:237-240 | moving a goat onto an empty cell keeps the piece counts |
| Properties.TigerMoveBoardInv | script.js:268-274 | a tiger move keeps four tigers; a capture removes exactly one goat and is counted |
| Properties.FallThroughIsNoOp | script.js:235-249 | when the goat block lets control fall into the tiger block, that block changes nothing, so the click's effect is the goat block's |
| Properties.GoatBlockInv | script.js:208-246 | the goat block keeps the invariant |
| Properties.TigerBlockInv | script.js:249-281 | the tiger block keeps the invariant |
| Properties.ClickInv | script.js:199-282 | every click keeps the invariant |
| Properties.TigerAIInv | script.js:303-340 | the tiger AI's move keeps the invariant |
| Properties.GoatAIInv | script.js:345-381 | the goat AI's move keeps the invariant |
| Properties.PlacementHasEmptyCell | script.js:348-356 | while goats remain to be placed, the board has an empty cell, so the goat AI always has a placement to choose |
| Properties.ClickIgnored | script.js:201 | a click when the game is over or it is not the human's turn changes nothing |
| Properties.ClickPlacement | script.js:210-218 | a click raises the placed count by one exactly when it places a goat on an empty cell during placement, and that goat is the only change to the board; after a placement the game is over exactly when the win test holds on the new position, and otherwise the turn passes (`Properties.TurnEnds`), and the selection is kept; a placement click on an occupied cell changes nothing |
| Properties.ClickOwnPiece | script.js:220-233 | in the movement phase, clicking one of one's own pieces only selects it |
| Properties.ClickNoSelectionElsewhere | script.js:220-226 | in the movement phase with nothing selected, clicking a cell that does not hold one of the mover's pieces changes nothing (the goat block here, the tiger block at script.js:251-257) |
| Properties.ClickIllegalDestination | script.js:234-244 | with a piece selected, clicking a cell that is neither one's own piece nor a legal destination changes nothing |
| Properties.ClickLegalDestination | script.js:234-279 | clicking a legal destination makes that move: the piece arrives, its cell is emptied, a jumped goat is removed and counted, no other cell and not the placed count changes, the selection is cleared, and the game is over exactly when the win test holds on the new position, and otherwise the turn passes (`Properties.TurnEnds`) |
| Properties.GoatClickLegalDestination | script.js:235-244 | a goat's legal move by click: the goat arrives, its cell is emptied, nothing is captured, no other cell and not the placed count changes, the selection is cleared, and the game is over exactly when the win test holds on the new position, and otherwise the turn passes (`Properties.TurnEnds`) |
| Properties.TigerClickLegalDestination | script.js:266-279 | a tiger's legal move by click: the tiger arrives, its cell is emptied, a jumped goat is removed and counted, no other cell and not the placed count changes, the selection is cleared, and the game is over exactly when the win test holds on the new position, and otherwise the turn passes (`Properties.TurnEnds`) |
| Properties.ClickCaptureCount | script.js:268-274 | a click raises the capture count by exactly one when it makes a capture, and leaves it unchanged otherwise |
| Properties.WinReachedIff | script.js:386-416 | the win test holds exactly at five or more captures, or when no tiger on the board has a legal move |
| Properties.SwitchTurnFlips | script.js:287-289 | `switchTurn` swaps the side to move and changes nothing else; doing it twice restores the state |
| Properties.TigerAIEffect | script.js:316-339 | the tiger AI makes a legal tiger move, a capture whenever one exists; the tiger arrives, its cell is emptied, a jumped goat's cell is emptied, no other cell and not the placed count changes, and the capture count rises exactly on a capture; the game is over exactly when the win test holds on the new position, and otherwise the turn passes (`Properties.TurnEnds`), and the selection is kept |
| Properties.TigerAITrapped | script.js:316-321 | when no tiger can move, the tiger AI ends the game and changes nothing else |
| Properties.GoatAIEffect | script.js:345-381 | the goat AI never captures. While placing, it puts one goat on the `i`-th empty cell. Afterwards it makes the `i`-th legal goat move, and leaves the board unchanged exactly when no goat can move. Then the game is over exactly when the win test holds on the new position, and otherwise the turn passes (`Properties.TurnEnds`), and the selection is kept |
| Properties.GoatAIReachesEveryCandidate | script.js:349-377 | every empty cell (while placing) and every legal goat move (afterwards) is the goat AI's choice for some valid index, so no candidate is excluded |
| Properties.GoatAINoMove | script.js:361-381 | in the movement phase with no legal goat move, the goat AI leaves the board alone, and the turn still passes unless a win is detected |
| Properties.CornerTigerSteps | script.js:151-192 | a corner tiger with three empty neighbours has exactly its three steps, in direction order: down, right, diagonal |
| Properties.EdgeCapture | script.js:174-190 | a tiger next to a goat with an empty cell beyond it can capture that goat |
| BaghChal.NewBoard | script.js:56-59 | the new 5×5 board has every cell empty |
| BaghChal.Game.constructor | script.js:25-34 | choosing a side starts a game in the start position, with the invariant established |
| BaghChal.Game.InitBoard | script.js:42-78 | restarting gives a fresh board in the start position, keeps the human's side, and establishes the invariant |
| BaghChal.Game.Reset | script.js:44-78 | the assignments of `initBoard` produce exactly the start state for the current side |
| BaghChal.Game.PlaceTigers | script.js:69-78 | writing the four corners of a cleared board produces the start board |
| BaghChal.Game.Put | script.js:77 | writing one array cell changes exactly that cell of the board contents |
| BaghChal.Game.GetValidMoves | script.js:148-194 | the loop over the eight directions returns `ValidMoves`, that is, exactly the legal moves, in direction order |
| BaghChal.Game.TryDirection | script.js:161-191 | one loop body adds what `Moves.TryDirection` adds, reading the array |
| BaghChal.Game.CollectMoves | script.js:305-315 | the nested row/column scan returns `AllMoves` |
| BaghChal.Game.FindEmptyCells | script.js:349-354 | the nested scan returns the empty cells in row-major order |
| BaghChal.Game.AnyTigerMove | script.js:396-408 | the scan with early exit returns whether some tiger has a move |
| BaghChal.Game.CheckWin | script.js:386-416 | returns the win test on the current state; it sets `gameOver` exactly when that test holds, and changes nothing else |
| BaghChal.Game.SwitchTurn | script.js:287-289 | only the side to move changes, to the other side |
| BaghChal.Game.EndTurn | script.js:215-216 | performs the win check, then the switch unless the game ended, as `Rules.EndTurn` |
| BaghChal.Game.PlaceGoat | script.js:212-213 | writes a goat to the cell and counts it |
| BaghChal.Game.MovePiece | script.js:238-239 | writes the piece to its destination and clears its origin |
| BaghChal.Game.MoveTiger | script.js:269-274 | moves the tiger, and on a capture clears the jumped cell and counts the capture |
| BaghChal.Game.Click | script.js:199-282 | the in-place click handler performs exactly `Rules.Click` on the same board array and keeps the invariant |
| BaghChal.Game.GoatTurn | script.js:207-246 | performs exactly `Rules.GoatBlock`, including whether the handler returns or falls through |
| BaghChal.Game.TigerTurn | script.js:248-281 | performs exactly `Rules.TigerBlock` |
| BaghChal.Game.TigerAIMove | script.js:303-340 | performs exactly `Rules.TigerAI` for the chosen index and keeps the invariant |
| BaghChal.Game.GoatAIMove | script.js:345-381 | performs exactly `Rules.GoatAI` for the chosen index and keeps the invariant |
| BaghChal.Game.AIMove | script.js:293-296 | the deferred AI call runs the AI of the side to move, and keeps the invariant |

## Left out

- Rendering is not modelled: the DOM board, `updateBoardUI`, `updateInfo`, `capitalize`, the result messages, and showing or hiding the restart button and the role selector. None of these change the game state.
- The 500 ms `setTimeout` is not modelled. Instead, `Game.AIMove` is the deferred call, which a caller makes when `currentTurn != playerRole`.
- `Math.random` is not modelled. It becomes the index parameter of the AI methods, which is required to select an existing candidate.
- `parseInt` on the cell's data attributes is not modelled. Coordinates arrive as integers already on the board.
- BaghChal.Game.TigerAIMove, BaghChal.Game.GoatAIMove and BaghChal.Game.AIMove are only specified for calls made when it is not the human's turn. The source calls the AIs only from timers it schedules under that condition. A call at any other time could move the piece the human has selected, and the model does not cover that.
- The source stores pieces as the strings `'goat'` and `'tiger'`, and empty cells as `null`. These become the datatype `Cell`.
