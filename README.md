# Kaizo Trap: rules engine and alpha-beta search

A Dafny model of the core of `KaizoTrap.cpp`, a two-player game on a 7×7
board. The human plays X-wings `x` and TIE fighters `t` and defends its
objective `@` between the walls `+`. The computer plays `X` and `T` and
defends `*` between the walls `~`. Walls never move. The modelled core is:

- the legality engine (`legalXWing`, `legalTieFighter`, `validateInput`);
- the move generators (`findHumanMoves`, `findComputerMoves`);
- make and undo (`movePiece`, `checkPieceRemoved`, `resetPiecePosition`);
- the evaluation (`evaluate`, `doubleCaptureIndicators`);
- the small queries over the global lists (`checkGameOver`, `checkNoMoves`,
  `checkListOfMoves`, `checkListOfHorizontalMoves`);
- the search (`maxMove`, `minMove`, `makeAMove`);
- the initial position (`setup`).

The program keeps its state in global arrays. The model keeps them as array
fields of one object, `GameState.State`:

| source global | model field | size |
|---|---|---|
| `boardarray` | `board` | 49 |
| `piecepositions` | `pos` | 32 |
| `capturedpieces` | `captured` | 16 |
| `listoflegalmoves` | `moves` | `LISTSIZE * MAXDEPTH` |
| `movenum` | `moveCount` | `COUNTERS` |
| `listofhorizontaltiemoves` | `lateralMoves` | `LATERALSIZE * MAXDEPTH` |
| `horizontalmovenum` | `lateralCount` | `COUNTERS` |
| `movestack` | `moveStack` | `6 * MAXDEPTH` |

It also holds the scalars `captureIndicator`, `lateralHuman`
(`horizontalhuman`) and `lateralComputer` (`horizontalcomputer`).

Each C function of the core becomes a method taking that object. Each
method is proved against a function of the state it starts from.

**Legality** (modules `LegalitySpec` and `Legality`):

- A request is walked square by square along a ray: diagonal, along the row
  or along the column.
- `Walk` gives the return code and the moves the C loops append.
- `LegalXWing`, `LegalTieFighter` and `ValidateInput` are proved to append
  exactly those moves to the move list of their depth, and the lateral
  offsets to the lateral list.
- `LegalTieFighter` takes a request along a row or a column, as every call
  in the program makes. Its only caller is `validateInput`
  (KaizoTrap.cpp:1077), which only the generators call, and their TIE
  requests are straight (KaizoTrap.cpp:1203-1206 and 1281-1284). The source
  relies on this too: its own test for a diagonal TIE request is commented
  out (KaizoTrap.cpp:795-801). `GenerationSpec.CallOk` states it for every
  generated call.

**Generation** (modules `GenerationSpec` and `Generation`):

- `Generate` is the sequence of calls to `validateInput` that the two
  generators make, folded over the lists.
- `FindHumanMoves` and `FindComputerMoves` are proved to leave the lists as
  `Generate` says.
- The lemmas show that every generated move is an admissible move of a unit
  in play, that the lateral list names exactly the moves along a row, that
  an enemy objective is only ever reached from the designated squares, and
  that `LISTSIZE` and `LATERALSIZE` are never exceeded.

**Make and undo** (modules `ExecutionSpec` and `Execution`):

- `Apply` is `movePiece` with `checkPieceRemoved`. The victim is the unit at
  the destination, found by the same 4×4 scan.
- `Undo` is `resetPiecePosition`.
- `ApplyUndo` proves that undo restores the grid, the positions and the
  capture table exactly.
- `ApplyConsistent` proves that making a move keeps the grid consistent
  with the position and capture tables.

**Search** (modules `GameTree`, `SearchSpec` and `Search`):

- `MaxTree` and `MinTree` are the trees `maxMove` and `minMove` explore.
  This includes the horizon, the terminal scores
  `BELOWWORST + 1 + d` and `ABOVEBEST - (1 + d)`, and the lateral flags each
  level passes down.
- `MaxMove`, `MinMove` and `MakeAMove` are proved to return the alpha-beta
  values `MaxAB`/`MinAB` of those trees. They also restore the position, the
  flags and the lists of the levels above.
- Every value `maxMove` and `minMove` return lies strictly between
  `BELOWWORST` and `ABOVEBEST`, whatever the window (`MaxABRange`,
  `MinABRange`).
- `GameTree` proves that alpha-beta agrees with plain minimax inside the
  window, and is exact when the window is wide. It also proves that
  `makeAMove` plays the first move of greatest minimax value.

**Move hints** (module `Hints`):

- `makeAMove` marks every empty destination of the moves it lists with the
  hint `o` (`showListOfMoves` at KaizoTrap.cpp:1615, through
  `showNewMovesOnBoard`). Nothing wipes the hints again, because the calls
  of `cleanBoard` are commented out.
- `Erased` is `cleanBoard`. The lemmas prove that the walkers,
  `validateInput`, both generators and the end-of-game test read a hinted
  grid exactly as the wiped one.

**Evaluation and the counters** (modules `Evaluation` and `Counters`):

- `Score` is `evaluate`.
- `DoubleAll` is `doubleCaptureIndicators`, proved to keep the score and
  every captured/not-captured mark.
- `Counters` states what clearing the per-depth counters does to tables of
  the declared and of the corrected size (see Findings).

The model follows the code where its own comments describe something
different. In particular:

- A computer TIE fighter that reaches the human objective `@` along a column
  records the move but returns 1 (KaizoTrap.cpp:967-978).
- `maxMove` passes its own entry `horizontalcomputer` down as
  `horizontalhuman` (KaizoTrap.cpp:1430-1434).
- `maxMove` and `minMove` look up the lateral list with index
  `movecounter % (LISTSIZE*curdepth)` and a loop that starts at
  `24*curdepth`. Below the root this lookup never reports a lateral move,
  and the model keeps that.
- `makeAMove` sets `horizontalcomputer` to 2 for a lateral TIE move without
  the `horizontalcomputer != 1` test that its reset has
  (KaizoTrap.cpp:1650 and 1670).
- Undo does not decrement `captureindicator`.

## Model

| member | source | states |
|---|---|---|
| GameState.State.constructor | KaizoTrap.cpp:465-586 | setup's grid, unit positions, empty capture table, capture indicator 1 and cleared lateral flags, and that this position is well formed |
| GameState.InitialWellformed | KaizoTrap.cpp:465-586 | the initial grid, position table and capture table agree: every unit stands on a cell holding its marker, no two units share a cell, every cell holds a legal marker |
| GameState.InitialCellsOk | KaizoTrap.cpp:465-586 | every cell of the initial grid is empty, a unit, a wall or the objective of its own cell, and every unit marker belongs to the unit placed there |
| GameState.InitialUnits | KaizoTrap.cpp:484-576 | each of the 16 units starts on the board at the cell of its row of the position table, on its own marker |
| Board.FlattenAt | KaizoTrap.cpp:1459-1471 | entry k of a move list occupies the five integers 5k..5k+4 as (ox, oy, nx, ny, piece) |
| Evaluation.ScoreDoubled | KaizoTrap.cpp:1886-1896 | doubling the capture orders changes neither the score evaluate computes nor which units are captured |
| Evaluation.DoubledCases | KaizoTrap.cpp:1886-1896 | an order is kept at 0, a small order 1..15 is multiplied by 16, and a large order is kept; the result is 0 exactly when the order was 0 |
| Queries.Evaluate | KaizoTrap.cpp:204-220 | the score is the number of captured human units minus twice the number of captured computer units, and lies in -16..8 |
| Queries.CheckGameOver | KaizoTrap.cpp:1088-1104 | returns 1 exactly when one of the two objectives is no longer on its cell, else 0 |
| Queries.CheckNoMoves | KaizoTrap.cpp:1106-1125 | returns 1 exactly when the move list of the depth is empty |
| Queries.CheckListOfMoves | KaizoTrap.cpp:1295-1319 | finds the first depth-0 entry whose four coordinates equal the requested move and returns its piece and offset, or -1 when no entry matches |
| Queries.CheckListOfHorizontalMoves | KaizoTrap.cpp:1321-1335 | returns 1 exactly when the number occurs between 24*depth and the depth's count; at depth 0 this is membership in the lateral list, and below the root, with a count of at most 24, it is always 0 |
| Queries.DoubleCaptureIndicators | KaizoTrap.cpp:1886-1896 | the capture table becomes DoubleAll of the old one |
| LegalitySpec.XWingRecordsDiagonal | KaizoTrap.cpp:611-772 | an X-wing request that is not diagonal records nothing and returns 1; every recorded move is a diagonal step of the requested unit onto a board square holding no own unit or objective |
| LegalitySpec.TieRecordsStraight | KaizoTrap.cpp:774-1054 | every recorded TIE move stays on the row or column of the request; the move is lateral exactly when it is along the row and the side's lateral flag is clear; while the flag is set a row request records nothing and returns 1 |
| LegalitySpec.ValidateCases | KaizoTrap.cpp:1056-1086 | a null move, a wall destination or a mover that is no unit returns 1 and records nothing; code 0 means at least one move was recorded; no recorded move lands on a wall |
| LegalitySpec.ValidateObjective | KaizoTrap.cpp:698-727 | a move onto the enemy objective short of the requested destination is recorded only from the designated origin squares |
| LegalitySpec.FirstEnemyIsTaken | KaizoTrap.cpp:681-697 | the first enemy unit on the ray ends the walk with code 0, its capture recorded as the last move |
| LegalitySpec.BlockerStops | KaizoTrap.cpp:664-697 | a blocking square short of the destination, reached over empty squares, ends the walk with code 1, and nothing at or beyond it is recorded |
| LegalitySpec.BlockingSquares | KaizoTrap.cpp:664-733 | walls and own units block every ray; the enemy objective blocks a lateral ray, and is passable only from the designated origins |
| LegalitySpec.BackwardRecordsCapture | KaizoTrap.cpp:736-755 | a backward step records only a capture of an enemy unit or of the enemy objective |
| LegalitySpec.ObjectiveOnTheWay | KaizoTrap.cpp:698-727 | a recorded move onto the enemy objective before the end of the ray starts from the designated row and columns |
| LegalitySpec.WalkTargets | KaizoTrap.cpp:659-733 | every move the walk records is the unit's own move from its origin to a square 1..n steps along the ray, on the board, not on an own marker |
| LegalitySpec.WalkCount | KaizoTrap.cpp:659-770 | a walk of n squares records at most n moves, and a backward walk at most one |
| Legality.LegalXWing | KaizoTrap.cpp:611-772 | returns XWingSpec's code and appends exactly XWingSpec's moves to the depth's move list |
| Legality.LegalTieFighter | KaizoTrap.cpp:774-1054 | returns TieSpec's code and appends exactly TieSpec's moves to the move list, and to the lateral list when the move is along the row |
| Legality.ValidateInput | KaizoTrap.cpp:1056-1086 | returns ValidateSpec's code and appends exactly ValidateSpec's moves and lateral offsets |
| Legality.WalkRay | KaizoTrap.cpp:659-733 | the loop over the squares of a ray returns Walk's code and appends Walk's moves |
| GenerationSpec.GenerateFits | KaizoTrap.cpp:95-108 | a generated list never holds more than LISTSIZE integers, and its lateral list never more than LATERALSIZE entries |
| GenerationSpec.XWingCallsBound | KaizoTrap.cpp:1151-1198 | the four diagonal requests of one X-wing record at most 8 moves and none lateral |
| GenerationSpec.TieCallsBound | KaizoTrap.cpp:1200-1207 | the four straight requests of one TIE fighter record at most 13 moves, at most 6 of them lateral |
| GenerationSpec.EvalBound | KaizoTrap.cpp:1056-1086 | a request records at most as many moves as squares it spans, a backward one at most 1, a non-unit none; only TIE row moves are lateral |
| GenerationSpec.GenerateSound | KaizoTrap.cpp:1127-1292 | every generated move is an admissible move of a unit in play of the side to move, and the lateral list names exactly the row moves |
| GenerationSpec.GenerateObjective | KaizoTrap.cpp:1127-1292 | a generated move onto the enemy objective always starts from a designated origin |
| GenerationSpec.RunSizes | KaizoTrap.cpp:1127-1292 | the lists grow by exactly the moves and lateral moves the requests record |
| Generation.FindHumanMoves | KaizoTrap.cpp:1127-1217 | leaves the depth's move list, lateral list and both counts as Generate says for the human side |
| Generation.FindComputerMoves | KaizoTrap.cpp:1219-1292 | leaves the depth's lists and counts as Generate says for the computer side |
| Generation.XWingMoves | KaizoTrap.cpp:1151-1198 | submits the four diagonal requests to the edge of the board in order |
| Generation.TieMoves | KaizoTrap.cpp:1200-1207 | submits the four straight requests to the edge of the board in order |
| ExecutionSpec.VictimExact | KaizoTrap.cpp:1822-1884 | the scan finds NOCAPTURE exactly when no unit in play other than the mover stands on the destination, and otherwise such a unit |
| ExecutionSpec.VictimMarker | KaizoTrap.cpp:1773-1884 | the victim is a unit in play on the destination, other than the mover, and the marker undo revives is the destination's former marker |
| ExecutionSpec.ApplyUndo | KaizoTrap.cpp:1749-1820 | undoing a made move with the recorded origin marker and victim restores grid, positions and capture table exactly; the capture indicator advances only on a capture |
| ExecutionSpec.ApplyConsistent | KaizoTrap.cpp:1749-1884 | a made move keeps the grid consistent with the position and capture tables |
| ExecutionSpec.UndoBoard | KaizoTrap.cpp:1773-1820 | undo restores the grid, including both objective cells |
| ExecutionSpec.UndoTables | KaizoTrap.cpp:1784-1807 | undo restores the position table and revives the victim in the capture table |
| Execution.MovePiece | KaizoTrap.cpp:1749-1770 | the state after movePiece is Apply of the recorded move, and the victim is written to the move stack |
| Execution.CheckPieceRemoved | KaizoTrap.cpp:1822-1884 | stamps the victim with the capture indicator and advances it, or records NOCAPTURE; returns 0 exactly on a capture |
| Execution.ResetPiecePosition | KaizoTrap.cpp:1773-1820 | the state after resetPiecePosition is Undo of the recorded move with its marker and victim |
| GameTree.MaxPrunes | KaizoTrap.cpp:1502-1506 | maxMove's cut-off value equals the minimax value when below beta, and is at most it otherwise |
| GameTree.MinPrunes | KaizoTrap.cpp:1588-1593 | minMove's cut-off value equals the minimax value when above alpha, and is at least it otherwise |
| GameTree.WideWindow | KaizoTrap.cpp:1427-1600 | with the widest window alpha-beta gives the plain minimax value |
| GameTree.RootPrunes | KaizoTrap.cpp:1631-1675 | makeAMove's choice, made with each reply cut at the best so far, equals the choice made on full minimax values |
| GameTree.RootBest | KaizoTrap.cpp:1631-1675 | makeAMove's choice is the first move whose minimax value is the greatest, and its value is the value of the tree |
| GameTree.MaxABRange | KaizoTrap.cpp:1427-1514 | whatever beta, the value maxMove's alpha-beta returns for a bounded tree lies strictly between BELOWWORST and ABOVEBEST |
| GameTree.MinABRange | KaizoTrap.cpp:1516-1600 | whatever alpha, the value minMove's alpha-beta returns for a bounded tree lies strictly between BELOWWORST and ABOVEBEST |
| Hints.ErasedCells | KaizoTrap.cpp:1379-1391 | cleanBoard leaves no hint on the grid and changes no other cell |
| Hints.WalkErased | KaizoTrap.cpp:611-1054 | the walkers record the same moves and return the same code on a hinted grid as on the wiped one |
| Hints.ValidateErased | KaizoTrap.cpp:1056-1125 | validateInput gives the same outcome on a hinted grid as on the wiped one |
| Hints.PieceCallsErased | KaizoTrap.cpp:1127-1217 | the calls the generators make for one unit are the same on a hinted grid as on the wiped one |
| Hints.SideCallsErased | KaizoTrap.cpp:1127-1292 | the calls a generator makes for a range of units are the same on a hinted grid as on the wiped one |
| Hints.RunErased | KaizoTrap.cpp:1056-1125 | any sequence of validateInput calls fills the lists alike on a hinted grid and on the wiped one |
| Hints.GenerateErased | KaizoTrap.cpp:1127-1292 | findHumanMoves and findComputerMoves record the same lists on a hinted grid as on the wiped one |
| Hints.ObjectivesErased | KaizoTrap.cpp:1088-1104 | checkGameOver's objective test gives the same answer on a hinted grid as on the wiped one |
| GameTree.MaxFullRange | KaizoTrap.cpp:1431-1453 | the value of a bounded tree lies strictly between BELOWWORST and ABOVEBEST |
| SearchSpec.BestChoice | KaizoTrap.cpp:1658-1668 | the chosen index names the first move of greatest minimax value, and its value is the value of the tree makeAMove explores |
| SearchSpec.ScoreMarks | KaizoTrap.cpp:204-220 | evaluate depends on the capture table only through which units are captured |
| SearchSpec.GenerateMarks | KaizoTrap.cpp:1127-1292 | the generators depend on the capture table only through which units are captured |
| SearchSpec.ChildOfNorm | KaizoTrap.cpp:1749-1884 | making a move with any capture indicator and then reducing captures to marks gives the child position of the tree |
| SearchSpec.MaxTreeShape | KaizoTrap.cpp:1427-1456 | below the horizon with objectives standing, maxMove's tree is a loss of BELOWWORST + 1 + d when the computer has no move, and otherwise one subtree per listed move |
| SearchSpec.MinTreeShape | KaizoTrap.cpp:1516-1547 | minMove's tree is a win of ABOVEBEST - (1 + d) when the human has no move, and otherwise one subtree per listed move |
| SearchSpec.RootTreeShape | KaizoTrap.cpp:1602-1614 | the moves makeAMove tries are those findComputerMoves lists after the decrement of horizontalcomputer |
| Search.MaxMove | KaizoTrap.cpp:1427-1514 | returns the alpha-beta value of maxMove's tree, strictly between BELOWWORST and ABOVEBEST, restores the position, sets horizontalhuman to the entry horizontalcomputer, and keeps the lists of shallower depths |
| Search.MinMove | KaizoTrap.cpp:1516-1600 | returns the alpha-beta value of minMove's tree, strictly between BELOWWORST and ABOVEBEST, restores the position and both lateral flags, and keeps the lists of shallower depths |
| Search.SearchMax | KaizoTrap.cpp:1459-1509 | the loop over the listed moves computes maxMove's cut-off maximum over their replies |
| Search.SearchMin | KaizoTrap.cpp:1550-1594 | the loop over the listed moves computes minMove's cut-off minimum over their replies |
| Search.ListMax | KaizoTrap.cpp:1432-1447 | the cleared depth's lists hold Generate's computer moves, and the shallower lists are kept |
| Search.ListMin | KaizoTrap.cpp:1521-1540 | the cleared depth's lists hold Generate's human moves, and the shallower lists are kept |
| Search.RootListing | KaizoTrap.cpp:1607-1614 | the moves findComputerMoves lists at the root are RootMoves of the position, admissible, with the lateral list naming exactly the row moves |
| Search.RecordMove | KaizoTrap.cpp:1468-1473 | the move-stack frame of the depth receives the move and the markers of its origin and destination |
| Search.MakeAMove | KaizoTrap.cpp:1602-1707 | moves exactly when the computer has a move; then returns the best value and plays the first best move, setting horizontalcomputer to 2 after a lateral TIE move; otherwise leaves the position unchanged with horizontalcomputer decremented |
| Search.ChooseMove | KaizoTrap.cpp:1622-1675 | the loop over the root moves keeps the first move of greatest cut-off value, with its coordinates and offset |
| Search.PlayChoice | KaizoTrap.cpp:1689-1699 | plays the chosen move and sets horizontalcomputer as RootHc says |
| Counters.DescentDepths | KaizoTrap.cpp:1485 | the i-th level a line of play enters from depth d is d + i, down to MAXDEPTH |
| Counters.DeclaredCountersOverrun | KaizoTrap.cpp:110 | with the declared MAXDEPTH entries, every line of play clears an entry outside the table |
| Counters.CountersFit | KaizoTrap.cpp:1432-1433 | with MAXDEPTH + 1 entries every clear lands in the table: entries d..MAXDEPTH become 0 and the others are kept |

## Left out

- Console input and output: `getHumanMove`, `main`, `printBoard`, the showing functions, and every `cout` or `printf`, including checkNoMoves' messages.
- The human's turn driver in `main`, which calls `checkListOfMoves`, `movePiece` and `doubleCaptureIndicators` between turns.
- Search.MakeAMove: makeAMove draws the hints `o` itself (KaizoTrap.cpp:1615, through 1352 and 1371-1377), and `getHumanMove` draws more (KaizoTrap.cpp:1719). The calls of `cleanBoard` are commented out (KaizoTrap.cpp:432 and 450), so the source always searches a hinted grid. The model searches the grid with the hints wiped, because a well-formed position holds none. The Hints lemmas show that the rules, the generators and the end-of-game test cannot tell the two grids apart. Not modelled: the source's undo writes `-` where a hint stood, so the hints vanish one by one during the search.
- Search.MakeAMove: the `exit(0)` taken when the computer has no move is modelled as returning `moved == false` with the position unchanged.
- Search.MakeAMove: the position after the move is stated with its capture table reduced to captured/not-captured marks; the exact capture order it stamps is stated by Execution.MovePiece and Execution.CheckPieceRemoved.
- Search.MaxMove: the value is stated on the position with its capture table reduced to marks, which is all that evaluate and the generators read (SearchSpec.ScoreMarks, SearchSpec.GenerateMarks).
- Queries.CheckListOfMoves: returns the matching offset instead of writing the global `humanmovenum`.
- Legality.ValidateInput: requires the depth's lists to have room for the moves it records, which the generators establish through GenerationSpec.GenerateFits.
- Execution.ResetPiecePosition: its `whichplayer` argument only selects debug output and is ignored.
- 32-bit `int` wrap-around: all values in the core stay far inside the range, and the capture indicator and its doubling are modelled as unbounded.
- The dead code that is commented out, and `setup`'s printing.

## Findings

| source | as written | input that shows it | evidently intended | confidence | as-written member | corrected member |
|---|---|---|---|---|---|---|
| KaizoTrap.cpp:110 | `movenum` and `horizontalmovenum` have MAXDEPTH entries, but maxMove and minMove clear entry `curdepth` before testing `curdepth == MAXDEPTH` (lines 1432-1433, 1520-1523) | any line of play that reaches depth 8: makeAMove → minMove(1) → … → minMove(7) → maxMove(8) writes `movenum[8]` and `horizontalmovenum[8]` | the counters have MAXDEPTH + 1 entries, so the write at the horizon lands in the table | not executed | Counters.DeclaredCountersOverrun | Counters.CountersFit |

The state of this model sizes both counters `COUNTERS = MAXDEPTH + 1`.
