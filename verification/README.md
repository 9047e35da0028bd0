# A model of the Tetris server and client in Dafny

This project models the logic of a networked console Tetris and proves what it keeps. There are four parts.

**The board and its AI** (`Shapes`, `Grid`, `Lines`, `Landing`, `Rotation`, `Block`, `Board`, `BoardRuns`, `Spawns`,
`Tower`, `Steering`, `Guidance`, `Placement`, `Scoring`, `Plan`, `BoardAI`). `TetrisBoard` is a class whose grid, row
counts and blocks change in place; each method is proved against a function on values, and the theorems about whole
runs are about that function. `Steering` and `Guidance` say in rows and columns where keys, ticks and the AI's plans
lead, and `Scoring` what the AI's score prefers. Width, height, the keys, "the drop timer has run out" and the next
block's type are arbitrary. The game-over test does not look at every row a new block occupies, so a block can appear
on filled cells. The run theorems hold as long as the active block overlaps nothing after input; `Spawns` proves, with
no such hypothesis, exactly when `rowCounts` breaks, and `Tower` gives a run of the game in which it does. All shapes
but the square use one kick table, as the code does, so the separate table for the long piece is never used.

**The hubs** (`HubProtocol`, `HubSafety`, `HubRuns`, `HubMoves`, `HubForecast`, `HubHandshake`, `HubLog`,
`HubObjects`, `HubWorld`). Users move between hubs by a handshake of four closures on two strands, while their
sessions send commands and close connections. The state machine has FIFO strands of atomic handlers and one serial
session per user; closing is three steps (set the flag, read the hub, queue the removal). `HubObjects` holds the hub,
user and ticket-booth objects, and `HubWorld` proves that every step of the machine, done on all the objects together,
keeps them in agreement with it. `sendUser` looks its user up without checking; where the user is missing no step is
defined. `HubMoves` shows a run that gets there and a guard under which none does, and `HubForecast` proves exactly
when a queued `sendUser` will find its user. `HubHandshake` proves where a granted or refused move ends, and `HubLog`
exactly which commands are executed.

**The wire format** (`Endian`, `Payloads`, `Frames`, `WireImages`, `CommandObjects`, `Sessions`). Commands become
bodies, bodies become packets, and the session's read loop turns a byte stream back into commands. Byte order is a
parameter of each side, and `WireImages` gives the bytes position by position. The encoders cut what does not fit; the
casts to 16 bits are written out. A string built from a range that ends before it starts has no defined result, so the
loop's precondition excludes such bodies and a lemma says which ones they are.

**The console** (`Cells`, `Screens`, `Panels`, `Printer`). Panels are stacked, edited and closed, and a refresh
composes them and prints the marked cells. The library's promise that marked cells reach the screen fails inside the
printing loop: after a row that is not fully marked the next block starts one row too early. `Printer` proves exactly
when it holds.

Where the code and its comments disagree the model follows the code. In the score, the last interior column counts
neither in the sum of heights nor as the start of a pair of neighbours.

## Model

| member | source | states |
|---|---|---|
| BoardRuns.EveryRun | Client/TetrisBoard.cpp:53-329 | in every run of a new board (any width from 3, any height from 2), for any keys, gravity and block types in which the active block overlaps nothing once each frame's input is handled: the active block is collision-free between frames, walls and floor stay filled, `rowCounts` equals the filled interior cells of every playable row, no empty row lies beneath a non-empty one, no full row survives a frame, and filled cells = 4 x locked - (width - 2) x cleared |
| BoardRuns.FrameKeepsInvariant | Client/TetrisBoard.cpp:71-86 | one `Update` whose block is free after input keeps all of that, whether or not its spawn was blocked, and clears at most four rows |
| BoardRuns.StartIsGood | Client/TetrisBoard.cpp:53-69 | the board that the constructor builds satisfies the invariant |
| BoardRuns.RunKeepsInvariant | Client/TetrisBoard.cpp:71-86 | any sequence of such frames keeps the invariant, from any state that has it |
| BoardRuns.HardDropFillsGhost | Client/TetrisBoard.cpp:127-170 | the hard-drop key locks the block in the same `Update`, on exactly the cells of the ghost shown by the frame before, even if gravity moved the block in between |
| BoardRuns.EveryLockFillsGhost | Client/TetrisBoard.cpp:149-213 | in any state, whatever makes a block lock, it locks where its ghost is |
| BoardRuns.SpawnClearSuffices | Client/TetrisBoard.cpp:88-147 | between frames, an unblocked spawn is enough for the block to be free after input: input never moves a free block onto filled cells |
| BoardRuns.PlannedDropMatchesScore | Client/TetrisBoardAI.cpp:157-281 | a live block with the planned rotation and column, at any height on the simulated fall path, is locked by a hard drop into exactly the grid that the search scored |
| Steering.KeyLeadsTo | Client/TetrisBoard.cpp:115-147 | what every key does to a free block: right and left move it one column to that side if it is free there and leave it otherwise, up turns it clockwise to the first free kick offset or leaves it, a square stays, the hard drop puts it on the lowest place with nothing filled on the way; and when the two flags are set |
| Steering.LowestIsDrop | Client/TetrisBoard.cpp:127-133 | there is exactly one such lowest place, and it is where the fall of the hard drop, the ghost and the AI ends |
| Steering.FrameMeans | Client/TetrisBoard.cpp:71-170 | the rest of a frame without a hard drop: on a tick the block is exactly one row lower if it is free there and otherwise becomes part of the grid where it is; without a tick it stays, and so does the grid |
| Steering.KickMeans | Client/ModelPointer.cpp:168-178 | the five kick offsets in columns to the right and rows down, which way each goes for each rotation |
| Steering.TurnMeans | Client/TetrisBoard.cpp:426-487 | the rotation succeeds at the first of those offsets that is free, and leaves the block alone when none is |
| Guidance.FollowsWay | Client/TetrisBoard.cpp:71-170 | over any number of frames whose keys and ticks ask for free places only, the block ends where they ask for (each key one column or one turn, each tick one row down) and nothing else on the board changes |
| Guidance.FallsWithTicks | Client/TetrisBoard.cpp:149-170 | over any frames without steering keys, the block is as many rows lower as there were ticks, until it has come to rest |
| Guidance.LocksAtRest | Client/TetrisBoard.cpp:149-170 | and the tick after that locks it there, while a frame without a tick leaves it |
| Guidance.SpawnFrame | Client/TetrisBoard.cpp:71-113 | in the frame in which a block appears, at column width / 2 - 2, its key and its tick already move it |
| Guidance.ThereAndBack | Client/TetrisBoard.cpp:115-147 | right then left, or left then right, with room for it, is back at the start |
| Guidance.PlanLeads | Client/TetrisBoardAI.cpp:58-155 | the keys of a plan, with any frames and ticks between them, bring the block to the planned rotation and column when every place on the way is free |
| Guidance.PlanLocksAsScored | Client/TetrisBoardAI.cpp:58-281 | and the hard drop at their end locks it in that frame into the grid that the search scored, as long as the block was still on the simulated fall path |
| Spawns.SpawnUnblockedIff | Client/TetrisBoard.cpp:88-113 | when `IsFull` says no, on a board at least 6 wide and 5 high, a spawn is unblocked if and only if no row-3 cell of the new block is filled: the test looks at rows 0 to 2 only |
| Spawns.IndexKeptIff | Client/TetrisBoard.cpp:71-239 | over every run of a new board (at least 6 wide and 5 high, the game's shapes), with no other hypothesis: `rowCounts` is right after every frame's fall and lock if and only if no frame locks a block that overlaps filled cells |
| Spawns.FrameKeepsIndexIff | Client/TetrisBoard.cpp:71-239 | the same for one frame, from any state that such a run can leave |
| Spawns.FrameKeepsLoose | Client/TetrisBoard.cpp:71-239 | such a frame leads to such a state again, also while a block that appeared on filled cells is still there |
| Towers.TowerIsBuilt | Client/TetrisBoard.cpp:71-170 | fifteen frames from the start of the 12 by 24 game put five upright long blocks into column 5, without any overlap |
| Towers.BlockedSpawnBreaksIndex | Client/TetrisBoard.cpp:350-361 | after that run, where the invariant holds and `IsFull` passes, the next block appears on filled cells and locks there, and `rowCounts` no longer agrees with the grid |
| Towers.BlockedSpawnCanEscape | Client/TetrisBoard.cpp:88-147 | from the same state the left key moves the block off the filled cells in time, and the invariant survives |
| Grids.LockGridAt | Client/TetrisBoard.cpp:215-239 | `LockBlock` fills exactly the cells the block covers inside the board and leaves every other cell alone |
| Grids.LockKeepsIndexIff | Client/TetrisBoard.cpp:215-239 | `LockBlock` keeps `rowCounts` in step with the grid if and only if the block covers no filled playable cell |
| Grids.RowLockCount | Client/TetrisBoard.cpp:223-231 | the count added for one matrix row is right exactly when the row covers no filled cell, and otherwise too big |
| Grids.FreeIsInterior | Client/TetrisBoard.cpp:172-198 | a collision-free block on a walled board has all its cells inside the walls, above the floor, on empty cells |
| Landing.DropFromPath | Client/TetrisBoard.cpp:127-133 | falling from any position on the fall path of a free block ends in the same place |
| Landing.LockKeepsSettled | Client/TetrisBoard.cpp:149-170 | a block locks only where one step lower collides, so a lock leaves no empty row beneath a non-empty one |
| Landing.LockLines | Client/TetrisBoard.cpp:215-239 | a lock of a free block adds as many cells to the counts as the matrix has, and fills at most that many rows |
| Landing.CheckLinesKeeps | Client/TetrisBoard.cpp:251-276 | `CheckLines` keeps the index right and the stack settled, leaves no full row, and removes width - 2 cells for every full row |
| Lines.CheckLinesDeletesFullRows | Client/TetrisBoard.cpp:251-329 | on a settled board, `CheckLines` with `MoveLines` deletes exactly the full rows, keeps the others in order with their counts, and adds as many empty rows on top |
| Lines.MoveLinesCompacts | Client/TetrisBoard.cpp:296-329 | on any board whose counts are zero exactly on empty rows, `MoveLines` is a stable compaction: the non-empty rows end contiguous at the bottom in their order, each with its count |
| Lines.MoveLoopCompacts | Client/TetrisBoard.cpp:307-326 | the two-pointer invariant: rows below the target are done, and when the pointers are more than one apart all rows from above the source to the target are empty |
| Boards.TetrisBoard.Update | Client/TetrisBoard.cpp:71-86 | one frame on the object is one step of the board's step function: spawn, input, fall and lock, then clearing |
| Boards.TetrisBoard.constructor | Client/TetrisBoard.cpp:9-46 | a new board is an outline of filled cells around an empty field, with all counts zero |
| Boards.TetrisBoard.InitBoard | Client/TetrisBoard.cpp:53-69 | fills the bottom edge and the two sides of any rectangle that fits, nothing else; a rectangle that starts past the board or ends before it is ignored |
| Boards.TetrisBoard.Instantiate | Client/TetrisBoard.cpp:88-113 | the queued block becomes current at column width / 2 - 2, the queue moves up, and the ghost starts as its copy |
| Boards.TetrisBoard.CheckCollision | Client/TetrisBoard.cpp:172-198 | reports a hit exactly when some cell of the block is outside the board or on a filled cell |
| Boards.TetrisBoard.FallUntilCollision | Client/TetrisBoard.cpp:127-133 | the loop of the hard drop, the ghost and the AI: the saved pose is the lowest free one, and a block that collides at once is left alone |
| Boards.TetrisBoard.UpdateGhostBlock | Client/TetrisBoard.cpp:200-213 | the ghost is put where the current block would come to rest; without a current block nothing happens |
| Boards.TetrisBoard.TryRotateWithWallKick | Client/TetrisBoard.cpp:426-487 | the loop of kick tests with rollback computes the first free kick, or fails and restores the pose; false without a block |
| Boards.TetrisBoard.HandleInput | Client/TetrisBoard.cpp:115-147 | a move or rotation that would collide is undone, a hard drop goes to the bottom and asks for the lock, the soft-drop flag is set by the down key and cleared when it is not held, and the ghost follows |
| Boards.TetrisBoard.MoveBlockDown | Client/TetrisBoard.cpp:149-170 | on a ready flag or a gravity tick the block falls one row or locks where it is |
| Boards.TetrisBoard.LockBlock | Client/TetrisBoard.cpp:215-239 | the nested loops fill the grid and the counts as `LockGrid` and `LockCounts` say |
| Boards.TetrisBoard.ClearLine | Client/TetrisBoard.cpp:241-249 | one row is emptied between the walls and its count is zero |
| Boards.TetrisBoard.MoveLine | Client/TetrisBoard.cpp:296-305 | the cells between the walls and the count of one row are copied over any other row, and the source row is cleared |
| Boards.TetrisBoard.MoveLines | Client/TetrisBoard.cpp:307-326 | the in-place loop computes the compaction that `Lines` is about |
| Boards.TetrisBoard.CheckLines | Client/TetrisBoard.cpp:251-276 | the in-place loops compute the clearing that `Lines` is about |
| Boards.TetrisBoard.IsFull | Client/TetrisBoard.cpp:350-361 | true exactly when an interior cell of rows 0 to 2 is filled |
| Rotation.RotationIsReversible | Client/TetrisBoard.cpp:426-487 | on any board, a rotation that succeeds from a collision-free pose can be followed by one the other way |
| Rotation.RotationTakesFirstFreeKick | Client/TetrisBoard.cpp:463-486 | success takes the first free kick offset; failure means every offset collides and leaves column, row and rotation unchanged |
| Rotation.RotationReturnsIff | Client/TetrisBoard.cpp:463-486 | the way back ends on the starting pose if and only if no earlier kick of the way back is free |
| Shapes.KicksAreInverse | Client/ModelPointer.cpp:168-178 | the kicks of a rotation and of the rotation back are negations of each other, test by test |
| Shapes.KicksAreDistinct | Client/ModelPointer.cpp:168-178 | the five kicks of a rotation are different offsets |
| Shapes.ModelPointersGood | Client/ModelPointer.cpp:3-164 | every matrix of every shape is square, has four cells, has the size its type says, and has no gap between its used rows |
| Shapes.SpawnRows | Client/ModelPointer.cpp:3-164 | at rotation 0 no shape has a cell below its second matrix row |
| Shapes.QuarterTurns | Client/ModelPointer.cpp:3-164 | each matrix is the one before turned clockwise by a quarter, all the way round, if and only if it is not the second or fourth of S or Z; those two shapes go back to their first matrix instead |
| Shapes.MirrorImages | Client/ModelPointer.cpp:3-164 | J and L mirror each other, turning opposite ways, and so do S and Z |
| Blocks.Block.Rollback | Client/Block.cpp:70-75 | rollback restores the position and rotation that `UpdatePos` saved, and keeps the saved copy |
| Blocks.Block.CopyFrom | Client/Block.cpp:27-40 | the copy has the pose and the saved pose of the original |
| Blocks.Block.Rotate | Client/Block.cpp:61-68 | turns one step in the given direction and moves nothing |
| Blocks.Block.GetMatrixSize | Client/Block.cpp:108-115 | the size by type is the size of the matrix in use |
| Blocks.Block.GetValue | Client/Block.cpp:117-126 | non-zero exactly on the block's cells |
| BoardAI.TetrisBoardAI.FindBestPlacement | Client/TetrisBoardAI.cpp:157-196 | the search over copies of the block returns the first of the best-scoring placements, or the current column when there is none |
| Placement.SearchIsOptimal | Client/TetrisBoardAI.cpp:157-196 | such a result is optimal over all four rotations and every integer column at which the block is collision-free at the top, and earlier candidates score strictly less |
| Placement.FreeCandidateIsVisited | Client/TetrisBoardAI.cpp:172-182 | the walls confine every collision-free candidate to the columns from 1 - size to width - 2 that the loop visits |
| Placement.VisitKeepsBest | Client/TetrisBoardAI.cpp:176-193 | one visit with a strict comparison keeps `best` the first of the best so far |
| Placement.EvaluatePlacement | Client/TetrisBoardAI.cpp:198-271 | the scans compute the declared score of the grid with the block locked in: full rows, holes, height differences and heights as sets and maxima |
| Placement.FilledAndHoles | Client/TetrisBoardAI.cpp:232-255 | in every column, filled cells and holes together are max(0, height - 1) |
| Scoring.ScoreCompares | Client/TetrisBoardAI.cpp:263-270 | between any two places: a full row is worth 1000, a hole costs 50, a unit of difference between neighbours 3, a unit of height 2, and a row deeper is worth 1 |
| Scoring.EmptyScore | Client/TetrisBoardAI.cpp:198-271 | on an empty field the score is the landing row |
| Scoring.FillHole | Client/TetrisBoardAI.cpp:198-271 | filling a hole of any grid raises the score by exactly 50, and by 1000 more when it completes its row |
| Scoring.TopCell | Client/TetrisBoardAI.cpp:198-271 | a cell on top of any column costs 50 for each hole it leaves below, 2 for each unit of height it adds unless the column is the last, and 3 for each unit by which it roughens the pairs the column is part of; with the two rows above this settles the score of every grid |
| Scoring.NothingDominates | Client/TetrisBoardAI.cpp:157-271 | no place that the search could have taken is better than the result in one respect and no worse in the others; in particular none has fewer holes and is otherwise equal |
| Scoring.SquareIsNotTurned | Client/TetrisBoardAI.cpp:172-193 | the first of equal candidates wins, so a square block is never turned |
| Placement.ScoreIsInt32 | Client/TetrisBoardAI.cpp:263-270 | a bound on width and height under which no partial sum of the score leaves a 32-bit int |
| Placement.LandsAsScored | Client/TetrisBoardAI.cpp:178-188 | the simulated drop from the top and a live drop from anywhere on its path end in the same place, with the score the search gave |
| BoardAI.TetrisBoardAI.SimulateHardDrop | Client/TetrisBoardAI.cpp:273-281 | leaves the block on the last free row of its fall |
| BoardAI.TetrisBoardAI.MakePlan | Client/TetrisBoardAI.cpp:134-155 | pushes the rotations, the moves from the current to the best column, and one hard drop; false, and no plan, without a block |
| AiPlan.PlanShape | Client/TetrisBoardAI.cpp:134-155 | every plan is RotateCW*, then MoveLeft* or MoveRight*, then one HardDrop, and its moves lead from the current column to the target |
| BoardAI.TetrisBoardAI.HandleInput | Client/TetrisBoardAI.cpp:58-132 | one call on the object adopts a plan if the old one is used up, ticks the counters or pushes one key, and lets the board handle the next key of the shared queue |
| BoardAI.TetrisBoardAI.Update | Client/TetrisBoardAI.cpp:58-132 | whatever the AI does, a frame of its board is an ordinary step of the board, with the key that heads the queue after the AI has put at most one key behind it; so the run theorems hold of AI boards |
| AiPlan.TickDecreases | Client/TetrisBoardAI.cpp:74-129 | whatever delays are picked, every call with actions left lowers an explicit bound |
| AiPlan.TickDecreasesLexicographically | Client/TetrisBoardAI.cpp:74-129 | each such call lowers (plan length, post-plan counter, action delay, pre-drop frames left) lexicographically |
| AiPlan.PlanDrains | Client/TetrisBoardAI.cpp:58-132 | within that bound the plan is used up, and the keys pushed are its actions in order, each once |
| AiPlan.ActsAfterWait | Client/TetrisBoardAI.cpp:74-129 | the next action comes after exactly the calls that the countdowns say, which push nothing and keep the plan; its key is pushed then, and the delay picked for its kind starts |
| AiPlan.NewPlanBound | Client/TetrisBoardAI.cpp:58-155 | the bound for a new plan, from its rotations, its distance and the delays of the level |
| AiPlan.LevelsGiveGoodDelays | Client/TetrisBoardAI.cpp:18-56 | every level gives delay ranges that are not empty or negative |
| AiPlan.DelaysAre | Client/TetrisBoardAI.cpp:18-56 | the delays of each level in frames, rounded to the nearest |
| BoardAI.InputManager.DequeueInput | Client/Managers/InputManager.cpp:15-27 | first in, first out, and no key when the queue is empty |
| HubRuns.EveryRunIsSafe | Common/Libs/Server/Hub/Hub.cpp:15-195 | every reachable state of hubs, users and sessions, over every interleaving, satisfies all the protocol invariants |
| HubRuns.SingleOwner | Common/Libs/Server/Hub/Hub.cpp:35-47 | a user is in at most one hub's map or carried by exactly one receiveUser closure, never both; map keys are the users' IDs; members point back at their hub, users in flight nowhere; new IDs are fresh |
| HubRuns.ExecutionIsOwned | Common/Libs/Server/Hub/Hub.cpp:15-33 | a step executes a command if and only if it runs the command's closure on a hub whose map holds the user at that moment, and no other hub's does; then exactly that entry is added to the log and the user's count of executed commands moves past it, and otherwise both stay |
| HubLog.ReadCommandBinds | Common/Libs/Server/User/User.cpp:30-37 | a command that a session reads is bound for the hub in whose map its user is, and for none when there is none |
| HubLog.PostCommandQueues | Common/Libs/Server/Hub/Hub.cpp:15-33 | unless it failed, it is queued last on that hub, whatever it asks for, and nothing else changes |
| HubLog.CommandRuns | Common/Libs/Server/Hub/Hub.cpp:25-32 | a command at the head of a strand is logged if and only if its user is in the map, whether or not it asks for a move; only then is its request posted, and in any case it leaves the strand |
| HubLog.RunLogs | Common/Libs/Server/Hub/Hub.cpp:15-33 | over every schedule, the log grows by exactly the commands whose closures ran while their users were in the hub's map, in that order |
| HubLog.LoggedIff | Common/Libs/Server/Hub/Hub.cpp:15-33 | a command is in the log of a run if and only if some step of the run ran its closure while its user was in that hub's map |
| HubLog.QueuedCommandRunsIff | Common/Libs/Server/Hub/Hub.cpp:15-33 | over every interleaving until its turn, a queued command is executed if and only if the closures ahead of it leave its user in the map |
| HubLog.MembersCommandRunsIff | Common/Libs/Server/Hub/Hub.cpp:15-33 | when none of them brings the user in: if and only if the user is in the map now and none of them takes the user out |
| HubRuns.ExecutedInSendingOrder | Common/Libs/Server/Hub/Hub.cpp:127-195 | over every run, including A to B and back to A, a user's executed commands are commands its session sent, none twice, in sending order |
| HubRuns.ClosedGainsNothing | Common/Libs/Server/User/User.cpp:79-95 | once the closed flag is set it stays set and no step puts the user into any hub's map |
| HubRuns.ClosedStaysOut | Common/Libs/Server/User/User.cpp:79-95 | the same over any continuation of a run |
| HubRuns.ClosedIsBeingRemoved | Common/Libs/Server/User/User.cpp:79-95 | a closed user still in a hub's map: the closer has not read the hub pointer, has just read this hub, or a removal is queued on this hub's own strand |
| HubRuns.ClosedIsGoneForGood | Common/Libs/Server/User/User.cpp:79-95 | when the closer is done and no removal is queued, the user is in no map and never will be again |
| HubRuns.ClosedInFlightIsDropped | Common/Libs/Server/Hub/Hub.cpp:186-195 | a closed user in flight is dropped on arrival |
| HubSafety.StepSafe | Common/Libs/Server/Hub/Hub.cpp:15-195 | every single step keeps the invariants: one carrier per user, queues in sending order, overtaken commands dead, removals pending, the log in order |
| HubSafety.HeadIsFresh | Common/Libs/Server/Hub/Hub.cpp:127-195 | a command at the head of the strand of the hub its user is in has not been overtaken by a later one |
| HubSafety.HandlerFrame | Common/Libs/Server/Hub/Hub.cpp:170-195 | a hub's map gains a user only by receiveUser for an open connection |
| HubMoves.SecondLoginIsUndefined | Common/Libs/Server/Hub/Hub.cpp:170-184 | a run from the start in which two login requests in a row make sendUser look up a user that is gone |
| HubMoves.GuardedRunIsDefined | Common/Libs/Server/Hub/Hub.cpp:127-184 | when RequestMoveUser is called only for open users with no handshake under way, and connections close only while their user has none, sendUser always finds its user |
| HubHandshake.MoveArrives | Common/Libs/Server/Hub/Hub.cpp:127-195 | a granted move, over every interleaving in which its closures have had their turns: the user was in the source's map until sendUser ran and was then in none, and at the end a user whose connection is open is in the target's map and points there, a closed one is nowhere |
| HubHandshake.MoveIsRefused | Common/Libs/Server/Hub/Hub.cpp:146-168 | a refused move: the booth drops the user, any other hub keeps the user, and nobody else is touched |
| HubHandshake.RequestAsks | Common/Libs/Server/Hub/Hub.cpp:127-144 | an executed command that asks for a move puts the request last on the target's strand |
| HubHandshake.ReplyAnswers | Common/Libs/Server/Hub/Hub.cpp:146-168 | a joinable target answers with a send, one that is not with a refusal, on the source's strand |
| HubHandshake.SendLeaves | Common/Libs/Server/Hub/Hub.cpp:170-184 | the user is in no map, points nowhere, and is carried to the target's strand |
| HubHandshake.ReceiveArrives | Common/Libs/Server/Hub/Hub.cpp:186-195 | a user whose connection is open is in the target's map and in no other, a closed one in none |
| HubHandshake.AcceptEnters | Common/Libs/Server/Hub/TicketBooth.cpp:33-62 | a new user has a fresh ID and is in the booth's map, open, and in no other |
| HubForecast.SendFindsUserIff | Common/Libs/Server/Hub/Hub.cpp:146-184 | over every interleaving until it runs, a queued sendUser (or the booth's refusal) finds its user if and only if no closure ahead of it takes the user out after the user came in: the user was in the map when it was queued, or a receiveUser ahead of it ran while the connection was still open |
| HubForecast.SendIsDefinedIff | Common/Libs/Server/Hub/Hub.cpp:170-184 | the same in terms of what the closures ahead do to the map one after another, given the closed flag that the receiveUser found, if one ran |
| HubForecast.StepKeepsForecast | Common/Libs/Server/Hub/Hub.cpp:127-195 | no step of any session or hub changes what is forecast for a queued closure, as long as a receiveUser that runs finds the flag the forecast was made for |
| HubForecast.RunKeepsForecast | Common/Libs/Server/Hub/Hub.cpp:127-195 | so a queued closure keeps its place and its forecast over every schedule that has not run it yet |
| HubForecast.HandlerDoesAfter | Common/Libs/Server/Hub/Hub.cpp:15-195 | what each handler does to one user's membership |
| HubWorld.HandleNext | Common/Libs/Server/Hub/Hub.cpp:15-195 | running the next closure of any hub's strand on the hub and user objects is exactly the machine's step, and what each hub object has executed is what the machine's log says of that hub |
| HubWorld.ReadCommand | Common/Libs/Server/User/User.cpp:30-37 | a session's read of its user's hub pointer changes no object and yields the hub that the machine remembers |
| HubWorld.PostCommand | Common/Libs/Server/User/User.cpp:30-37 | queueing the command on the hub that was read is the machine's step on all objects |
| HubWorld.SetClosed | Common/Libs/Server/User/User.cpp:79-81 | so is setting the closed flag |
| HubWorld.ReadHub | Common/Libs/Server/User/User.cpp:79-82 | the closer's read of the hub pointer, after the flag |
| HubWorld.PostRemoval | Common/Libs/Server/User/User.cpp:82-94 | and so is queueing the removal |
| HubWorld.Accept | Common/Libs/Server/Hub/TicketBooth.cpp:33-62 | accepting a connection adds the waiting user to the tables and the booth's map, as the machine's step does |
| HubObjects.HubObject.AddEvent | Common/Libs/Server/Hub/Hub.cpp:15-33 | a failed command is dropped, any other is queued at the end of the strand |
| HubObjects.HubObject.RunEvent | Common/Libs/Server/Hub/Hub.cpp:25-32 | the hub executes the queued command if and only if its user is still in the map, and may then request a move |
| HubObjects.HubObject.RequestMoveUser | Common/Libs/Server/Hub/Hub.cpp:127-144 | posts a reply request to the target's strand, unless there is no target or the user is gone |
| HubObjects.HubObject.ReplyRequest | Common/Libs/Server/Hub/Hub.cpp:146-168 | answers on the source's strand: send when the target is joinable, a refusal otherwise |
| HubObjects.HubObject.SendUser | Common/Libs/Server/Hub/Hub.cpp:170-184 | the user points nowhere, leaves the map, and is carried by one closure on the target's strand |
| HubObjects.HubObject.ReceiveUser | Common/Libs/Server/Hub/Hub.cpp:186-195 | an open user points at the target and enters its map; a closed one changes nothing |
| HubObjects.HubObject.AddUser | Common/Libs/Server/Hub/Hub.cpp:35-41 | emplace under the user's own ID, without effect when the key is taken |
| HubObjects.HubObject.CompleteRequest | Common/Libs/Server/Hub/TicketBooth.cpp:84-92 | a refused user is told so and dropped by the ticket booth, and kept by every other hub |
| HubObjects.HubObject.CloseUser | Common/Libs/Server/User/User.cpp:85-93 | the removal queued by CloseConnection takes the user out if it is there |
| HubObjects.UserObject.RequestAddEvent | Common/Libs/Server/User/User.cpp:30-37 | the command goes to the hub that was read, if any |
| HubObjects.UserObject.SetClosed | Common/Libs/Server/User/User.cpp:79-81 | the first step of CloseConnection sets the flag, and nothing else |
| HubObjects.UserObject.DispatchRemoval | Common/Libs/Server/User/User.cpp:82-94 | the last step of CloseConnection queues a removal on the strand of the hub that was read |
| HubObjects.TicketBooth.AcceptConnection | Common/Libs/Server/Hub/TicketBooth.cpp:33-62 | a connection gets the next ID and enters the booth's map, its read loop starts and it is welcomed; a failed one leaves all that alone; either way a fresh user waits for the next |
| Frames.WholeWireIsRead | Common/Libs/Server/User/Session.cpp:51-126 | the packets of any list of commands, from any hosts and with any padding bytes, are read back on any host as the same types and (cut) payloads in order, and every byte is consumed |
| Frames.WireIsRead | Common/Libs/Server/User/Session.cpp:51-126 | the same with anything after them: the loop goes on with what follows |
| Frames.BrokenWireIsRead | Common/Libs/Server/User/Session.cpp:51-126 | when the stream breaks off anywhere, exactly the packets that arrived whole are delivered |
| Frames.AcceptedFrameIsGenuine | Common/Libs/Server/Protocol/Packet.cpp:12-44 | whatever is read and accepted, signals aside, is byte for byte the packet that its command writes |
| Frames.FrameIsRead | Common/Libs/Server/Protocol/Packet.cpp:12-77 | the packet of any command is read whole, whichever hosts write and read it |
| Frames.CutFrameStops | Common/Libs/Server/User/Session.cpp:51-110 | a packet cut short delivers nothing |
| Frames.CommandFits | Common/Libs/Server/Command/ICommand.h:42-45 | no command's packet is cut, and its 16-bit length never wraps: 12 + 2 + 65521 = 65535 |
| Frames.PacketIsWholeIff | Common/Libs/Server/Protocol/Packet.cpp:56-77 | the two 16-bit casts keep body and length if and only if the packet is no longer than 65535 bytes |
| Frames.FrameIsHostFree | Common/Libs/Server/Protocol/Endian.h:8-37 | a command has the same packet whatever host writes it |
| Frames.HeaderCrosses | Common/Libs/Server/Protocol/Packet.cpp:12-32 | a written header is accepted with the length that was written, whatever the padding bytes are |
| WireImages.FrameImage | Common/Libs/Server/Protocol/Packet.h:12-15 | byte by byte, the packet of any command on any host: AB CD 12 34, 00 01, the packet's length and the type ID highest byte first, a zero checksum, the padding, then the body |
| WireImages.SignalPacket | Common/Libs/Server/Protocol/Packet.cpp:56-77 | the packet of command 7 is AB CD 12 34 00 01 00 0E 00 00, the padding, 00 07 |
| WireImages.HeaderMeans | Common/Libs/Server/Protocol/Packet.cpp:12-32 | a header is accepted if and only if it starts AB CD 12 34 00 01 and bytes 6 and 7 spell at least 12; they are the length, and bytes 8 and 9 the checksum |
| WireImages.TextImage | Common/Libs/Server/Command/ACommandStandardMessage.cpp:16-25 | the body of a message is its text, cut to 65521 bytes; a signal has none |
| WireImages.DoubleStringImage | Common/Libs/Server/Command/ACommandStandardDoubleString.cpp:27-50 | the body of a double string is where the second string starts, highest byte first, then the first string and the second, as far as they fit |
| WireImages.StringListImage | Common/Libs/Server/Command/ACommandStandardStringList.cpp:25-43 | the body of a string list is its first 511 blocks, 128 bytes each |
| WireImages.NumericDataImage | Common/Libs/Server/Command/ACommandStandardNumericData.cpp:36-59 | the body of a list of numbers is its first 16380 words, highest byte first |
| WireImages.KindsOfTypes | Common/Libs/Server/Command/Commands.h:28-55 | which class each of the nine type IDs gets |
| Frames.BodyCrosses | Common/Libs/Server/Protocol/SerDes.cpp:7-58 | type ID and payload survive `SerializeCommand` and `ParsePacket` with `GetCommand` |
| Payloads.RoundTrip | Common/Libs/Server/Command/ACommandStandardDoubleString.cpp:4-50 | encode on one host, decode on another: a payload arrives cut to what fits, and only the pair of empty strings and the empty list of numbers are refused |
| Payloads.DoubleStringRoundTrip | Common/Libs/Server/Command/ACommandStandardDoubleString.cpp:4-50 | f' is the first min(\|f\|, 65519) bytes and s' the first min(\|s\|, 65519 - \|f'\|) bytes, unless both strings are empty |
| Payloads.NumericDataRoundTrip | Common/Libs/Server/Command/ACommandStandardNumericData.cpp:6-59 | up to 16380 words arrive in order on any host; an empty list is refused |
| Payloads.LosslessIff | Common/Libs/Server/Command/ICommand.h:42-45 | exactly which payloads arrive whole |
| Payloads.AcceptedIsCanonical | Common/Libs/Server/Command/ACommandStandardStringList.cpp:6-43 | a body that Init accepts (signals aside) is what Serialize writes for the result |
| Payloads.BodyFits | Common/Libs/Server/Command/ACommandStandardMessage.cpp:16-25 | no body is longer than 65521 bytes |
| Payloads.HostFree | Common/Libs/Server/Protocol/Endian.h:8-37 | a body has the same bytes whatever host writes it |
| Payloads.InitIsUndefinedIff | Common/Libs/Server/Command/ACommandStandardDoubleString.cpp:4-25 | Init has no defined result exactly for a double string whose first two bytes spell 0 or 1 |
| Endian.WireImage16 | Common/Libs/Server/Protocol/Endian.h:8-13 | a swapped 16-bit word lies in every host's memory highest byte first |
| Endian.WireImage32 | Common/Libs/Server/Protocol/Endian.h:15-23 | the same for 32 bits |
| Endian.WireImage64 | Common/Libs/Server/Protocol/Endian.h:25-37 | the same for 64 bits |
| Endian.Crossing32 | Common/Libs/Server/Protocol/Endian.h:15-23 | what one host swaps and stores, any other loads and swaps back |
| Sessions.Session.ReadHeader | Common/Libs/Server/User/Session.cpp:51-126 | the read loop on the objects delivers exactly what `ReadStream` says, stops for the reason it says, sends the disconnect notice and closes the user |
| Sessions.Session.RequestDisconnect | Common/Libs/Server/User/Session.cpp:128-141 | what is sent last is the packet of the disconnect notice, and the user is closed |
| Sessions.Session.Send | Common/Libs/Server/User/Session.cpp:33-49 | what goes to the socket is the command's packet |
| Sessions.Packet.ParseHeader | Common/Libs/Server/Protocol/Packet.cpp:12-32 | accepts exactly a matching magic number and version with a length of at least the header; a refused header changes nothing |
| Sessions.Packet.ParseBody | Common/Libs/Server/Protocol/Packet.cpp:34-44 | takes the body exactly when the checksum field is zero |
| Sessions.Packet.Serialize | Common/Libs/Server/Protocol/Packet.cpp:56-77 | header and body, with the source's 16-bit casts |
| Sessions.SerDes.ParsePacket | Common/Libs/Server/Protocol/SerDes.cpp:7-31 | splits off a known type ID, or fails and keeps the old one |
| Sessions.SerDes.DeserializePacket | Common/Libs/Server/Protocol/SerDes.cpp:38-45 | a new command of the right kind, holding what Init makes of the body |
| CommandObjects.GetCommand | Common/Libs/Server/Command/Commands.h:28-55 | every type ID gets a new command of its class |
| CommandObjects.DoubleStringCommand.Init | Common/Libs/Server/Command/ACommandStandardDoubleString.cpp:4-25 | the object's strings, or its failed flag, are as the decoder function says |
| CommandObjects.StringListCommand.Init | Common/Libs/Server/Command/ACommandStandardStringList.cpp:6-23 | the same for 128-byte blocks |
| CommandObjects.NumericDataCommand.Init | Common/Libs/Server/Command/ACommandStandardNumericData.cpp:6-29 | the words are copied and then swapped in place |
| CommandObjects.NumericDataCommand.Serialize | Common/Libs/Server/Command/ACommandStandardNumericData.cpp:36-59 | the words are swapped in a copy; the object keeps its own |
| Screens.EveryRefreshIsFaithful | Common/Libs/Console/Console.cpp:37-88 | over any run of adding, editing, closing and refreshing: the picture is the last-added panel's content (blank where there is none), and every cell that differs from the last refresh is marked when the printer is entered |
| Screens.StepKeepsTracked | Common/Libs/Console/Console.cpp:37-88 | every step keeps each changed cell marked |
| Screens.RunIsTracked | Common/Libs/Console/Console.cpp:37-88 | so does every run from a blank screen |
| Screens.ComposedIsTop | Common/Libs/Console/Console.cpp:79-85 | the last-added panel over a cell decides what is shown |
| Screens.ComposedRemove | Common/Libs/Console/Panel/Panel.cpp:40-58 | taking a panel away changes the picture only under it |
| Panels.Console.Refresh | Common/Libs/Console/Console.cpp:79-88 | the buffer handed to the printer is the composed picture, the marks are the union of all marks, and both are cleared afterwards |
| Panels.Console.WriteRegion | Common/Libs/Console/Console.cpp:53-77 | copies the part of the panel that is on the console, adds its marks, leaves the rest alone, and clears the caller's marks |
| Panels.Console.AddPanel | Common/Libs/Console/Console.cpp:37-44 | a blank, fully marked panel goes on top, wherever it starts |
| Panels.Console.RemovePanel | Common/Libs/Console/Console.cpp:46-51 | takes out that panel and keeps the order of the others |
| Panels.PanelEditIsStep | Common/Libs/Console/Panel/Panel.cpp:60-239 | any edit of an open panel's object is an edit step of the screen |
| Panels.Panel.ClosePanel | Common/Libs/Console/Panel/Panel.cpp:40-58 | blanks and marks what the panel covered and takes it off the stack; a second call does nothing, and a panel whose console is gone only notes that it is closed |
| Panels.Panel.SetCell | Common/Libs/Console/Panel/Panel.cpp:66-87 | one cell, marked; nothing outside the panel |
| Panels.Panel.PrintAt | Common/Libs/Console/Panel/Panel.cpp:89-107 | text on one row, cut at its end, marked |
| Panels.Panel.PrintLines | Common/Libs/Console/Panel/Panel.cpp:109-127 | text line after line, cut at the panel's end, marked |
| Panels.Panel.ClearLines | Common/Libs/Console/Panel/Panel.cpp:129-142 | the rows inside the panel are blanked and marked |
| Panels.Panel.SetBackground | Common/Libs/Console/Panel/Panel.cpp:144-151 | every cell changes only its background, and all are marked |
| Panels.Panel.Scroll | Common/Libs/Console/Panel/Panel.cpp:153-167 | rows move up, blank rows come in, everything is marked |
| Panels.Panel.AppendLines | Common/Libs/Console/Panel/Panel.cpp:169-183 | rows move up to make room, and the text stands at the bottom |
| Panels.AppendKeepsText | Common/Libs/Console/Panel/Panel.cpp:169-183 | appended text is cut only where it is longer than the whole panel, and every character of it stands where it should, line after line above the bottom |
| Panels.Panel.FillRectangle | Common/Libs/Console/Panel/Panel.cpp:185-198 | exactly the part of the rectangle inside the panel is filled and marked |
| Panels.Panel.DrawRectangle | Common/Libs/Console/Panel/Panel.cpp:205-239 | exactly the outline of that part is drawn, and all of it is marked |
| Printer.AllMarkedPrintedIff | Common/Libs/Console/ConsoleWin32.cpp:32-71 | the condition on the marks alone: no marked cell is in a row that the blocks miss if and only if no fully marked row comes after one that is not |
| Printer.PrintDirtyBuffer | Common/Libs/Console/ConsoleWin32.cpp:32-71 | exactly which cells the loop over the rows writes, and that they include every marked cell if and only if no fully marked row comes after one that is not |
| Printer.MarkedRowIsMissed | Common/Libs/Console/ConsoleWin32.cpp:58-67 | two rows with only the lower one marked: the upper one is printed instead |
| Printer.PrintDirtyCellsInRow | Common/Libs/Console/ConsoleWin32.cpp:137-150 | exactly the marked cells of a row |

## Left out

- BoardRuns.EveryRun: supposes that the active block overlaps nothing after each frame's input. Without it `rowCounts` can break (`Towers.BlockedSpawnBreaksIndex`), exactly when an overlapping block locks (`Spawns.IndexKeptIff`); what the board does after such a lock is not claimed.
- HubMoves.GuardedRunIsDefined: a guard on whole runs, and one way only; a run that breaks it may still be lucky in its schedule. The exact condition, closure by closure, is `HubForecast.SendFindsUserIff`.
- Boards.TetrisBoard.CheckLines: score and combo are not modelled; the score table is filled by float multiplications that leave the int range at entry 40.
- BoardAI.TetrisBoardAI.HandleInput: an inactive block, which the source hands to the base class, is excluded; the base class then dereferences a null pointer, and `Update` never gets there.
- HubObjects.HubObject.RunEvent: a command's `Execute` is an entry in the record of executed commands and the move it may request; its other effects are not modelled.
- Panels.Panel.FillRectangle: rectangles that start outside the panel, where the unsigned subtraction wraps, are excluded.
- Panels.Panel.DrawRectangle: the same.
- Panels.Console.Refresh: the same for panels that start outside the console.
- Sessions.Session.ReadHeader: a body on which Init is undefined is excluded by a precondition; the source has no defined result for it.
- Fall speed and soft-drop intervals: the soft-drop flag is modelled, but when the drop timer runs out is an arbitrary input.
- Frame contents, colours and `Draw`; `ClearLine` passes the row as a column to the frame, so nothing is claimed about frames.
- Random generators and key polling: block types, delays and keys are arbitrary inputs.
- Guidance.PlanLeads: supposes that every place on the way is free. A plan is not tied to the block it was made for: the queue can outlive its block, a wall kick can shift a planned column, and where such a plan leads is not claimed.
- Handlers are atomic: the check of the closed flag and `SetHub` in `receiveUser` are one step here, two operations in C++.
- User IDs do not wrap at 32 bits.
- Boost.Asio, thread pools, shutdown and overlapping `Send` calls that share one write buffer: packets reach the wire whole and in order.
- A strand's closures keep their objects alive through shared pointers; lifetimes are not modelled.
- What a command does besides asking for a move, `GameRoom`, chat and lobby contents.
- A session whose user is already gone, which drops what it reads.
- `Console::Clear`, `RefreshWithDirtyMap` and the panels' destructor, which only calls `ClosePanel`.
- The platform calls behind printing, and console sizes that do not fit the Windows types.
- The client's engine, scenes and managers other than the input queue.
