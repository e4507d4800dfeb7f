# Quoridor rules engine in Dafny

A model of the rules engine of the marmelab Quoridor server (Go), with proofs
of what its code promises. It covers:

- the `game` package: positions, the board size rule, pawns, fences, the
  breadth-first search `Path`, and the `Game` state machine (`NewGame`,
  `AddFence`, `MovePawn` and their helpers);
- the two fence-slot helpers of the controller: `addAllPossibilities`
  enumerates every fence slot of a board, and `removeFences` drops the ones a
  player may not use.

One module per Go file:

| file | module | models |
|---|---|---|
| `wrappers.dfy` | `Wrappers` | `Option` and `Result` |
| `lists.dfy` | `Lists` | linear search, first-occurrence removal, subsequences |
| `positions.dfy` | `Positions` | `position.go`, and the direction constants and `GetDirection` (reconstructed) |
| `boards.dfy` | `Boards` | `board.go`, and `IsInBoard` (reconstructed) |
| `pawns.dfy` | `Pawns` | `pawn.go` |
| `fences.dfy` | `Fences` | `fence.go`, the edge-blocking rule (reconstructed), and the in-place slice removal |
| `moves.dfy` | `Moves` | `CanMove` and `GetPossibleMoves` (reconstructed from the movement tests) |
| `pathfinding.dfy` | `Pathfinding` | `pathfinding.go` |
| `games.dfy` | `Games` | `game.go` |
| `gamecontroller.dfy` | `GameController` | `addAllPossibilities` and `removeFences` of `gamecontroller.go` |

The form of each member follows the Go code:

- Value computations are functions: `Copy`, `NewBoard`, `Pawns.IndexOf`,
  `whoIsNext`, `isOver`.
- Loops are methods with invariants: the fence scans, `getGoalLine`,
  `IsCrossable`, `Path` and the enumeration.
- State that the Go code writes through a shared slice is an `array`:
  - `setCurrentPawnPosition` writes the pawn slice of the caller's game, so
    `Game.pawns` is an `array<Pawn>`;
  - `Fences.Remove` shifts elements inside the slice's backing array, so
    `Fences.Remove` and `Fences.RemoveFence` work on an array and a length.
- `removeFences` is modelled twice:
  - `GameController.RemoveFences` is the code as written. Its removals and
    the `range` loop share one array, and that array is `a`.
  - `GameController.RemoveFencesCorrected` reads an unshared copy. This is
    the behaviour the function's contract evidently intends; see "Findings".

The Go package calls several definitions that are not in the modelled files.
They are reconstructions here, with the behaviour the tests fix:

- `GetDirection` and the direction constants;
- `IsInBoard`;
- `CanMove`, and the legal-move set of `GetPossibleMoves`;
- `Positions.IndexOf`, as `Lists.IndexOf`;
- `Fences.RemoveF`, as `Fences.RemoveFence`.

The edge-blocking rule is the one the fence, jump and path tests agree on:

- a horizontal fence anchored at (c,r) separates rows r and r+1 in columns c
  and c+1;
- a vertical fence anchored at (c,r) separates columns c and c+1 in rows r and
  r+1.

Movement follows the jump tests:

- a pawn may take an orthogonal unblocked step onto a free cell;
- over an adjacent opponent it may jump straight on;
- when that jump leaves the board or is fenced, it may move to each free,
  unblocked diagonal beside the opponent;
- it never lands on a pawn.

## Model

| member | source | states |
|---|---|---|
| Positions.TranslateColumn | src/quoridor/game/position.go:9-12 | the column moves by the delta and the row is unchanged |
| Positions.TranslateRow | src/quoridor/game/position.go:14-17 | the row moves by the delta and the column is unchanged |
| Positions.Equals | src/quoridor/game/position.go:19-21 | holds exactly when the two positions are equal, so it is reflexive and symmetric |
| Positions.Copy | src/quoridor/game/position.go:23-28 | the copy is offset by exactly (deltaColumn, deltaRow); Copy(p, 0, 0) is p |
| Positions.GetDirection | src/quoridor/game/game.go:128-131 | reconstruction: a direction other than Unknown exactly for the four single orthogonal steps, and stepping that way from `from` lands on `to` |
| Positions.GetDirectionOfShift | test/quoridor/game/position_test.go:8-46 | a one-cell step in any direction gets that direction back |
| Positions.GetDirectionExamples | test/quoridor/game/position_test.go:8-56 | from (1,1): (1,0) is North, (2,1) East, (1,2) South, (0,1) West, and (3,1) Unknown |
| Boards.NewBoard | src/quoridor/game/board.go:12-20 | accepts exactly the odd sizes of at least 3, keeping the size; an even size fails the parity check first (so size 2 does too); an odd size below 3 is too small |
| Boards.ValidBoardShape | src/quoridor/game/game.go:27-30 | on an accepted size, the centre row (n-1)/2 lies strictly between the west and east edges |
| Boards.NewBoardExamples | test/quoridor/game/board_test.go:8-36 | 9 is accepted; 8 and 2 fail the parity check; 1 is too small |
| Boards.IsInBoardExamples | test/quoridor/game/board_test.go:38-58 | pins the reconstructed IsInBoard (called at src/quoridor/game/game.go:124 and src/quoridor/game/pathfinding.go:34): on a 9-board (0,1) is inside and (-1,1) is not; an accepted board holds its four corners and no cell one step beyond them |
| Pawns.PawnIndexOf | src/quoridor/game/pawn.go:11-18 | -1 exactly when no pawn stands on the cell; otherwise the smallest index of a pawn standing there, below the length |
| Pawns.PawnIndexOfIgnoresGoal | src/quoridor/game/pawn.go:13 | changing a pawn's goal never changes the result: only positions are compared |
| Fences.FenceEquals | src/quoridor/game/fence.go:9-11 | holds exactly when the anchors and the orientations are equal |
| Fences.NewPositionSquare | src/quoridor/game/fence.go:48-54 | north, east, south and west are the one-cell steps (0,-1), (1,0), (0,1) and (-1,0) |
| Fences.PositionSquareIsAdjacency | src/quoridor/game/fence.go:48-54 | the four cells of the square are exactly the cells sharing a side with the centre |
| Fences.PositionSquareSymmetric | src/quoridor/game/fence.go:48-54 | q is east of p exactly when p is west of q, and q is south of p exactly when p is north of q |
| Fences.StepBlockedSymmetric | test/quoridor/game/pathfinding_test.go:22-52 | reconstructed edge rule: a step is blocked exactly when the reverse step is, and only steps between adjacent cells are ever blocked |
| Fences.IndexOf | src/quoridor/game/fence.go:15-22 | -1 exactly when the fence is absent; otherwise the smallest index holding it |
| Fences.Contains | src/quoridor/game/fence.go:37-39 | true exactly when at least one of the two fences is in the list |
| Fences.RemoveAt | src/quoridor/game/fence.go:32-34 | the slice keeps the elements before the index and shifts the later ones down by one, in order; the backing array's last slot keeps its old value |
| Fences.Remove | src/quoridor/game/fence.go:32-34 | the array after the in-place shift, and a length one less |
| Fences.RemoveFenceAt | src/quoridor/game/fence.go:24-30 | the live slice is the input with its first occurrence of the fence dropped; an absent fence leaves array and length unchanged; a present one shortens the slice by one |
| Fences.RemoveFence | src/quoridor/game/fence.go:24-30 | the array and length after the in-place removal are those of RemoveFenceAt |
| Moves.CanMoveFacts | src/quoridor/game/pathfinding.go:34 | reconstruction of the three-argument CanMove: symmetric; only ever joins two cells GetDirection names, the second one step from the first that way; with no fences, exactly adjacency |
| Moves.CanMovePawnStep | src/quoridor/game/game.go:132 | reconstruction of the four-argument CanMove, as membership in the reconstructed GetPossibleMoves: a single step is legal exactly when it stays on the board, crosses no fence and lands on a free cell |
| Moves.OfferedIsNear | src/quoridor/game/game.go:132 | reconstruction of GetPossibleMoves: every legal destination is one or two steps from the start |
| Moves.PossibleMovesSafe | test/quoridor/game/game_test.go:300-334 | reconstruction of GetPossibleMoves (used through CanMove at src/quoridor/game/game.go:132): every legal destination is on the board and free of pawns; it is one unblocked step away, or two unblocked steps over an occupied cell |
| Moves.PlainStepIsLegal | test/quoridor/game/game_test.go:213-264 | a free, unblocked neighbour on the board is legal, and is the only destination that direction offers |
| Moves.BlockedDirectionOffersNothing | test/quoridor/game/game_test.go:266-281 | a direction whose first step leaves the board or crosses a fence offers no destination |
| Moves.StraightJumpIsLegal | test/quoridor/game/game_test.go:406-418 | over an adjacent opponent, a free, unblocked cell beyond it is legal, and then that direction offers no diagonal |
| Moves.DiagonalsWhenJumpUnavailable | test/quoridor/game/game_test.go:435-486 | when the straight jump leaves the board or is fenced, that direction offers exactly the diagonals beside the opponent |
| Moves.DiagonalWhenJumpOffBoard | test/quoridor/game/game_test.go:420-433 | when the jump leaves the board, each free diagonal beside the opponent that no fence cuts off is legal |
| Moves.StartMovesOnThreeBoard | test/quoridor/game/game_test.go:489-498 | from the start of a 3x3 game, pawn 1's legal moves are exactly {(0,0), (1,1), (0,2)} |
| Moves.FencedJumpMovesOnThreeBoard | test/quoridor/game/game_test.go:500-511 | pawn 1 at (1,1) facing pawn 2 at (2,1), with a horizontal fence at (1,1): exactly {(1,0), (2,0), (0,1)} |
| Pathfinding.ExpandNeighbours | src/quoridor/game/pathfinding.go:31-39 | the search invariant is kept: every in-board neighbour that no fence cuts off is now seen; the new queue is the old one followed, in order, by newly seen cells at the next distance |
| Pathfinding.Path | src/quoridor/game/pathfinding.go:11-42 | -1 exactly when no destination is reachable by unblocked steps on the board; otherwise some destination is reachable in that many steps and none in fewer (the shortest distance) |
| Pathfinding.PathWithoutFences | test/quoridor/game/pathfinding_test.go:8-20 | on an empty 3x3 board, the east column is reachable from (0,1) within two steps |
| Pathfinding.PathWithVerticalFences | test/quoridor/game/pathfinding_test.go:22-36 | with vertical fences at (0,0) and (1,1), the east column is still reachable from (0,1) |
| Pathfinding.NoPathWithFences | test/quoridor/game/pathfinding_test.go:38-52 | with vertical (0,0) and horizontal (0,1), no cell of the east column is reachable from (0,1) |
| Games.InitialPawns | src/quoridor/game/game.go:27-31 | pawn 1 at (0,(n-1)/2) heading east and pawn 2 at (n-1,(n-1)/2) heading west; on an accepted size both are on the board, on the centre row, off their goal column, and on distinct cells |
| Games.NewGame | src/quoridor/game/game.go:21-34 | fails exactly when NewBoard fails, with its reason; otherwise a game with fresh initial pawns, turn 1, not over, no fences and that board, which is valid |
| Games.WhoIsNext | src/quoridor/game/game.go:156-161 | for a turn in 1..n, the next turn is turn mod n + 1, so it stays in 1..n |
| Games.TurnsCycle | src/quoridor/game/game.go:156-161 | after k turns from t, the turn is (t-1+k) mod n + 1 |
| Games.TurnReturns | src/quoridor/game/game.go:156-161 | after n turns, the turn comes back to the player it started from |
| Games.CurrentPawnFacts | src/quoridor/game/game.go:163-165 | in a valid game the pawn whose turn it is stands on the board, heads east exactly on turn 1, and has a goal isOver can judge |
| Games.GoalLine | src/quoridor/game/game.go:105-117 | one cell per row, row r at index r; a cell is in it exactly when it is on the board in the goal column (size-1 for East, 0 otherwise) |
| Games.GetGoalLine | src/quoridor/game/game.go:105-117 | the appending loop builds exactly GoalLine |
| Games.IsOver | src/quoridor/game/game.go:145-154 | a verdict exactly for East and West, otherwise GoalNotSupported; for a pawn on the board, over exactly when it stands on its goal line |
| Games.OverlapsSymmetric | src/quoridor/game/game.go:61-90 | the overlap rule does not depend on which of the two fences was placed first |
| Games.HasAlreadyAFenceAtTheSamePosition | src/quoridor/game/game.go:61-69 | true exactly when some placed fence has that anchor, whatever its orientation |
| Games.HasNeighbourFence | src/quoridor/game/game.go:71-90 | true exactly when a placed fence of the same orientation sits east or west (horizontal) or north or south (vertical) of the candidate |
| Games.IsCrossable | src/quoridor/game/game.go:93-103 | true exactly when, with the fence added, every pawn can still reach its goal line |
| Games.AddFence | src/quoridor/game/game.go:37-59 | checks in order: game over, then overlap, then no path to goal; success appends exactly the fence, passes the turn, and leaves pawns and `over` alone |
| Games.AddFenceKeepsValid | src/quoridor/game/game.go:45-50 | an accepted fence keeps the game valid |
| Games.MoveCheck | src/quoridor/game/game.go:121-134 | corrected checks: no error exactly when the game is not over, the destination is on the board, and it is a legal move; over and off-board give their own errors |
| Games.AcceptedMoveIsSafe | src/quoridor/game/game.go:132-134 | a destination the corrected checks accept is free, and reached by one unblocked step or two unblocked steps over a pawn |
| Games.FarIsIllegal | src/quoridor/game/game.go:132-134 | an on-board destination more than two steps away is refused as an illegal move |
| Games.CheckMove | src/quoridor/game/game.go:121-134 | the if-chain at the head of MovePawn, without the direction check, returns exactly MoveCheck's verdict and leaves the pawns unchanged |
| Games.MoveCheckAsWritten | src/quoridor/game/game.go:121-134 | the source's checks: they accept exactly the adjacent destinations that MoveCheck accepts; a finished game is refused as over, an off-board destination as out of board, and a non-adjacent destination on the board of a live game as unreachable |
| Games.SetCurrentPawnPosition | src/quoridor/game/game.go:167-170 | only the current pawn's position changes, in the shared array |
| Games.FinishMove | src/quoridor/game/game.go:135-142 | the current pawn moves to the destination; isOver's error is returned, or the game with `over` set and the turn passed; on a valid game and an on-board destination, the result is valid and over exactly when the destination is on the goal line |
| Games.MoveKeepsValid | src/quoridor/game/game.go:135-142 | moving the current pawn of a valid game onto the board and passing the turn keeps the game valid |
| Games.MovePawn | src/quoridor/game/game.go:120-143 | a refusal leaves the pawns unchanged; otherwise only the current pawn moves, then isOver's error or the game with `over` set and the turn passed; on a valid game, success exactly when MoveCheck accepts, and the result is valid and over exactly when the pawn reached its goal line |
| Games.SameAnchorOverlaps | test/quoridor/game/game_test.go:49-83 | a fence on the anchor of a placed fence is refused, in either orientation |
| Games.NeighbourOverlaps | test/quoridor/game/game_test.go:85-155 | horizontal fences anchored side by side, or vertical ones one above the other, overlap both ways |
| Games.CrossingFencesDoNotOverlap | test/quoridor/game/game_test.go:157-193 | a vertical fence between two horizontal ones, and a horizontal one between two vertical ones, pass the overlap checks (the path check is not pinned) |
| Games.ClosingFenceCutsGoal | test/quoridor/game/game_test.go:195-211 | on 3x3, horizontal (0,1) after vertical (0,0) does not overlap but leaves pawn 1 no path |
| Games.FenceStopsMove | test/quoridor/game/game_test.go:300-316 | after pawn 1 places the vertical fence at (1,0) the turn passes to pawn 2, whose step from (2,1) to (1,1) crosses it and is refused as an illegal move, by the source's checks and the corrected ones alike |
| Games.JumpRefusedAsWritten | test/quoridor/game/game_test.go:406-418 | the jump of the jump test is refused as unreachable by the source's checks and accepted by MoveCheck |
| Games.FarMoveRefused | test/quoridor/game/game_test.go:283-298 | (2,2) from the start is refused as unreachable as written, and as an illegal move by MoveCheck, which is the error the test expects |
| GameController.AddAllPossibilities | src/quoridor/controller/gamecontroller.go:62-72 | the nested loops build the row-major slot enumeration of the board |
| GameController.SlotsCount | src/quoridor/controller/gamecontroller.go:62-72 | m anchors per row over r rows give 2mr slots |
| GameController.SlotsMembers | src/quoridor/controller/gamecontroller.go:65-69 | the slots listed are exactly those anchored in [0,m-1] x [0,r-1], none twice |
| GameController.SlotsIndex | src/quoridor/controller/gamecontroller.go:65-69 | the anchor (column,row) has its horizontal slot at index 2(m*row+column) and its vertical slot next |
| GameController.AllPossibilitiesFacts | src/quoridor/controller/gamecontroller.go:62-72 | a board of size n has 2(n-1)^2 slots, exactly those anchored in [0,n-2]^2, none twice |
| GameController.TargetsAreOverlaps | src/quoridor/controller/gamecontroller.go:80-97 | the slots dropped around a placed fence are exactly those AddFence would refuse as overlapping it |
| GameController.SlotsToDrop | src/quoridor/controller/gamecontroller.go:80-102 | a placed slot drops itself, its two same-orientation neighbours and its crossing slot; an unplaced slot that would cut a pawn off drops itself; any other slot drops nothing |
| GameController.RemoveFences | src/quoridor/controller/gamecontroller.go:74-105 | the as-written loop: iteration i examines whatever the shared array holds at index i by then |
| GameController.StepsSubseq | src/quoridor/controller/gamecontroller.go:74-105 | as written, the result is an order-preserving subsequence of the input: it only removes |
| GameController.StepsExamine | src/quoridor/controller/gamecontroller.go:79-103 | as written, each iteration removes exactly the examined element's drop list from the live slice |
| GameController.HeadStaysFrozen | src/quoridor/controller/gamecontroller.go:76-79 | once a slot has shifted to index 0 after the first iteration, with no placed slot after it, no later iteration removes it |
| GameController.PlacedFenceOfferedAsWritten | src/quoridor/controller/gamecontroller.go:76-81 | on 3x3 with H(0,0) and V(1,0) placed, the as-written loop offers the placed V(1,0); the corrected one does not |
| GameController.RemoveFencesCorrected | src/quoridor/controller/gamecontroller.go:74-105 | with an unshared copy, each input slot is examined once, in order |
| GameController.FilteredSubseq | src/quoridor/controller/gamecontroller.go:74-105 | the corrected result is an order-preserving subsequence of the enumeration |
| GameController.CorrectedOffers | src/quoridor/controller/gamecontroller.go:79-103 | on an enumeration without repeats, a slot is offered exactly when it is in it, does not cut a pawn off, and overlaps no placed slot; no placed fence is offered |

## Left out

- The server, the request and response encoding, storage, the service layer, `main.go`, and the exception wrapper: these are I/O and wiring.
- `CreateGame`, `GetGame`, `AddFence` and `AddFencePossibilities` of the controller: they look up and store games in an external cache. They also build a `Game` with a field layout that no longer matches `game.go`.
- The configuration is reduced to the board size. Its fence quota is never read.
- Games.NewGame: the id comes from a UUID library; here it is a parameter.
- Error messages are error kinds (`GameError`, `BoardError`), not strings.
- Go's `int` is 64 bits wide. Board sizes and coordinates are small, so the model uses unbounded integers and does not model overflow.
- Games.AddFence: placed fences are a value (`seq`). A Go `append` can write into a backing array that another copy of the game still uses (game.go:57 and game.go:94). That aliasing is not modelled.
- Games.AddFence, Games.IsCrossable, GameController.SlotsToDrop, GameController.RemoveFences and GameController.RemoveFencesCorrected require every pawn on the board. No game reachable from NewGame breaks this, because ValidGame holds after NewGame, AddFence and MovePawn. The requires also excludes the early returns for such a state: AddFence on a finished game, or with an overlapping fence, returns its error before Path runs. Path indexes its visited grid with the pawn's cell, so only a state past those checks would panic.
- Pathfinding.Path requires the source on the board: it indexes the visited grid with it.
- Games.MovePawn, Games.CheckMove, Games.FinishMove and Games.GetCurrentPawn require the turn to name a pawn. No game reachable from NewGame breaks this (ValidGame again). The requires also excludes the early returns for such a state: MovePawn on a finished game, or to an off-board destination, returns its error before getCurrentPawn indexes the pawn slice, and only past those checks would it panic.
- Games.MovePawn: uses the corrected MoveCheck, without the direction check of game.go:128-131. The checks as written are Games.MoveCheckAsWritten; see "Findings".
- Moves.CanMovePawn: the four-argument CanMove of game.go:132 is not in the modelled files. The reconstruction also takes the board, because the diagonal rule depends on whether the straight jump leaves the board.
- Path calls CanMove with three arguments (pathfinding.go:34). Moves.CanMove is that three-argument form.
- GameController.RemoveFences: the array is exactly as long as the enumeration. Any spare capacity of the Go slice plays no part in the result, so it is not modelled.
- GameController.SlotsToDrop: the source calls RemoveF on the examined slot before it computes the neighbour slots. The model computes the whole drop list first, then removes its slots in the same order. The neighbour slots depend only on the examined slot, so the result is the same.
- GameController.Blocked: the fences that would cut a pawn off are a ghost set, defined through IsCrossable's contract. The specifications quantify over it; the methods call IsCrossable itself.

## Findings

| source | as written | input that shows it | evidently intended | confidence | as-written member | corrected member |
|---|---|---|---|---|---|---|
| src/quoridor/game/game.go:128-131 | MovePawn refuses any destination GetDirection cannot name, before the movement rules run. GetDirection (reconstructed from test/quoridor/game/position_test.go:48-56) names only single orthogonal steps, so every jump and diagonal move is refused as unreachable | 3x3 board, pawn 1 at (1,1), pawn 2 at (2,1) to move to (0,1): the jump of test/quoridor/game/game_test.go:406-418 is refused. Also (2,2) from the start, which test/quoridor/game/game_test.go:283-298 expects to fail with the movement-rule error, fails as unreachable | only the movement rules decide: jumps and diagonals are allowed, and (2,2) is an illegal move | medium (depends on the reconstructed GetDirection); not executed | Games.MoveCheckAsWritten, Games.JumpRefusedAsWritten | Games.MoveCheck, Games.MovePawn |
| src/quoridor/controller/gamecontroller.go:76-79 | `append(allPossibilities[0:0], allPossibilities...)` makes possibilities share the backing array that the range loop reads. Each removal shifts the slots still to be examined, so some are never examined | 3x3 board with H(0,0) and V(1,0) placed. The first iteration removes H(0,0), its east neighbour and V(0,0), which moves V(1,0) to index 0. The loop has already passed index 0, so the placed V(1,0) is offered as a possible fence | every slot is examined once, so no placed fence, and no slot overlapping one, is offered | high; not executed | GameController.RemoveFences, GameController.PlacedFenceOfferedAsWritten | GameController.RemoveFencesCorrected, GameController.CorrectedOffers |
