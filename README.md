# kttrs rules engine in Dafny

This project models the rules engine of kttrs, an Android falling-block game.
It covers both generations of the engine and the two bag randomizers that feed them:

- **Current engine** (`vsh/kttrs/model/GameViewModel.kt`), in three modules:
  - `Engine` holds the game state as a datatype and the pure checks: collision, ghost projection, T-Spin corners, full rows, scoring, the speed curve and hold. The board scans are modelled as read-only loop methods, each proved against a specification function.
  - `EngineCommands` states every command as a transition of the whole view-model state. That state is the published `GameState`, the `lastMoveIsRotation` flag, whether a lock delay is armed, the line clears waiting out their delay, and the high-score saves requested.
  - `EngineViewModel.GameViewModel` is the class. Its methods update these fields in place, and each one is proved equal to the matching transition. The loops inside `hardDrop`, `rotatePiece` and `placePiece` are separate methods that change nothing (`DropTarget`, `TryKicks`, `LockResult`). Each is proved against the function that specifies it.
- **Clear delay** (`ClearDelay`): what the code does when commands arrive while a line clear waits out its 200 ms delay (see Findings).
- **Older engine** (`com/example/kttrs/GameViewModel.kt`): module `Legacy`, plus the class `Legacy.LegacyGame`. It turns a piece by rotating its matrix, tries the sideways kicks 0, 1, -1, 2, -2 (the loop is the method `TryOffsets`; the work of `placePiece` after its top check is the method `LockState`), scores 100 points per line, and clears lines with a list that it mutates.
- **Board rules shared by both engines** (`Grid`): the collision test, stamping a piece into the board, full-row detection and the row collapse.
- **Randomizers** (`Bags`, `SevenBag`, `ThirtyFiveBag`): a queue that is refilled with a shuffled set only when empty. The shuffle result is a parameter: any ordering of the same multiset.
- **Constant tables** (`Pieces`, `Constants`): the `PieceType` catalogue and the `Piece` defaults, and the older engine's board size, shapes and colours.

## Inputs and how they enter the model

- The current engine's board size, per-rotation shape lookup (`getShapeForRotation`) and kick tables (`iKickData`, `commonKickData`) are defined in files that are not part of this model. They are parameters bundled as `Engine.Rules`.
- `Engine.WellFormedRules` states what the engine relies on:
  - every shape has an occupied cell;
  - a spawned piece is inside the walls.
- A piece spec is either a standard type or a custom spec whose declared type may be absent. This matches how the tests build pieces. A spec with no type locks with cell code 1, from `type?.ordinal ?: 0` plus one.
- Random draws are parameters:
  - `drawn`: the type the randomizer hands out next;
  - `shuffled`: the result of `shuffle()`;
  - the index passed to `Legacy.RandomPiece`.
- The persisted high score is a parameter. A requested save is appended to the `highScoreSaves` log.
- Timers are discrete commands:
  - one gravity tick;
  - the lock delay firing;
  - the end of a line-clear delay.

  `viewModelScope` runs on the main dispatcher immediately. So a lock that fills no row resolves inside `placePiece`. A lock that fills rows publishes the stamped board and `clearingLines`, and its resolution is queued in `pendingClears` until `ClearTimer`.

## Where the code departs from the game's evident design (the model follows the code)

- Commands are not blocked while lines are clearing. `movePiece`, `softDrop`, `hardDrop`, `holdPiece` and `rotatePiece` check only `gameOver`. The gravity loop and the lock delay keep running too. `EngineViewModel.GameViewModel` follows the code. The intended guard is modelled separately in `ClearDelay.GuardedStep`.
- `holdPiece` keeps the piece's position when it goes into the hold, and brings the held piece back at the position it was held at, as the repository's own test cases expect.
- `restartGame` replaces the game state but keeps these as they were:
  - the `lastMoveIsRotation` flag;
  - a pending lock delay;
  - suspended clears.
- The lock-delay job locks the piece without checking `gameOver`.
- In `hardDrop`, the drop bonus is added after `placePiece`. So a high-score save triggered by that lock uses the score without the bonus.
- The older engine builds `Piece(shape = …, color = …, x = …, y = …)`. That record has a `color` field and no `type`, so its pieces are modelled as `Legacy.FallingPiece`, a record with those fields. The record in `Piece.kt` is `Pieces.Piece`.

## Model

| member | source | states |
|---|---|---|
| Pieces.Ordinal | app/src/main/java/com/example/kttrs/Piece.kt:3-14 | the ordinal is below 7, and `entries` holds the type at that position |
| Pieces.DefaultPiece | app/src/main/java/com/example/kttrs/Piece.kt:16-23 | a `Piece` built from a type alone has an empty shape, x = 0, y = 0, rotation 0 and drawable 0 |
| Pieces.ShapesAreTetrominoes | app/src/main/java/com/example/kttrs/Piece.kt:7-13 | every `PieceType` shape is a nonempty rectangular 0/1 matrix with exactly four ones |
| Pieces.ShapeDimensions | app/src/main/java/com/example/kttrs/Piece.kt:7-13 | O is the 2x2 all-ones block, I is one row of four, and T/S/Z/J/L are 2 rows of 3 |
| Constants.IndexOf | app/src/main/java/com/example/kttrs/GameViewModel.kt:149 | Kotlin `indexOf`: the first position holding the colour, or -1 exactly when it is absent |
| Constants.BoardSize | app/src/main/java/com/example/kttrs/GameConstants.kt:6-7 | the board is 10 columns by 20 rows |
| Constants.ShapesMatchPieceTypes | app/src/main/java/com/example/kttrs/GameConstants.kt:9-17 | `shapes` has 7 entries, and entry k is the matrix of the k-th `PieceType` (I, O, T, S, Z, J, L) |
| Constants.ShapesAreTetrominoes | app/src/main/java/com/example/kttrs/GameConstants.kt:10-16 | every entry of `shapes` is a rectangular 0/1 matrix with four ones |
| Constants.ColorsAligned | app/src/main/java/com/example/kttrs/GameConstants.kt:19-27 | `colors` is as long as `shapes`, and `colors.indexOf(colors[k]) == k`, so a shared random index gives both tables the same entry |
| Grid.IsValidPosition | app/src/main/java/vsh/kttrs/model/GameViewModel.kt:483-500 | the result is false exactly when some occupied cell has x < 0, x >= W or y >= H, or has y >= 0 and a filled board cell; cells above the top never collide |
| Grid.FitsInBounds | app/src/main/java/vsh/kttrs/model/GameViewModel.kt:483-500 | a valid position has every occupied cell inside the columns and above the floor |
| Grid.StampCells | app/src/main/java/vsh/kttrs/model/GameViewModel.kt:393-401 | the nested write loops set every occupied cell of the piece to the code, keep every other cell, and keep the board's size |
| Grid.StampSpec | app/src/main/java/vsh/kttrs/model/GameViewModel.kt:393-401 | a piece that lands on the board writes the code into each of its cells, all inside the board, keeps every other cell, and keeps the board's size |
| Grid.StampTwice | app/src/main/java/vsh/kttrs/model/GameViewModel.kt:393-401 | stamping the same piece again leaves the board as it is |
| Grid.StampKeepsFilled | app/src/main/java/vsh/kttrs/model/GameViewModel.kt:393-401 | stamping keeps the board's size, and a filled cell stays filled |
| Grid.FitsOnEmptierBoard | app/src/main/java/vsh/kttrs/model/GameViewModel.kt:483-500 | a position valid on a board is valid on any board of the same size whose filled cells are a subset |
| Grid.FullRowsBelowSpec | app/src/main/java/vsh/kttrs/model/GameViewModel.kt:472-480 | the rows collected so far are ascending, and are exactly the full rows above the scan point |
| Grid.FullRowsSpec | app/src/main/java/vsh/kttrs/model/GameViewModel.kt:472-480 | the full-row list is strictly ascending and holds exactly the indices of rows with no zero cell |
| Grid.NonFullWhenNoneFull | app/src/main/java/vsh/kttrs/model/GameViewModel.kt:441-443 | a board with no full row keeps all its rows |
| Grid.SurvivorsOfFullRows | app/src/main/java/vsh/kttrs/model/GameViewModel.kt:438 | filtering out the indices of the full rows keeps exactly the non-full rows, in order |
| Grid.CollapseFullRows | app/src/main/java/vsh/kttrs/model/GameViewModel.kt:438-440 | `newRows + boardAfterClearing` has the original height, k empty rows on top (k = rows cleared), then the surviving rows in their original order, each of the board's width |
| Engine.Rem | app/src/main/java/vsh/kttrs/model/GameViewModel.kt:315 | Kotlin `%`: the remainder lies in 0..b-1 for a nonnegative dividend and in -(b-1)..0 for a negative one, and `Quot(a, b) * b + r == a` with the truncating quotient, which fixes its value |
| Engine.QuotTruncates | app/src/main/java/vsh/kttrs/model/GameViewModel.kt:447 | Kotlin `/` on `Int` rounds toward zero: a negative dividend gives the negated quotient of its magnitude |
| Engine.TargetRotationInverse | app/src/main/java/vsh/kttrs/model/GameViewModel.kt:315 | from rotation 0..3, `(r+1)%4` and `(r+3)%4` stay in 0..3, and each undoes the other |
| Engine.LandingSpec | app/src/main/java/vsh/kttrs/model/GameViewModel.kt:512-523 | the landing row is at or below the piece, every row on the way down is valid, and the row below it is not |
| Engine.CalculateGhostPiecePosition | app/src/main/java/vsh/kttrs/model/GameViewModel.kt:512-523 | the loop returns the piece at its landing row, with x and rotation unchanged, grounded |
| Engine.FirstFitSpec | app/src/main/java/vsh/kttrs/model/GameViewModel.kt:323-343 | the kick search fails exactly when no kick is valid; otherwise it returns the first valid kick in table order, applied as (x+dx, y-dy) |
| Engine.FirstFitFits | app/src/main/java/vsh/kttrs/model/GameViewModel.kt:325-331 | a committed kick is valid and has the target rotation |
| Engine.LandingInBounds | app/src/main/java/vsh/kttrs/model/GameViewModel.kt:280-290 | the dropped piece stays inside the walls and above the floor |
| Engine.IsTSpin | app/src/main/java/vsh/kttrs/model/GameViewModel.kt:346-371 | true exactly for a T piece with at least 3 of the 4 diagonal corners around (x+1, y+1) off the board or filled |
| Engine.CellCode | app/src/main/java/vsh/kttrs/model/GameViewModel.kt:397-398 | the code is in 1..7: the type's ordinal plus one (`entries[code-1]` is the type), and exactly 1 for a spec without a type |
| Engine.GetClearedLines | app/src/main/java/vsh/kttrs/model/GameViewModel.kt:472-480 | the loop returns exactly the indices of the full rows, ascending |
| Engine.CellAboveTop | app/src/main/java/vsh/kttrs/model/GameViewModel.kt:376-385 | the first loop of `placePiece` reports game over exactly when an occupied cell is above the top row |
| Engine.LandsWhenNotAboveTop | app/src/main/java/vsh/kttrs/model/GameViewModel.kt:393-401 | a piece inside the walls with no cell above the top writes only cells that exist on the board |
| Engine.StampedPieceSpec | app/src/main/java/vsh/kttrs/model/GameViewModel.kt:393-401 | the copied and stamped board keeps its size, holds the stamped code (the lock uses `CellCode` of the type) in every occupied cell of the piece, each inside the board, and the old value in every other cell |
| Engine.PlaceSpec | app/src/main/java/vsh/kttrs/model/GameViewModel.kt:374-419 | a lock fails exactly when a cell is above the top. Otherwise: the occupied cells get ordinal + 1 and the other cells are kept; the cleared rows are the full rows, ascending; the points follow the T-Spin table (800/1200/400) only after a rotation of a T with 3 corners blocked, and the normal table (100/300/500/800, else 0) otherwise |
| Engine.ResolveSpec | app/src/main/java/vsh/kttrs/model/GameViewModel.kt:431-461 | resolving a lock: the board is k empty rows over the non-full rows; lines += k; score += points; the speed is `Speed` of the new line count, so in 100..500; current := next and a new next; canHold; clearingLines := []; game over exactly when already over or the new piece is invalid |
| Engine.SpeedCurve | app/src/main/java/vsh/kttrs/model/GameViewModel.kt:447-458 | `max(100, 500 - 50*(lines/10))` equals 100 from 80 lines and 500 - 50*(lines/10) below that (500 under 10 lines, 450 from 10 to 19, ...), stays in 100..500, and never rises with more lines |
| Engine.HoldSpec | app/src/main/java/vsh/kttrs/model/GameViewModel.kt:254-274 | hold is a no-op when game over or already used. Otherwise the current piece is held and hold is spent; with an empty hold the next piece comes in and a new next is drawn, else the held piece comes back and next is kept; board, score and lines never change |
| Engine.HoldTwice | app/src/main/java/vsh/kttrs/model/GameViewModel.kt:255-271 | a second hold before the next lock does nothing |
| Engine.HoldKeepsValid | app/src/main/java/vsh/kttrs/model/GameViewModel.kt:254-274 | hold keeps every piece of the state inside the walls |
| Engine.NewGameSpec | app/src/main/java/vsh/kttrs/model/GameViewModel.kt:85-88 | a new game has an empty board of the configured size, score and lines 0, speed 500, nothing held, hold available, and not over |
| EngineCommands.PlacePieceKeepsInv | app/src/main/java/vsh/kttrs/model/GameViewModel.kt:374-437 | a lock keeps the board's size and the pieces inside the walls, and queues only clears whose rows are exactly their board's full rows |
| EngineCommands.ResumeKeepsInv | app/src/main/java/vsh/kttrs/model/GameViewModel.kt:438-461 | resolving a queued clear keeps the board's size and every piece inside the walls |
| EngineCommands.MoveKeepsInv | app/src/main/java/vsh/kttrs/model/GameViewModel.kt:209-226 | a sideways move keeps that invariant |
| EngineCommands.SoftDropKeepsInv | app/src/main/java/vsh/kttrs/model/GameViewModel.kt:228-252 | a soft drop keeps that invariant |
| EngineCommands.GravityKeepsInv | app/src/main/java/vsh/kttrs/model/GameViewModel.kt:179-189 | a gravity tick keeps that invariant |
| EngineCommands.HardDropKeepsInv | app/src/main/java/vsh/kttrs/model/GameViewModel.kt:276-297 | the piece has an occupied cell, and a hard drop keeps that invariant |
| EngineCommands.RotateKeepsInv | app/src/main/java/vsh/kttrs/model/GameViewModel.kt:308-344 | a rotation keeps that invariant |
| EngineCommands.FinishLineClearKeepsInv | app/src/main/java/vsh/kttrs/model/GameViewModel.kt:437-461 | the end of a clear delay keeps that invariant |
| EngineCommands.StepKeepsInv | app/src/main/java/vsh/kttrs/model/GameViewModel.kt:176-344 | every command and timer keeps that invariant |
| EngineCommands.GameOverIsSticky | app/src/main/java/vsh/kttrs/model/GameViewModel.kt:456 | no command or timer turns a finished game back on |
| EngineCommands.GameOverFreezesCommands | app/src/main/java/vsh/kttrs/model/GameViewModel.kt:179-309 | with the game over, moves, drops, hold, rotation and the gravity tick change nothing |
| EngineCommands.StepNeverLowersScore | app/src/main/java/vsh/kttrs/model/GameViewModel.kt:238-296 | score and line count never decrease |
| EngineCommands.PlacePieceNeverLowersScore | app/src/main/java/vsh/kttrs/model/GameViewModel.kt:405-445 | a lock never lowers the score |
| EngineCommands.PlacePieceNeverLowersLines | app/src/main/java/vsh/kttrs/model/GameViewModel.kt:446 | a lock never lowers the line count |
| EngineCommands.PlaceAboveTopOnlyEndsGame | app/src/main/java/vsh/kttrs/model/GameViewModel.kt:376-385 | a lock with a cell above the top sets only `gameOver`; board, flag and queue are untouched |
| EngineCommands.PlacePieceTiming | app/src/main/java/vsh/kttrs/model/GameViewModel.kt:421-443 | a lock filling no row resolves at once (next piece in, points added). One that fills rows publishes them, keeps piece and score until the delay ends, and queues the clear |
| EngineCommands.HardDropLandsAtGhost | app/src/main/java/vsh/kttrs/model/GameViewModel.kt:276-297 | a hard drop locks at the ghost's row and adds 2 points per row descended, plus the line points when the lock resolves at once. The rotation flag is cleared. A cell above the top only ends the game. Otherwise the board is the piece stamped at the ghost's row: it is the new board at once when no row fills, and otherwise it is shown with its full rows, the piece stays, and that lock is queued |
| EngineCommands.SoftDropSpec | app/src/main/java/vsh/kttrs/model/GameViewModel.kt:228-252 | a soft drop moves one row for one point when the row below is valid, and otherwise only arms the lock delay |
| EngineCommands.RotateSpec | app/src/main/java/vsh/kttrs/model/GameViewModel.kt:308-344 | O pieces and finished games never rotate. Otherwise the piece stays when no kick is valid (or the table has no entry); a rotation commits the first valid kick in table order at `(r±1)%4` and sets the rotation flag |
| EngineViewModel.GameViewModel.constructor | app/src/main/java/vsh/kttrs/model/GameViewModel.kt:85-90 | the view model starts with a new game, no flag, no lock delay, nothing pending |
| EngineViewModel.GameViewModel.RestartGame | app/src/main/java/vsh/kttrs/model/GameViewModel.kt:142-145 | the fields become the restart transition of the old fields |
| EngineViewModel.GameViewModel.MovePiece | app/src/main/java/vsh/kttrs/model/GameViewModel.kt:209-226 | the fields become the move transition: a valid shift is committed, and the lock delay is re-armed only when grounded |
| EngineViewModel.GameViewModel.SoftDrop | app/src/main/java/vsh/kttrs/model/GameViewModel.kt:228-252 | the fields become the soft-drop transition |
| EngineViewModel.GameViewModel.HoldPiece | app/src/main/java/vsh/kttrs/model/GameViewModel.kt:254-274 | the fields become the hold transition |
| EngineViewModel.GameViewModel.UpdateStateAfterPiecePlaced | app/src/main/java/vsh/kttrs/model/GameViewModel.kt:445-469 | the lock resolves against the current state, and a save is logged only when the spawn ended the game with a score above the persisted one |
| EngineViewModel.GameViewModel.PlacePiece | app/src/main/java/vsh/kttrs/model/GameViewModel.kt:374-436 | the top check, board copy and stamp loops, row scan and scoring give the lock transition |
| EngineViewModel.GameViewModel.LockResult | app/src/main/java/vsh/kttrs/model/GameViewModel.kt:387-419 | the stamp loops, row scan and scoring compute exactly the lock the transition takes, and its rows are the full rows of its board |
| EngineViewModel.GameViewModel.FinishLineClear | app/src/main/java/vsh/kttrs/model/GameViewModel.kt:437-461 | the oldest suspended clear resumes and resolves |
| EngineViewModel.GameViewModel.HardDrop | app/src/main/java/vsh/kttrs/model/GameViewModel.kt:276-297 | the descend loop, lock and bonus give the hard-drop transition |
| EngineViewModel.GameViewModel.DropTarget | app/src/main/java/vsh/kttrs/model/GameViewModel.kt:280-289 | the descend loop stops at the landing row |
| EngineViewModel.GameViewModel.RotatePiece | app/src/main/java/vsh/kttrs/model/GameViewModel.kt:308-344 | the kick loop gives the rotation transition |
| EngineViewModel.GameViewModel.TryKicks | app/src/main/java/vsh/kttrs/model/GameViewModel.kt:323-343 | the kick loop finds what the first-fit search finds: the first valid kick in table order, or none |
| EngineViewModel.GameViewModel.GravityTick | app/src/main/java/vsh/kttrs/model/GameViewModel.kt:179-189 | fall one row and cancel the lock delay, or arm it when blocked |
| EngineViewModel.GameViewModel.LockDelayFires | app/src/main/java/vsh/kttrs/model/GameViewModel.kt:198-206 | when the delay ends, the piece locks if it is still grounded; the delay is then disarmed |
| ClearDelay.LockTimerPublishesClear | app/src/main/java/vsh/kttrs/model/GameViewModel.kt:198-206 | the lock delay firing on a grounded piece that fills rows publishes the stamped board and rows and queues one clear |
| ClearDelay.LockedPieceStaysGrounded | app/src/main/java/vsh/kttrs/model/GameViewModel.kt:393-401 | after stamping, the piece is still grounded, and stamping it again gives the same board |
| ClearDelay.HardDropRelocks | app/src/main/java/vsh/kttrs/model/GameViewModel.kt:276-297 | a hard drop during the delay locks the same piece again in place and queues a second clear of the same rows |
| ClearDelay.TwoClearsCountBoth | app/src/main/java/vsh/kttrs/model/GameViewModel.kt:445-446 | two queued clears each add their rows to the line count |
| ClearDelay.LockThenHardDropQueuesTwice | app/src/main/java/vsh/kttrs/model/GameViewModel.kt:421-437 | lock delay then hard drop queues two clears of the same rows |
| ClearDelay.HardDropDuringClearCountsRowsTwice | app/src/main/java/vsh/kttrs/model/GameViewModel.kt:421-446 | as written: lock, hard drop, and both clear timers count the rows twice |
| ClearDelay.PlacePieceQueuesAtMostOne | app/src/main/java/vsh/kttrs/model/GameViewModel.kt:432-436 | a lock with nothing pending queues at most one clear, and shows its board and rows |
| ClearDelay.GuardedStepKeepsOneClear | app/src/main/java/vsh/kttrs/model/GameViewModel.kt:432-437 | under the guard there is never more than one clear pending, and the screen shows its board and rows |
| ClearDelay.GuardedClearCountsRowsOnce | app/src/main/java/vsh/kttrs/model/GameViewModel.kt:437-446 | under the guard a clear collapses the on-screen board's full rows, counts them once and leaves nothing pending |
| ClearDelay.GuardedHardDropDuringClearCountsRowsOnce | app/src/main/java/vsh/kttrs/model/GameViewModel.kt:421-446 | the same four events under the guard count the rows once |
| ClearDelay.RestartDuringClearInheritsOldRows | app/src/main/java/vsh/kttrs/model/GameViewModel.kt:142-145 | as written: a clear pending at restart overwrites the new game's board with the old collapsed board and credits its rows and points |
| ClearDelay.RestartCancellingTimersStartsClean | app/src/main/java/vsh/kttrs/model/GameViewModel.kt:142-145 | after the corrected restart no old timer can fire, and the game is valid, empty and at zero |
| Bags.DrawsDrainBag | app/src/main/java/com/example/kttrs/SevenBagRandomizer.kt:17-22 | draws empty the current bag in order before the next shuffle is used |
| Bags.DrawsAreRounds | app/src/main/java/com/example/kttrs/SevenBagRandomizer.kt:10-22 | from an empty bag, m bag-sizes of draws give exactly the next m shuffles back to back |
| Bags.RepeatCount | app/src/main/java/vsh/kttrs/model/ThirtyFiveBagRandomizer.kt:13-15 | `repeat(n) { addAll(s) }` has n times the length and n times each count |
| Bags.EntriesOnce | app/src/main/java/com/example/kttrs/Piece.kt:3-14 | `entries` holds each type exactly once |
| SevenBag.SevenBagRandomizer.constructor | app/src/main/java/com/example/kttrs/SevenBagRandomizer.kt:4-8 | the bag starts as one shuffled set of the 7 types |
| SevenBag.SevenBagRandomizer.FillBag | app/src/main/java/com/example/kttrs/SevenBagRandomizer.kt:10-15 | after a fill, the bag is a permutation of the 7 types |
| SevenBag.SevenBagRandomizer.NextPiece | app/src/main/java/com/example/kttrs/SevenBagRandomizer.kt:17-22 | refill only when empty, then remove and return the front; the length drops by one and stays in 0..6 |
| SevenBag.SevenBagRandomizer.Restart | app/src/main/java/com/example/kttrs/SevenBagRandomizer.kt:24-26 | the remaining contents are dropped, leaving a fresh permutation |
| SevenBag.SevenDrawsEachTypeOnce | app/src/main/java/com/example/kttrs/SevenBagRandomizer.kt:10-22 | seven draws from a fill boundary give each type exactly once |
| ThirtyFiveBag.FiveSets | app/src/main/java/vsh/kttrs/model/ThirtyFiveBagRandomizer.kt:13-15 | the `repeat(5)` loop builds 35 pieces, five of each type |
| ThirtyFiveBag.ThirtyFiveBagRandomizer.constructor | app/src/main/java/vsh/kttrs/model/ThirtyFiveBagRandomizer.kt:4-8 | the bag starts as one shuffled set of 35 |
| ThirtyFiveBag.ThirtyFiveBagRandomizer.FillBag | app/src/main/java/vsh/kttrs/model/ThirtyFiveBagRandomizer.kt:10-18 | after a fill, the bag holds 35 pieces, each type five times |
| ThirtyFiveBag.ThirtyFiveBagRandomizer.NextPiece | app/src/main/java/vsh/kttrs/model/ThirtyFiveBagRandomizer.kt:20-25 | refill only when empty, then remove and return the front; the length stays in 0..34 |
| ThirtyFiveBag.ThirtyFiveBagRandomizer.Restart | app/src/main/java/vsh/kttrs/model/ThirtyFiveBagRandomizer.kt:27-29 | the bag is reset to a fresh 35-piece set |
| ThirtyFiveBag.ThirtyFiveDrawsEachTypeFiveTimes | app/src/main/java/vsh/kttrs/model/ThirtyFiveBagRandomizer.kt:10-25 | 35 draws from a fill boundary give each type exactly five times |
| Legacy.RandomPieceInBounds | app/src/main/java/com/example/kttrs/GameViewModel.kt:204-212 | a spawned piece (shape and colour at the drawn index, column 4, row 0) is a matrix inside the walls |
| Legacy.NewLegacyGameSpec | app/src/main/java/com/example/kttrs/GameViewModel.kt:21-28 | the initial state has an empty 10 by 20 board and a valid falling piece |
| Legacy.RotateShapeSpec | app/src/main/java/com/example/kttrs/GameViewModel.kt:108-114 | `newShape[y][x] = shape[rows-1-x][y]`: rows and columns swap, and cell (r, c) moves to (c, rows-1-r), a clockwise quarter turn; 0/1 entries are kept |
| Legacy.RotateTwice | app/src/main/java/com/example/kttrs/GameViewModel.kt:108-114 | two turns send each cell to the opposite corner |
| Legacy.RotateFourTimes | app/src/main/java/com/example/kttrs/GameViewModel.kt:108-114 | four turns give back the shape |
| Legacy.RotateO | app/src/main/java/com/example/kttrs/GameConstants.kt:11 | the O block is unchanged by a turn |
| Legacy.FirstOffsetSpec | app/src/main/java/com/example/kttrs/GameViewModel.kt:120-130 | the kick search fails exactly when no offset is valid; otherwise it commits the first valid offset in order |
| Legacy.FirstOffsetNone | app/src/main/java/com/example/kttrs/GameViewModel.kt:120-130 | the offset search fails exactly when no offset gives a valid position |
| Legacy.FirstOffsetSome | app/src/main/java/com/example/kttrs/GameViewModel.kt:120-130 | a found piece is the turned matrix at some offset i, valid, and no earlier offset is valid |
| Legacy.RotateSpec | app/src/main/java/com/example/kttrs/GameViewModel.kt:105-131 | a turn changes nothing (game over, or no offset of 0, 1, -1, 2, -2 valid), or commits the turned matrix at the first valid offset, with the row unchanged |
| Legacy.ClearLines | app/src/main/java/com/example/kttrs/GameViewModel.kt:171-184 | returns n = number of full rows and a board of the same height: n empty rows on top, then the non-full rows in order |
| Legacy.RemoveRowStep | app/src/main/java/com/example/kttrs/GameViewModel.kt:174-179 | one step of the bottom-up scan: a full row is removed and counted, a non-full row is kept |
| Legacy.EnginesClearAlike | app/src/main/java/com/example/kttrs/GameViewModel.kt:171-184 | the older `clearLines` and the current engine's filter-and-prepend give the same board |
| Legacy.PlaceSpec | app/src/main/java/com/example/kttrs/GameViewModel.kt:133-169 | a cell above the top sets only `gameOver`. Otherwise the colour code goes into exactly the piece's cells, then score += 100n, lines += n, the drawn piece comes in, and the game is over exactly when already over or that piece is invalid |
| Legacy.StampedBoardSpec | app/src/main/java/com/example/kttrs/GameViewModel.kt:145-152 | the stamped board stays 10 by 20, holds the code in exactly the piece's cells, each inside the board, and the old value elsewhere |
| Legacy.LockSpec | app/src/main/java/com/example/kttrs/GameViewModel.kt:154-168 | after the stamp: the board is n empty rows over the non-full rows, score += 100n, lines += n, the drawn piece comes in, game over exactly when already over or it does not fit |
| Legacy.LockFromParts | app/src/main/java/com/example/kttrs/GameViewModel.kt:154-168 | the values `placePiece` computes step by step assemble into the lock function |
| Legacy.MoveKeepsInv | app/src/main/java/com/example/kttrs/GameViewModel.kt:94-103 | moves keep the board 10 by 20 and the piece inside the walls, are no-ops after game over, and never lower the score |
| Legacy.RotateKeepsInv | app/src/main/java/com/example/kttrs/GameViewModel.kt:105-131 | a turn keeps the falling piece a matrix inside the walls |
| Legacy.LegacyGame.constructor | app/src/main/java/com/example/kttrs/GameViewModel.kt:62 | the state starts as a fresh game with the drawn piece |
| Legacy.LegacyGame.IsValidPosition | app/src/main/java/com/example/kttrs/GameViewModel.kt:186-202 | the same collision rule on the 10 by 20 board |
| Legacy.LegacyGame.MovePiece | app/src/main/java/com/example/kttrs/GameViewModel.kt:94-103 | no-op when over; a valid target replaces the piece; an invalid target locks when dy > 0 and is ignored otherwise |
| Legacy.LegacyGame.RotatePiece | app/src/main/java/com/example/kttrs/GameViewModel.kt:105-131 | the offset loop gives the turn function |
| Legacy.LegacyGame.TryOffsets | app/src/main/java/com/example/kttrs/GameViewModel.kt:120-130 | the offset loop finds what the offset search finds |
| Legacy.LegacyGame.PlacePiece | app/src/main/java/com/example/kttrs/GameViewModel.kt:133-169 | the top check, the stamp loops, `clearLines` and the state update give the lock function |
| Legacy.LegacyGame.LockState | app/src/main/java/com/example/kttrs/GameViewModel.kt:145-168 | the stamp loops, `clearLines`, the score and line sums, the speed and the spawn compute exactly the lock function's state, which keeps the invariant |

## Left out

- Coroutine scheduling, dispatchers, `delay` durations, `pauseGame`/`resumeGame`, `startGameLoop` and the job handles are left out. The timers are discrete commands, and the lock delay is a flag.
- The reset of the lock delay by `cancel()` followed by `startLockDelay()` is not modelled as a fresh delay. An armed delay stays armed.
- The `StateFlow` collectors in the initialiser are left out: `controlMode` sync, the ghost recomputation (modelled as `Engine.CalculateGhostPiecePosition`) and the `topScore` tracker. They are framework plumbing.
- Settings storage I/O is left out. `saveHighScore` is an entry appended to the `highScoreSaves` log, and the persisted high score is a parameter.
- The Compose UI, colours and drawable ids are left out; colours and ids are opaque tokens. `printBoardState` and the `println` in `isTSpin` are debug output.
- `GameConstants`, `PieceSpec` and the kick tables of the current engine are not part of this model. They are parameters in `Engine.Rules`.
- `setGameStateForTest` and `setControlMode` are left out: they are a test hook and UI plumbing.
- EngineCommands.StepNeverLowersScore: Kotlin `Int` arithmetic wraps at 2^31. The model's integers are unbounded, so it states the property without overflow. The same holds for the score and line sums in every other member.
- EngineViewModel.GameViewModel: the class follows the code as written. The clear-delay guard and the cancelling restart from the findings are proved about separate definitions in `ClearDelay`, not used by the class.

## Findings

| source | as written | input that shows it | evidently intended | confidence | as-written member | corrected member |
|---|---|---|---|---|---|---|
| app/src/main/java/vsh/kttrs/model/GameViewModel.kt:209-297,421-437 | While a clear waits out its delay, the piece that just locked is still the current piece, and no command checks `clearingLines`. | The lock delay fires on a grounded piece that fills a row. The player hard-drops before the 200 ms pass. The piece locks again in place on the stamped board, and a second clear of the same rows is queued. After both delays, `linesCleared` has grown by twice the number of rows. | The clearing phase accepts no piece command, so each clear counts its rows once. | not executed | ClearDelay.HardDropDuringClearCountsRowsTwice | ClearDelay.GuardedHardDropDuringClearCountsRowsOnce (with ClearDelay.GuardedStepKeepsOneClear and ClearDelay.GuardedClearCountsRowsOnce) |
| app/src/main/java/vsh/kttrs/model/GameViewModel.kt:142-145,432-461 | `restartGame` replaces the state but does not cancel a suspended clear. | Restart while rows are clearing. When the delay ends, the new game's board becomes the old board with its rows collapsed, and the new game starts with the old rows and points. | A restart starts from an empty board with no timers of the old game pending. | not executed | ClearDelay.RestartDuringClearInheritsOldRows | ClearDelay.RestartCancellingTimersStartsClean |
