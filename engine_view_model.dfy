/**
 * `GameViewModel` of `vsh/kttrs/model/GameViewModel.kt` as a class: the
 * published game state, the rotation flag, the lock-delay timer, the line
 * clears suspended in their delay and the high-score saves requested are its
 * fields, and every command updates them in place.  Each command is proved to
 * perform exactly the transition of the same name in `EngineCommands`.
 */
module EngineViewModel {
  import opened Wrappers
  import opened Pieces
  import opened Grid
  import opened Engine
  import opened EngineCommands

  class GameViewModel {
    const rules: Rules
    var state: GameState
    var lastMoveIsRotation: bool
    var lockDelayArmed: bool
    var pendingClears: seq<Locked>
    var highScoreSaves: seq<int>

    /** The fields as one value, so that commands can be stated as transitions. */
    function Snapshot(): Machine
      reads this
    {
      Machine(state, lastMoveIsRotation, lockDelayArmed, pendingClears, highScoreSaves)
    }

    ghost predicate Valid()
      reads this
    {
      Inv(rules, Snapshot())
    }

    /** The view model starts with a new game drawn from the randomizer. */
    constructor (rules: Rules, first: PieceType, second: PieceType)
      requires WellFormedRules(rules)
      ensures Valid()
      ensures this.rules == rules && state == NewGame(rules, first, second)
      ensures !lastMoveIsRotation && !lockDelayArmed && pendingClears == [] && highScoreSaves == []
    {
      this.rules := rules;
      state := NewGame(rules, first, second);
      lastMoveIsRotation := false;
      lockDelayArmed := false;
      pendingClears := [];
      highScoreSaves := [];
      new;
      NewGameSpec(rules, first, second);
    }

    method RestartGame(first: PieceType, second: PieceType)
      requires Valid()
      modifies this
      ensures Valid()
      ensures Snapshot() == EngineCommands.RestartGame(rules, old(Snapshot()), first, second)
    {
      state := NewGame(rules, first, second);
      NewGameSpec(rules, first, second);
    }

    method MovePiece(dx: int)
      requires Valid()
      modifies this
      ensures Valid()
      ensures Snapshot() == EngineCommands.MovePiece(rules, old(Snapshot()), dx)
    {
      if state.gameOver {
        return;
      }
      var piece := state.currentPiece;
      var newPiece := piece.(x := piece.x + dx);
      var ok := IsValidPosition(state.board, rules.width, rules.height, PieceShape(rules, newPiece), newPiece.x, newPiece.y);
      if ok {
        FitsInBounds(state.board, rules.width, rules.height, PieceShape(rules, newPiece), newPiece.x, newPiece.y);
        state := state.(currentPiece := newPiece);
        var free := IsValidPosition(state.board, rules.width, rules.height, PieceShape(rules, newPiece), newPiece.x, newPiece.y + 1);
        lockDelayArmed := !free;
      }
    }

    method SoftDrop()
      requires Valid()
      modifies this
      ensures Valid()
      ensures Snapshot() == EngineCommands.SoftDrop(rules, old(Snapshot()))
    {
      if state.gameOver {
        return;
      }
      ghost var before := Snapshot();
      var initialY := state.currentPiece.y;
      var newPiece := state.currentPiece.(y := state.currentPiece.y + 1);
      var ok := IsValidPosition(state.board, rules.width, rules.height, PieceShape(rules, newPiece), newPiece.x, newPiece.y);
      if ok {
        FitsInBounds(state.board, rules.width, rules.height, PieceShape(rules, newPiece), newPiece.x, newPiece.y);
        lastMoveIsRotation := false;
        state := state.(currentPiece := newPiece);
        var dropDistance := newPiece.y - initialY;
        state := state.(score := state.score + dropDistance * 1);
        var free := IsValidPosition(state.board, rules.width, rules.height, PieceShape(rules, newPiece), newPiece.x, newPiece.y + 1);
        lockDelayArmed := !free;
        assert Snapshot() == before.(state := before.state.(currentPiece := newPiece, score := before.state.score + 1), lastMoveIsRotation := false, lockDelayArmed := !free);
      } else {
        lockDelayArmed := true;
      }
    }

    method HoldPiece(drawn: PieceType)
      requires Valid()
      modifies this
      ensures Valid()
      ensures Snapshot() == EngineCommands.HoldPiece(rules, old(Snapshot()), drawn)
    {
      if state.gameOver || !state.canHold {
        return;
      }
      var currentPiece := state.currentPiece;
      var heldPiece := state.heldPiece;
      HoldKeepsValid(rules, state, drawn);
      match heldPiece
      case None =>
        state := state.(currentPiece := state.nextPiece, nextPiece := Spawn(rules, drawn), heldPiece := Some(currentPiece), canHold := false);
      case Some(held) =>
        state := state.(currentPiece := held, heldPiece := Some(currentPiece), canHold := false);
    }

    /** The continuation of a lock: resolve it against the state as it is now. */
    method UpdateStateAfterPiecePlaced(lk: Locked, drawn: PieceType, persistedHighScore: int)
      requires Valid() && PendingOk(rules, lk)
      modifies this
      ensures Valid()
      ensures Snapshot() == Resume(rules, old(Snapshot()), lk, drawn, persistedHighScore)
    {
      ResumeKeepsInv(rules, Snapshot(), lk, drawn, persistedHighScore);
      var boardForNextPiece := if lk.cleared != [] then Collapse(lk.board, lk.cleared, rules.width) else lk.board;
      var newScore := state.score + lk.points;
      var newLinesCleared := state.linesCleared + |lk.cleared|;
      var newPiece := state.nextPiece;
      var fits := IsValidPosition(boardForNextPiece, rules.width, rules.height, PieceShape(rules, newPiece), newPiece.x, newPiece.y);
      var isGameOver := !fits;
      state := state.(
        board := boardForNextPiece,
        score := newScore,
        currentPiece := newPiece,
        nextPiece := Spawn(rules, drawn),
        gameOver := state.gameOver || isGameOver,
        linesCleared := newLinesCleared,
        gameSpeed := Speed(newLinesCleared),
        canHold := true,
        clearingLines := []);
      if isGameOver && newScore > persistedHighScore {
        highScoreSaves := highScoreSaves + [newScore];
      }
    }

    /**
     * `placePiece`: give up above the top; otherwise detect the T-Spin on the
     * old board, stamp a copy, find the full rows, score them, and either
     * resolve at once or publish the clear and suspend.
     */
    method PlacePiece(drawn: PieceType, persistedHighScore: int)
      requires Valid()
      modifies this
      ensures Valid()
      ensures Snapshot() == EngineCommands.PlacePiece(rules, old(Snapshot()), drawn, persistedHighScore)
    {
      ghost var before := Snapshot();
      PlacePieceKeepsInv(rules, before, drawn, persistedHighScore);
      var currentPiece := state.currentPiece;
      var shape := PieceShape(rules, currentPiece);
      var above := CellAboveTop(shape, currentPiece.y);
      if above {
        state := state.(gameOver := true);
        return;
      }
      var lk := LockResult();
      lastMoveIsRotation := false;
      if lk.cleared != [] {
        state := state.(board := lk.board, clearingLines := lk.cleared);
        pendingClears := pendingClears + [lk];
      } else {
        UpdateStateAfterPiecePlaced(lk, drawn, persistedHighScore);
      }
    }

    /**
     * The part of `placePiece` that computes the lock without publishing it:
     * the T-Spin test on the old board, the stamped copy, its full rows and
     * the points for them.
     */
    method LockResult() returns (lk: Locked)
      requires Valid() && !AboveTop(PieceShape(rules, state.currentPiece), state.currentPiece.y)
      ensures Place(rules, state, lastMoveIsRotation) == Some(lk)
      ensures PendingOk(rules, lk)
    {
      var currentPiece := state.currentPiece;
      var shape := PieceShape(rules, currentPiece);
      var isTSpinMove := false;
      if lastMoveIsRotation {
        isTSpinMove := IsTSpin(rules, currentPiece, state.board);
      }
      LandsWhenNotAboveTop(rules, state.board, currentPiece);
      var newBoard := StampCells(state.board, shape, currentPiece.x, currentPiece.y, CellCode(TypeOf(currentPiece.spec)));
      var clearedLinesIndices := GetClearedLines(newBoard);
      var scoreToAdd := LineScore(isTSpinMove, |clearedLinesIndices|);
      lk := Locked(newBoard, clearedLinesIndices, scoreToAdd);
      PlaceLocks(rules, state, lastMoveIsRotation);
    }

    /** The clear delay of the oldest suspended lock ends. */
    method FinishLineClear(drawn: PieceType, persistedHighScore: int)
      requires Valid() && pendingClears != []
      modifies this
      ensures Valid()
      ensures Snapshot() == EngineCommands.FinishLineClear(rules, old(Snapshot()), drawn, persistedHighScore)
    {
      var lk := pendingClears[0];
      assert PendingOk(rules, lk);
      pendingClears := pendingClears[1..];
      UpdateStateAfterPiecePlaced(lk, drawn, persistedHighScore);
    }

    /** `hardDrop`: descend row by row while the next row is valid, lock, and score the distance. */
    method HardDrop(drawn: PieceType, persistedHighScore: int)
      requires Valid()
      modifies this
      ensures Valid()
      ensures Snapshot() == EngineCommands.HardDrop(rules, old(Snapshot()), drawn, persistedHighScore)
    {
      if state.gameOver {
        return;
      }
      ghost var before := Snapshot();
      var piece := state.currentPiece;
      var initialY := piece.y;
      var newY := DropTarget(piece);
      LandingInBounds(rules, state.board, piece);
      state := state.(currentPiece := piece.(y := newY));
      lastMoveIsRotation := false;
      PlacePiece(drawn, persistedHighScore);
      var dropDistance := newY - initialY;
      state := state.(score := state.score + dropDistance * 2);
    }

    /** The descent loop of `hardDrop`: from the current row, step down while the next row is valid. */
    method DropTarget(piece: Engine.Piece) returns (newY: int)
      requires Valid() && piece == state.currentPiece
      ensures newY == Landing(rules, state.board, piece)
    {
      ShapeHasCell(rules, piece);
      newY := piece.y;
      while true
        invariant Landing(rules, state.board, piece.(y := newY)) == Landing(rules, state.board, piece)
        decreases rules.height - newY
      {
        var nextY := newY + 1;
        var newPiece := piece.(y := nextY);
        var ok := IsValidPosition(state.board, rules.width, rules.height, PieceShape(rules, newPiece), newPiece.x, newPiece.y);
        if ok {
          FitsAboveFloor(rules, state.board, newPiece);
          newY := nextY;
        } else {
          break;
        }
      }
    }

    /** `rotatePiece`: try the kicks for this rotation in order and commit the first valid one. */
    method RotatePiece(clockwise: bool)
      requires Valid()
      modifies this
      ensures Valid()
      ensures Snapshot() == EngineCommands.RotatePiece(rules, old(Snapshot()), clockwise)
    {
      ghost var before := Snapshot();
      RotateKeepsInv(rules, before, clockwise);
      if state.gameOver {
        return;
      }
      var piece := state.currentPiece;
      if TypeOf(piece.spec) == Some(O) {
        return;
      }
      var oldRotation := piece.rotation;
      var newRotation := TargetRotation(oldRotation, clockwise);
      var kicks := KickList(rules, TypeOf(piece.spec), oldRotation, newRotation);
      var found := TryKicks(piece, newRotation, kicks);
      if found.Some? {
        var newPiece := found.value;
        lastMoveIsRotation := true;
        state := state.(currentPiece := newPiece);
        var free := IsValidPosition(state.board, rules.width, rules.height, PieceShape(rules, newPiece), newPiece.x, newPiece.y + 1);
        lockDelayArmed := !free;
      }
    }

    /** The kick loop of `rotatePiece`: the first kicked piece, in table order, at a valid position. */
    method TryKicks(piece: Engine.Piece, newRotation: int, kicks: seq<Kick>) returns (found: Option<Engine.Piece>)
      requires Valid()
      ensures found == FirstFit(rules, state.board, piece, newRotation, kicks)
    {
      var i := 0;
      while i < |kicks|
        invariant 0 <= i <= |kicks|
        invariant FirstFit(rules, state.board, piece, newRotation, kicks) == FirstFit(rules, state.board, piece, newRotation, kicks[i..])
      {
        var kick := kicks[i];
        var newPiece := Kicked(piece, newRotation, kick);
        assert kicks[i..][0] == kick && kicks[i..][1..] == kicks[i + 1..];
        var ok := IsValidPosition(state.board, rules.width, rules.height, PieceShape(rules, newPiece), newPiece.x, newPiece.y);
        if ok {
          return Some(newPiece);
        }
        i := i + 1;
      }
      return None;
    }

    /** One gravity tick of the game loop. */
    method GravityTick()
      requires Valid()
      modifies this
      ensures Valid()
      ensures Snapshot() == EngineCommands.GravityTick(rules, old(Snapshot()))
    {
      if state.gameOver {
        return;
      }
      var piece := state.currentPiece;
      var newPiece := piece.(y := piece.y + 1);
      var ok := IsValidPosition(state.board, rules.width, rules.height, PieceShape(rules, newPiece), newPiece.x, newPiece.y);
      if ok {
        FitsInBounds(state.board, rules.width, rules.height, PieceShape(rules, newPiece), newPiece.x, newPiece.y);
        state := state.(currentPiece := newPiece);
        lockDelayArmed := false;
      } else {
        lockDelayArmed := true;
      }
    }

    /** The body of the lock-delay job once its delay has elapsed. */
    method LockDelayFires(drawn: PieceType, persistedHighScore: int)
      requires Valid() && lockDelayArmed
      modifies this
      ensures Valid()
      ensures Snapshot() == EngineCommands.LockDelayFires(rules, old(Snapshot()), drawn, persistedHighScore)
    {
      ghost var before := Snapshot();
      var piece := state.currentPiece;
      var free := IsValidPosition(state.board, rules.width, rules.height, PieceShape(rules, piece), piece.x, piece.y + 1);
      assert free == !Grounded(rules, before.state.board, before.state.currentPiece);
      if !free {
        PlacePiece(drawn, persistedHighScore);
      }
      ghost var after := Snapshot();
      lockDelayArmed := false;
      assert Snapshot() == after.(lockDelayArmed := false);
    }
  }
}
