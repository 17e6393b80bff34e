/**
 * The commands of `vsh/kttrs/model/GameViewModel.kt` as transitions of the
 * whole view-model state: the published `GameState`, the `lastMoveIsRotation`
 * flag, whether a lock delay is pending, the line clears suspended in their
 * 200 ms delay, and the high-score saves requested so far.
 *
 * Randomness (`randomPiece`) and the persisted high score are parameters.
 * Timers are discrete commands: the gravity tick, the lock delay firing and
 * the end of a line-clear delay.
 */
module EngineCommands {
  import opened Wrappers
  import opened Pieces
  import opened Grid
  import opened Engine

  datatype Machine = Machine(
    state: GameState,
    lastMoveIsRotation: bool,
    lockDelayArmed: bool,
    pendingClears: seq<Locked>,
    highScoreSaves: seq<int>)

  /** A suspended clear holds a board of the configured size, exactly its full rows, and nonnegative points. */
  predicate PendingOk(rules: Rules, lk: Locked)
  {
    WellFormed(lk.board, rules.width, rules.height) && lk.cleared == FullRows(lk.board) && lk.points >= 0
  }

  ghost predicate Inv(rules: Rules, m: Machine)
  {
    && WellFormedRules(rules)
    && ValidState(rules, m.state)
    && forall i :: 0 <= i < |m.pendingClears| ==> PendingOk(rules, m.pendingClears[i])
  }

  /** The rest of `updateStateAfterPiecePlaced`: commit the resolved state and request a save when the game just ended on a new best. */
  function Resume(rules: Rules, m: Machine, lk: Locked, drawn: PieceType, persistedHighScore: int): Machine
  {
    var saves := if SaveRequested(rules, m.state, lk, persistedHighScore) then [m.state.score + lk.points] else [];
    m.(state := Resolve(rules, m.state, lk, drawn), highScoreSaves := m.highScoreSaves + saves)
  }

  /**
   * `placePiece`: game over above the top; otherwise the flag is reset and
   * either the lock resolves at once (no full row) or the stamped board and
   * its full rows are published and the resolution waits for the clear delay.
   */
  function PlacePiece(rules: Rules, m: Machine, drawn: PieceType, persistedHighScore: int): Machine
    requires WellFormed(m.state.board, rules.width, rules.height)
  {
    match Place(rules, m.state, m.lastMoveIsRotation)
    case None => m.(state := m.state.(gameOver := true))
    case Some(lk) =>
      if lk.cleared == [] then Resume(rules, m.(lastMoveIsRotation := false), lk, drawn, persistedHighScore)
      else m.(state := m.state.(board := lk.board, clearingLines := lk.cleared),
              lastMoveIsRotation := false,
              pendingClears := m.pendingClears + [lk])
  }

  /** The oldest suspended clear wakes up after its delay and resolves against the state as it is now. */
  function FinishLineClear(rules: Rules, m: Machine, drawn: PieceType, persistedHighScore: int): Machine
    requires m.pendingClears != []
  {
    Resume(rules, m.(pendingClears := m.pendingClears[1..]), m.pendingClears[0], drawn, persistedHighScore)
  }

  /** `movePiece(dx)`: a valid shift replaces the piece and re-arms the lock delay only if it is now grounded. */
  function MovePiece(rules: Rules, m: Machine, dx: int): Machine
  {
    var q := m.state.currentPiece.(x := m.state.currentPiece.x + dx);
    if m.state.gameOver || !PieceFits(rules, m.state.board, q) then m
    else m.(state := m.state.(currentPiece := q), lockDelayArmed := Grounded(rules, m.state.board, q))
  }

  /** `softDrop`: one row down for one point, or start the lock delay when blocked. */
  function SoftDrop(rules: Rules, m: Machine): Machine
  {
    var q := m.state.currentPiece.(y := m.state.currentPiece.y + 1);
    if m.state.gameOver then m
    else if PieceFits(rules, m.state.board, q) then
      m.(state := m.state.(currentPiece := q, score := m.state.score + 1),
         lastMoveIsRotation := false,
         lockDelayArmed := Grounded(rules, m.state.board, q))
    else m.(lockDelayArmed := true)
  }

  /** `hardDrop`: move to the landing row, lock, then add two points per row descended. */
  function HardDrop(rules: Rules, m: Machine, drawn: PieceType, persistedHighScore: int): Machine
    requires WellFormed(m.state.board, rules.width, rules.height)
    requires HasCell(PieceShape(rules, m.state.currentPiece))
  {
    if m.state.gameOver then m
    else
      var p := m.state.currentPiece;
      var landing := Landing(rules, m.state.board, p);
      var dropped := m.(state := m.state.(currentPiece := p.(y := landing)), lastMoveIsRotation := false);
      var placed := PlacePiece(rules, dropped, drawn, persistedHighScore);
      placed.(state := placed.state.(score := placed.state.score + (landing - p.y) * 2))
  }

  function HoldPiece(rules: Rules, m: Machine, drawn: PieceType): Machine
  {
    m.(state := Hold(rules, m.state, drawn))
  }

  /** `rotatePiece`: commit the first kick that fits, mark the move as a rotation and re-arm the lock delay only if grounded. */
  function RotatePiece(rules: Rules, m: Machine, clockwise: bool): Machine
  {
    var p := m.state.currentPiece;
    var rotation := TargetRotation(p.rotation, clockwise);
    if m.state.gameOver || TypeOf(p.spec) == Some(O) then m
    else match FirstFit(rules, m.state.board, p, rotation, KickList(rules, TypeOf(p.spec), p.rotation, rotation))
      case None => m
      case Some(q) => m.(state := m.state.(currentPiece := q), lastMoveIsRotation := true, lockDelayArmed := Grounded(rules, m.state.board, q))
  }

  /** One iteration of the game loop: fall one row and cancel the lock delay, or start it when blocked. */
  function GravityTick(rules: Rules, m: Machine): Machine
  {
    var q := m.state.currentPiece.(y := m.state.currentPiece.y + 1);
    if m.state.gameOver then m
    else if PieceFits(rules, m.state.board, q) then m.(state := m.state.(currentPiece := q), lockDelayArmed := false)
    else m.(lockDelayArmed := true)
  }

  /** The lock delay expires: lock the piece if it is still grounded, then disarm. */
  function LockDelayFires(rules: Rules, m: Machine, drawn: PieceType, persistedHighScore: int): Machine
    requires WellFormed(m.state.board, rules.width, rules.height)
    requires m.lockDelayArmed
  {
    var after := if Grounded(rules, m.state.board, m.state.currentPiece) then PlacePiece(rules, m, drawn, persistedHighScore) else m;
    after.(lockDelayArmed := false)
  }

  /** `restartGame`: a fresh game state; the flag, the lock delay and suspended clears are left as they were. */
  function RestartGame(rules: Rules, m: Machine, first: PieceType, second: PieceType): Machine
  {
    m.(state := NewGame(rules, first, second))
  }

  datatype Command =
    | Move(dx: int)
    | SoftDropCmd
    | HardDropCmd(drawn: PieceType, persistedHighScore: int)
    | HoldCmd(drawn: PieceType)
    | Rotate(clockwise: bool)
    | Gravity
    | LockTimer(drawn: PieceType, persistedHighScore: int)
    | ClearTimer(drawn: PieceType, persistedHighScore: int)

  /** The timers can only fire when something is waiting on them. */
  predicate Enabled(m: Machine, c: Command)
  {
    match c
    case LockTimer(_, _) => m.lockDelayArmed
    case ClearTimer(_, _) => m.pendingClears != []
    case _ => true
  }

  function Step(rules: Rules, m: Machine, c: Command): Machine
    requires Inv(rules, m) && Enabled(m, c)
  {
    ShapeHasCell(rules, m.state.currentPiece);
    match c
    case Move(dx) => MovePiece(rules, m, dx)
    case SoftDropCmd => SoftDrop(rules, m)
    case HardDropCmd(drawn, hs) => HardDrop(rules, m, drawn, hs)
    case HoldCmd(drawn) => HoldPiece(rules, m, drawn)
    case Rotate(clockwise) => RotatePiece(rules, m, clockwise)
    case Gravity => GravityTick(rules, m)
    case LockTimer(drawn, hs) => LockDelayFires(rules, m, drawn, hs)
    case ClearTimer(drawn, hs) => FinishLineClear(rules, m, drawn, hs)
  }

  // ---------------------------------------------------------------------------
  // Lemmas

  /** Resolving a consistent lock keeps the invariant. */
  lemma ResumeKeepsInv(rules: Rules, m: Machine, lk: Locked, drawn: PieceType, hs: int)
    requires Inv(rules, m) && PendingOk(rules, lk)
    ensures Inv(rules, Resume(rules, m, lk, drawn, hs))
  {
    ResolveSpec(rules, m.state, lk, drawn);
    SpawnInBounds(rules, drawn);
  }

  lemma PlacePieceKeepsInv(rules: Rules, m: Machine, drawn: PieceType, hs: int)
    requires Inv(rules, m)
    ensures Inv(rules, PlacePiece(rules, m, drawn, hs))
  {
    PlaceSpec(rules, m.state, m.lastMoveIsRotation);
    match Place(rules, m.state, m.lastMoveIsRotation)
    case None =>
    case Some(lk) =>
      FullRowsSpec(lk.board);
      assert lk.cleared == FullRows(lk.board);
      if lk.cleared == [] {
        ResumeKeepsInv(rules, m.(lastMoveIsRotation := false), lk, drawn, hs);
      } else {
        var r := PlacePiece(rules, m, drawn, hs);
        assert r.pendingClears == m.pendingClears + [lk];
        forall i | 0 <= i < |r.pendingClears|
          ensures PendingOk(rules, r.pendingClears[i])
        {
          if i < |m.pendingClears| {
            assert r.pendingClears[i] == m.pendingClears[i];
          }
        }
      }
  }

  /** A rotation commits only a kicked piece that fits, so the piece stays inside the walls. */
  lemma RotateKeepsInv(rules: Rules, m: Machine, clockwise: bool)
    requires Inv(rules, m)
    ensures Inv(rules, RotatePiece(rules, m, clockwise))
  {
    var p := m.state.currentPiece;
    var rotation := TargetRotation(p.rotation, clockwise);
    var kicks := KickList(rules, TypeOf(p.spec), p.rotation, rotation);
    if FirstFit(rules, m.state.board, p, rotation, kicks).Some? {
      var q := FirstFit(rules, m.state.board, p, rotation, kicks).value;
      FirstFitFits(rules, m.state.board, p, rotation, kicks);
      FitsInBounds(m.state.board, rules.width, rules.height, PieceShape(rules, q), q.x, q.y);
    }
  }

  /** Every command keeps the board at the configured size, every piece inside the walls and every suspended clear consistent. */
  lemma StepKeepsInv(rules: Rules, m: Machine, c: Command)
    requires Inv(rules, m) && Enabled(m, c)
    ensures Inv(rules, Step(rules, m, c))
  {
    match c
    case Move(dx) =>
      MoveKeepsInv(rules, m, dx);
    case SoftDropCmd =>
      SoftDropKeepsInv(rules, m);
    case Gravity =>
      GravityKeepsInv(rules, m);
    case HoldCmd(drawn) =>
      HoldKeepsValid(rules, m.state, drawn);
    case Rotate(clockwise) =>
      RotateKeepsInv(rules, m, clockwise);
    case HardDropCmd(drawn, hs) =>
      HardDropKeepsInv(rules, m, drawn, hs);
    case LockTimer(drawn, hs) =>
      PlacePieceKeepsInv(rules, m, drawn, hs);
    case ClearTimer(drawn, hs) =>
      FinishLineClearKeepsInv(rules, m, drawn, hs);
  }

  lemma MoveKeepsInv(rules: Rules, m: Machine, dx: int)
    requires Inv(rules, m)
    ensures Inv(rules, MovePiece(rules, m, dx))
  {
    var p := m.state.currentPiece;
    if PieceFits(rules, m.state.board, p.(x := p.x + dx)) {
      FitsInBounds(m.state.board, rules.width, rules.height, PieceShape(rules, p), p.x + dx, p.y);
    }
  }

  lemma SoftDropKeepsInv(rules: Rules, m: Machine)
    requires Inv(rules, m)
    ensures Inv(rules, SoftDrop(rules, m))
  {
    var p := m.state.currentPiece;
    if PieceFits(rules, m.state.board, p.(y := p.y + 1)) {
      FitsInBounds(m.state.board, rules.width, rules.height, PieceShape(rules, p), p.x, p.y + 1);
    }
  }

  lemma GravityKeepsInv(rules: Rules, m: Machine)
    requires Inv(rules, m)
    ensures Inv(rules, GravityTick(rules, m))
  {
    var p := m.state.currentPiece;
    if PieceFits(rules, m.state.board, p.(y := p.y + 1)) {
      FitsInBounds(m.state.board, rules.width, rules.height, PieceShape(rules, p), p.x, p.y + 1);
    }
  }

  lemma HardDropKeepsInv(rules: Rules, m: Machine, drawn: PieceType, hs: int)
    requires Inv(rules, m)
    ensures HasCell(PieceShape(rules, m.state.currentPiece)) && Inv(rules, HardDrop(rules, m, drawn, hs))
  {
    var s := m.state;
    var p := s.currentPiece;
    ShapeHasCell(rules, p);
    if !s.gameOver {
      var landing := Landing(rules, s.board, p);
      LandingInBounds(rules, s.board, p);
      var dropped := m.(state := s.(currentPiece := p.(y := landing)), lastMoveIsRotation := false);
      PlacePieceKeepsInv(rules, dropped, drawn, hs);
    }
  }

  lemma FinishLineClearKeepsInv(rules: Rules, m: Machine, drawn: PieceType, hs: int)
    requires Inv(rules, m) && m.pendingClears != []
    ensures Inv(rules, FinishLineClear(rules, m, drawn, hs))
  {
    var rest := m.(pendingClears := m.pendingClears[1..]);
    assert PendingOk(rules, m.pendingClears[0]);
    assert forall i :: 0 <= i < |rest.pendingClears| ==> rest.pendingClears[i] == m.pendingClears[i + 1];
    ResumeKeepsInv(rules, rest, m.pendingClears[0], drawn, hs);
  }

  /** No command ends a game and then revives it: once over, always over (until restart). */
  lemma GameOverIsSticky(rules: Rules, m: Machine, c: Command)
    requires Inv(rules, m) && Enabled(m, c)
    requires m.state.gameOver
    ensures Step(rules, m, c).state.gameOver
  {
  }

  /** With the game over, every player command and the gravity tick leave the whole state unchanged. */
  lemma GameOverFreezesCommands(rules: Rules, m: Machine, c: Command)
    requires Inv(rules, m) && m.state.gameOver
    requires !c.LockTimer? && !c.ClearTimer?
    ensures Step(rules, m, c) == m
  {
  }

  /** The score never decreases and neither does the line count: drops add nonnegative points and locks add table points. */
  lemma StepNeverLowersScore(rules: Rules, m: Machine, c: Command)
    requires Inv(rules, m) && Enabled(m, c)
    ensures Step(rules, m, c).state.score >= m.state.score
    ensures Step(rules, m, c).state.linesCleared >= m.state.linesCleared
  {
    var s := m.state;
    var p := s.currentPiece;
    ShapeHasCell(rules, p);
    match c
    case HardDropCmd(drawn, hs) =>
      if !s.gameOver {
        LandingSpec(rules, s.board, p);
        var dropped := m.(state := s.(currentPiece := p.(y := Landing(rules, s.board, p))), lastMoveIsRotation := false);
        PlacePieceNeverLowersScore(rules, dropped, drawn, hs);
        PlacePieceNeverLowersLines(rules, dropped, drawn, hs);
      }
    case LockTimer(drawn, hs) =>
      PlacePieceNeverLowersScore(rules, m, drawn, hs);
      PlacePieceNeverLowersLines(rules, m, drawn, hs);
    case ClearTimer(drawn, hs) =>
      assert PendingOk(rules, m.pendingClears[0]);
    case _ =>
  }

  lemma PlacePieceNeverLowersScore(rules: Rules, m: Machine, drawn: PieceType, hs: int)
    requires WellFormed(m.state.board, rules.width, rules.height)
    ensures PlacePiece(rules, m, drawn, hs).state.score >= m.state.score
  {
    if !AboveTop(PieceShape(rules, m.state.currentPiece), m.state.currentPiece.y) {
      PlaceLocks(rules, m.state, m.lastMoveIsRotation);
    }
  }

  lemma PlacePieceNeverLowersLines(rules: Rules, m: Machine, drawn: PieceType, hs: int)
    requires WellFormed(m.state.board, rules.width, rules.height)
    ensures PlacePiece(rules, m, drawn, hs).state.linesCleared >= m.state.linesCleared
  {
    if !AboveTop(PieceShape(rules, m.state.currentPiece), m.state.currentPiece.y) {
      PlaceLocks(rules, m.state, m.lastMoveIsRotation);
    }
  }

  /** A lock with a cell above the top changes nothing but the game-over flag. */
  lemma PlaceAboveTopOnlyEndsGame(rules: Rules, m: Machine, drawn: PieceType, hs: int)
    requires Inv(rules, m)
    requires AboveTop(PieceShape(rules, m.state.currentPiece), m.state.currentPiece.y)
    ensures PlacePiece(rules, m, drawn, hs) == m.(state := m.state.(gameOver := true))
  {
    PlaceSpec(rules, m.state, m.lastMoveIsRotation);
  }

  /**
   * A lock that fills no row resolves at once: the next piece comes in and
   * the points are added; one that fills rows publishes them for the clear
   * animation and leaves the piece, score and lines as they were until the
   * delay ends.
   */
  lemma PlacePieceTiming(rules: Rules, m: Machine, drawn: PieceType, hs: int)
    requires Inv(rules, m)
    requires !AboveTop(PieceShape(rules, m.state.currentPiece), m.state.currentPiece.y)
    ensures var r := PlacePiece(rules, m, drawn, hs);
      var lk := Place(rules, m.state, m.lastMoveIsRotation).value;
      && !r.lastMoveIsRotation
      && (lk.cleared == [] ==>
           r.state.currentPiece == m.state.nextPiece && r.state.score == m.state.score + lk.points
           && r.pendingClears == m.pendingClears && r.state.board == lk.board)
      && (lk.cleared != [] ==>
           r.state.currentPiece == m.state.currentPiece && r.state.score == m.state.score
           && r.state.clearingLines == lk.cleared && r.pendingClears == m.pendingClears + [lk]
           && |lk.cleared| <= rules.height)
  {
    var p := m.state.currentPiece;
    var nb := Stamp(m.state.board, PieceShape(rules, p), p.x, p.y, CellCode(TypeOf(p.spec)));
    PlaceLocks(rules, m.state, m.lastMoveIsRotation);
    StampKeepsFilled(m.state.board, rules.width, rules.height, PieceShape(rules, p), p.x, p.y, CellCode(TypeOf(p.spec)));
    CollapseFullRows(nb, rules.width);
  }

  /**
   * `hardDrop` and `calculateGhostPiecePosition` agree: the piece locks at the
   * ghost's row, and the score gains two points per row descended (plus the
   * line points when the lock resolves at once).  A lock with a cell above
   * the top only ends the game; otherwise the piece is stamped at the ghost's
   * row, and that board is either the new board at once or shown with its
   * full rows while one more clear is queued.
   */
  lemma HardDropLandsAtGhost(rules: Rules, m: Machine, drawn: PieceType, hs: int)
    requires Inv(rules, m) && !m.state.gameOver
    ensures var p := m.state.currentPiece;
      var landing := Landing(rules, m.state.board, p);
      var dropped := m.state.(currentPiece := p.(y := landing));
      var r := HardDrop(rules, m, drawn, hs);
      && landing >= p.y
      && Grounded(rules, m.state.board, p.(y := landing))
      && r.state.score == m.state.score + 2 * (landing - p.y) +
           (match Place(rules, dropped, false) case Some(lk) => if lk.cleared == [] then lk.points else 0 case None => 0)
      && !r.lastMoveIsRotation
      && (AboveTop(PieceShape(rules, p), landing) ==> r.state.gameOver && r.state.board == m.state.board)
      && (!AboveTop(PieceShape(rules, p), landing) ==>
           var lk := Place(rules, dropped, false).value;
           && lk.board == Stamp(m.state.board, PieceShape(rules, p), p.x, landing, CellCode(TypeOf(p.spec)))
           && (lk.cleared == [] ==> r.state.board == lk.board && r.pendingClears == m.pendingClears)
           && (lk.cleared != [] ==>
                r.state.board == lk.board && r.state.clearingLines == lk.cleared
                && r.state.currentPiece == p.(y := landing) && r.pendingClears == m.pendingClears + [lk]))
  {
    var p := m.state.currentPiece;
    ShapeHasCell(rules, p);
    LandingSpec(rules, m.state.board, p);
    var landing := Landing(rules, m.state.board, p);
    var dm := m.(state := m.state.(currentPiece := p.(y := landing)), lastMoveIsRotation := false);
    LandingInBounds(rules, m.state.board, p);
    assert Inv(rules, dm);
    if !AboveTop(PieceShape(rules, p), landing) {
      PlacePieceTiming(rules, dm, drawn, hs);
      PlaceLocks(rules, dm.state, false);
    }
  }

  /** `softDrop` moves one row for one point when the row below is free, and otherwise only arms the lock delay. */
  lemma SoftDropSpec(rules: Rules, m: Machine)
    requires !m.state.gameOver
    ensures var p := m.state.currentPiece;
      var r := SoftDrop(rules, m);
      && (PieceFits(rules, m.state.board, p.(y := p.y + 1)) ==>
            r.state.currentPiece == p.(y := p.y + 1) && r.state.score == m.state.score + 1)
      && (!PieceFits(rules, m.state.board, p.(y := p.y + 1)) ==> r == m.(lockDelayArmed := true))
      && r.state.board == m.state.board
  {
  }

  /**
   * `rotatePiece`: the O piece and a finished game never rotate; otherwise the
   * piece either stays (no kick fits, or the table has no entry) or becomes the
   * first kick, in table order, that fits at the target rotation.
   */
  lemma RotateSpec(rules: Rules, m: Machine, clockwise: bool)
    ensures var p := m.state.currentPiece;
      var rotation := TargetRotation(p.rotation, clockwise);
      var kicks := KickList(rules, TypeOf(p.spec), p.rotation, rotation);
      var r := RotatePiece(rules, m, clockwise);
      && (m.state.gameOver || TypeOf(p.spec) == Some(O) ==> r == m)
      && (!m.state.gameOver && TypeOf(p.spec) != Some(O) ==>
           && ((forall i :: 0 <= i < |kicks| ==> !PieceFits(rules, m.state.board, Kicked(p, rotation, kicks[i]))) ==> r == m)
           && (r != m ==>
                && r.lastMoveIsRotation
                && r.state.currentPiece.rotation == rotation
                && (exists i :: 0 <= i < |kicks| && r.state.currentPiece == Kicked(p, rotation, kicks[i])
                     && PieceFits(rules, m.state.board, Kicked(p, rotation, kicks[i]))
                     && forall j :: 0 <= j < i ==> !PieceFits(rules, m.state.board, Kicked(p, rotation, kicks[j])))))
  {
    var p := m.state.currentPiece;
    var rotation := TargetRotation(p.rotation, clockwise);
    FirstFitSpec(rules, m.state.board, p, rotation, KickList(rules, TypeOf(p.spec), p.rotation, rotation));
  }
}
