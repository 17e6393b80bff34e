/**
 * Commands issued while a line clear waits out its 200 ms delay.
 *
 * `placePiece` publishes the stamped board and suspends; nothing stops the
 * player, the gravity loop or the lock-delay job from acting on the same
 * (already stamped) current piece in the meantime.  `Run` replays commands
 * exactly as the code accepts them; `GuardedStep` is the intended engine, in
 * which the clearing phase blocks every command except the end of the delay.
 * A restart does not cancel a suspended clear either; `RestartCancellingTimers`
 * is the intended restart.
 */
module ClearDelay {
  import opened Wrappers
  import opened Pieces
  import opened Grid
  import opened Engine
  import opened EngineCommands

  /** Apply the commands in order while each is allowed, as the code does. */
  ghost function Run(rules: Rules, m: Machine, cs: seq<Command>): Machine
    decreases |cs|
  {
    if cs == [] then m
    else if Inv(rules, m) && Enabled(m, cs[0]) then Run(rules, Step(rules, m, cs[0]), cs[1..])
    else m
  }

  /** The lock delay fires on a grounded piece that fills rows: the stamped board and its rows are published and one clear is queued. */
  lemma LockTimerPublishesClear(rules: Rules, m: Machine, drawn: PieceType, hs: int)
    requires Inv(rules, m) && m.pendingClears == [] && m.lockDelayArmed
    requires Grounded(rules, m.state.board, m.state.currentPiece)
    requires Place(rules, m.state, m.lastMoveIsRotation).Some? && Place(rules, m.state, m.lastMoveIsRotation).value.cleared != []
    ensures var lk := Place(rules, m.state, m.lastMoveIsRotation).value;
      && Inv(rules, Step(rules, m, LockTimer(drawn, hs)))
      && Step(rules, m, LockTimer(drawn, hs))
         == m.(state := m.state.(board := lk.board, clearingLines := lk.cleared),
               lastMoveIsRotation := false, lockDelayArmed := false, pendingClears := [lk])
  {
    StepKeepsInv(rules, m, LockTimer(drawn, hs));
  }

  /** A grounded piece stays grounded once its own cells are stamped under it. */
  lemma LockedPieceStaysGrounded(rules: Rules, s: GameState, lastMoveIsRotation: bool)
    requires ValidState(rules, s) && HasCell(PieceShape(rules, s.currentPiece))
    requires Grounded(rules, s.board, s.currentPiece)
    requires Place(rules, s, lastMoveIsRotation).Some?
    ensures var p := s.currentPiece;
      var b := Place(rules, s, lastMoveIsRotation).value.board;
      && WellFormed(b, rules.width, rules.height)
      && Grounded(rules, b, p)
      && Stamp(b, PieceShape(rules, p), p.x, p.y, CellCode(TypeOf(p.spec))) == b
  {
    var p := s.currentPiece;
    var shape := PieceShape(rules, p);
    var code := CellCode(TypeOf(p.spec));
    var b := Place(rules, s, lastMoveIsRotation).value.board;
    StampKeepsFilled(s.board, rules.width, rules.height, shape, p.x, p.y, code);
    if PieceFits(rules, b, p.(y := p.y + 1)) {
      FitsOnEmptierBoard(s.board, b, rules.width, rules.height, shape, p.x, p.y + 1);
      assert false;
    }
    StampTwice(s.board, shape, p.x, p.y, code);
  }

  /**
   * A hard drop on a grounded piece whose cells are already on the board
   * locks it where it is, onto the same board, and queues the same rows again.
   */
  lemma HardDropRelocks(rules: Rules, m: Machine, lk: Locked, drawn: PieceType, hs: int)
    requires Inv(rules, m) && !m.state.gameOver && !m.lastMoveIsRotation && m.pendingClears == [lk]
    requires Grounded(rules, m.state.board, m.state.currentPiece)
    requires !AboveTop(PieceShape(rules, m.state.currentPiece), m.state.currentPiece.y)
    requires var p := m.state.currentPiece;
      Stamp(m.state.board, PieceShape(rules, p), p.x, p.y, CellCode(TypeOf(p.spec))) == m.state.board
    requires FullRows(m.state.board) == lk.cleared && lk.cleared != []
    ensures var r := Step(rules, m, HardDropCmd(drawn, hs));
      && Inv(rules, r)
      && r.state.linesCleared == m.state.linesCleared
      && r.pendingClears == [lk, Locked(m.state.board, lk.cleared, LineScore(false, |lk.cleared|))]
  {
    var p := m.state.currentPiece;
    ShapeHasCell(rules, p);
    assert Landing(rules, m.state.board, p) == p.y;
    assert p.(y := p.y) == p;
    assert Place(rules, m.state, false) == Some(Locked(m.state.board, lk.cleared, LineScore(false, |lk.cleared|)));
    StepKeepsInv(rules, m, HardDropCmd(drawn, hs));
  }

  /** Two queued clears resolve one after the other, each adding its own rows to the count. */
  lemma TwoClearsCountBoth(rules: Rules, m: Machine, d1: PieceType, d2: PieceType, hs: int)
    requires Inv(rules, m) && |m.pendingClears| == 2
    ensures var m1 := Step(rules, m, ClearTimer(d1, hs));
      && Inv(rules, m1) && m1.pendingClears == [m.pendingClears[1]]
      && Step(rules, m1, ClearTimer(d2, hs)).state.linesCleared
         == m.state.linesCleared + |m.pendingClears[0].cleared| + |m.pendingClears[1].cleared|
  {
    StepKeepsInv(rules, m, ClearTimer(d1, hs));
  }

  lemma RunCons(rules: Rules, m: Machine, c: Command, rest: seq<Command>)
    requires Inv(rules, m) && Enabled(m, c)
    ensures Run(rules, m, [c] + rest) == Run(rules, Step(rules, m, c), rest)
  {
    assert ([c] + rest)[1..] == rest;
  }

  /** Four commands, each allowed in the state the previous one left, run one after the other. */
  lemma RunFour(rules: Rules, m: Machine, c1: Command, c2: Command, c3: Command, c4: Command)
    requires Inv(rules, m) && Enabled(m, c1)
    requires Inv(rules, Step(rules, m, c1)) && Enabled(Step(rules, m, c1), c2)
    requires Inv(rules, Step(rules, Step(rules, m, c1), c2)) && Enabled(Step(rules, Step(rules, m, c1), c2), c3)
    requires Inv(rules, Step(rules, Step(rules, Step(rules, m, c1), c2), c3))
    requires Enabled(Step(rules, Step(rules, Step(rules, m, c1), c2), c3), c4)
    ensures Run(rules, m, [c1, c2, c3, c4]) == Step(rules, Step(rules, Step(rules, Step(rules, m, c1), c2), c3), c4)
  {
    var m1 := Step(rules, m, c1);
    var m2 := Step(rules, m1, c2);
    var m3 := Step(rules, m2, c3);
    ConsFour(c1, c2, c3, c4);
    RunCons(rules, m3, c4, []);
    RunCons(rules, m2, c3, [c4]);
    RunCons(rules, m1, c2, [c3, c4]);
    RunCons(rules, m, c1, [c2, c3, c4]);
  }

  /** The four-command list built one command at a time. */
  lemma ConsFour<T>(a: T, b: T, c: T, d: T)
    ensures [d] + [] == [d] && [c] + [d] == [c, d] && [b] + [c, d] == [b, c, d] && [a] + [b, c, d] == [a, b, c, d]
  {
  }

  /** The lock delay locks the piece and a hard drop during the clear delay locks it again: two clears of the same rows are queued. */
  lemma LockThenHardDropQueuesTwice(rules: Rules, m: Machine, d1: PieceType, d2: PieceType, hs: int)
    requires Inv(rules, m) && !m.state.gameOver && m.pendingClears == [] && m.lockDelayArmed
    requires Grounded(rules, m.state.board, m.state.currentPiece)
    requires Place(rules, m.state, m.lastMoveIsRotation).Some? && Place(rules, m.state, m.lastMoveIsRotation).value.cleared != []
    ensures var rows := Place(rules, m.state, m.lastMoveIsRotation).value.cleared;
      var m1 := Step(rules, m, LockTimer(d1, hs));
      && Inv(rules, m1)
      && var m2 := Step(rules, m1, HardDropCmd(d2, hs));
      && Inv(rules, m2)
      && |m2.pendingClears| == 2
      && m2.pendingClears[0].cleared == rows && m2.pendingClears[1].cleared == rows
      && m2.state.linesCleared == m.state.linesCleared
  {
    var lk := Place(rules, m.state, m.lastMoveIsRotation).value;
    var p := m.state.currentPiece;
    var m1 := m.(state := m.state.(board := lk.board, clearingLines := lk.cleared),
                 lastMoveIsRotation := false, lockDelayArmed := false, pendingClears := [lk]);
    assert Step(rules, m, LockTimer(d1, hs)) == m1 && Inv(rules, m1) by {
      LockTimerPublishesClear(rules, m, d1, hs);
    }
    assert && Grounded(rules, m1.state.board, p)
           && Stamp(m1.state.board, PieceShape(rules, p), p.x, p.y, CellCode(TypeOf(p.spec))) == m1.state.board
           && !AboveTop(PieceShape(rules, p), p.y)
           && FullRows(m1.state.board) == lk.cleared by {
      ShapeHasCell(rules, p);
      LockedPieceStaysGrounded(rules, m.state, m.lastMoveIsRotation);
    }
    HardDropRelocks(rules, m1, lk, d2, hs);
  }

  /**
   * As written: when the lock delay locks a piece that fills rows and the
   * player hard-drops before the clear delay ends, the same piece is locked a
   * second time on the stamped board, a second clear of the same rows is
   * queued, and the line count grows by twice the rows that were full.
   */
  lemma HardDropDuringClearCountsRowsTwice(rules: Rules, m: Machine, d1: PieceType, d2: PieceType, d3: PieceType, d4: PieceType, hs: int)
    requires Inv(rules, m) && !m.state.gameOver && m.pendingClears == [] && m.lockDelayArmed
    requires Grounded(rules, m.state.board, m.state.currentPiece)
    requires Place(rules, m.state, m.lastMoveIsRotation).Some? && Place(rules, m.state, m.lastMoveIsRotation).value.cleared != []
    ensures Run(rules, m, [LockTimer(d1, hs), HardDropCmd(d2, hs), ClearTimer(d3, hs), ClearTimer(d4, hs)]).state.linesCleared
      == m.state.linesCleared + 2 * |Place(rules, m.state, m.lastMoveIsRotation).value.cleared|
  {
    var c1, c2, c3, c4 := LockTimer(d1, hs), HardDropCmd(d2, hs), ClearTimer(d3, hs), ClearTimer(d4, hs);
    LockThenHardDropQueuesTwice(rules, m, d1, d2, hs);
    var m1 := Step(rules, m, c1);
    var m2 := Step(rules, m1, c2);
    TwoClearsCountBoth(rules, m2, d3, d4, hs);
    RunFour(rules, m, c1, c2, c3, c4);
  }

  /** Intended: while a clear is pending, only the end of its delay is accepted. */
  function GuardedStep(rules: Rules, m: Machine, c: Command): Machine
    requires Inv(rules, m) && Enabled(m, c)
  {
    if m.pendingClears != [] && !c.ClearTimer? then m else Step(rules, m, c)
  }

  /** At most one clear is pending, and while it is, the screen shows its board and rows. */
  predicate OneClearAtATime(m: Machine)
  {
    && |m.pendingClears| <= 1
    && forall i :: 0 <= i < |m.pendingClears| ==> m.state.board == m.pendingClears[i].board && m.state.clearingLines == m.pendingClears[i].cleared
  }

  lemma PlacePieceQueuesAtMostOne(rules: Rules, m: Machine, drawn: PieceType, hs: int)
    requires Inv(rules, m) && m.pendingClears == []
    ensures OneClearAtATime(PlacePiece(rules, m, drawn, hs))
  {
    match Place(rules, m.state, m.lastMoveIsRotation)
    case None =>
    case Some(lk) =>
      if lk.cleared != [] {
        assert PlacePiece(rules, m, drawn, hs).pendingClears == [lk];
      }
  }

  /** The guarded engine never queues a second clear and resolves each clear against the board it published. */
  lemma GuardedStepKeepsOneClear(rules: Rules, m: Machine, c: Command)
    requires Inv(rules, m) && Enabled(m, c) && OneClearAtATime(m)
    ensures Inv(rules, GuardedStep(rules, m, c))
    ensures OneClearAtATime(GuardedStep(rules, m, c))
  {
    StepKeepsInv(rules, m, c);
    if m.pendingClears == [] {
      var p := m.state.currentPiece;
      ShapeHasCell(rules, p);
      match c
      case LockTimer(drawn, hs) =>
        PlacePieceQueuesAtMostOne(rules, m, drawn, hs);
      case HardDropCmd(drawn, hs) =>
        if !m.state.gameOver {
          LandingInBounds(rules, m.state.board, p);
          var dropped := m.(state := m.state.(currentPiece := p.(y := Landing(rules, m.state.board, p))), lastMoveIsRotation := false);
          PlacePieceQueuesAtMostOne(rules, dropped, drawn, hs);
        }
      case _ =>
    }
  }

  /**
   * Under the guard, a pending clear resolves by collapsing exactly the rows
   * on the board it published, once, and leaves nothing pending.
   */
  lemma GuardedClearCountsRowsOnce(rules: Rules, m: Machine, drawn: PieceType, hs: int)
    requires Inv(rules, m) && OneClearAtATime(m) && m.pendingClears != []
    ensures var r := GuardedStep(rules, m, ClearTimer(drawn, hs));
      && r.pendingClears == []
      && r.state.linesCleared == m.state.linesCleared + |FullRows(m.state.board)|
      && r.state.board == EmptyRows(|FullRows(m.state.board)|, rules.width) + NonFull(m.state.board)
  {
    var lk := m.pendingClears[0];
    assert PendingOk(rules, lk);
    ResolveSpec(rules, m.state, lk, drawn);
  }

  /** Apply the commands in order under the guard. */
  ghost function GuardedRun(rules: Rules, m: Machine, cs: seq<Command>): Machine
    decreases |cs|
  {
    if cs == [] then m
    else if Inv(rules, m) && Enabled(m, cs[0]) then GuardedRun(rules, GuardedStep(rules, m, cs[0]), cs[1..])
    else m
  }

  lemma GuardedRunCons(rules: Rules, m: Machine, c: Command, rest: seq<Command>)
    requires Inv(rules, m) && Enabled(m, c)
    ensures GuardedRun(rules, m, [c] + rest) == GuardedRun(rules, GuardedStep(rules, m, c), rest)
  {
    assert ([c] + rest)[1..] == rest;
  }

  /** Under the guard, three allowed commands run and a fourth that is not allowed stops the run. */
  lemma GuardedRunStopsAtFourth(rules: Rules, m: Machine, c1: Command, c2: Command, c3: Command, c4: Command)
    requires Inv(rules, m) && Enabled(m, c1)
    requires Inv(rules, GuardedStep(rules, m, c1)) && Enabled(GuardedStep(rules, m, c1), c2)
    requires Inv(rules, GuardedStep(rules, GuardedStep(rules, m, c1), c2)) && Enabled(GuardedStep(rules, GuardedStep(rules, m, c1), c2), c3)
    requires !Enabled(GuardedStep(rules, GuardedStep(rules, GuardedStep(rules, m, c1), c2), c3), c4)
    ensures GuardedRun(rules, m, [c1, c2, c3, c4]) == GuardedStep(rules, GuardedStep(rules, GuardedStep(rules, m, c1), c2), c3)
  {
    var m1 := GuardedStep(rules, m, c1);
    var m2 := GuardedStep(rules, m1, c2);
    var m3 := GuardedStep(rules, m2, c3);
    ConsFour(c1, c2, c3, c4);
    assert GuardedRun(rules, m3, [c4]) == m3;
    GuardedRunCons(rules, m2, c3, [c4]);
    GuardedRunCons(rules, m1, c2, [c3, c4]);
    GuardedRunCons(rules, m, c1, [c2, c3, c4]);
  }

  /** The scenario of `HardDropDuringClearCountsRowsTwice` under the guard: the hard drop waits, the rows count once and the second clear never comes. */
  lemma GuardedHardDropDuringClearCountsRowsOnce(rules: Rules, m: Machine, d1: PieceType, d2: PieceType, d3: PieceType, d4: PieceType, hs: int)
    requires Inv(rules, m) && !m.state.gameOver && m.pendingClears == [] && m.lockDelayArmed
    requires Grounded(rules, m.state.board, m.state.currentPiece)
    requires Place(rules, m.state, m.lastMoveIsRotation).Some? && Place(rules, m.state, m.lastMoveIsRotation).value.cleared != []
    ensures GuardedRun(rules, m, [LockTimer(d1, hs), HardDropCmd(d2, hs), ClearTimer(d3, hs), ClearTimer(d4, hs)]).state.linesCleared
      == m.state.linesCleared + |Place(rules, m.state, m.lastMoveIsRotation).value.cleared|
  {
    var c1, c2, c3, c4 := LockTimer(d1, hs), HardDropCmd(d2, hs), ClearTimer(d3, hs), ClearTimer(d4, hs);
    var lk := Place(rules, m.state, m.lastMoveIsRotation).value;
    var m1 := m.(state := m.state.(board := lk.board, clearingLines := lk.cleared),
                 lastMoveIsRotation := false, lockDelayArmed := false, pendingClears := [lk]);
    assert GuardedStep(rules, m, c1) == m1 && Inv(rules, m1) by {
      LockTimerPublishesClear(rules, m, d1, hs);
    }
    assert GuardedStep(rules, m1, c2) == m1;
    var m3 := GuardedStep(rules, m1, c3);
    assert Inv(rules, m3) && m3.pendingClears == [] && m3.state.linesCleared == m.state.linesCleared + |lk.cleared| by {
      StepKeepsInv(rules, m1, c3);
    }
    GuardedRunStopsAtFourth(rules, m, c1, c2, c3, c4);
  }

  // ---------------------------------------------------------------------------
  // Restart during the clear delay

  /**
   * As written: `restartGame` does not cancel a suspended clear, so when its
   * delay ends the fresh game receives the old game's collapsed board and is
   * credited with the old game's rows and points.
   */
  lemma RestartDuringClearInheritsOldRows(rules: Rules, m: Machine, first: PieceType, second: PieceType, drawn: PieceType, hs: int)
    requires Inv(rules, m) && m.pendingClears != []
    ensures var lk := m.pendingClears[0];
      var r := FinishLineClear(rules, RestartGame(rules, m, first, second), drawn, hs);
      && r.state.board == EmptyRows(|lk.cleared|, rules.width) + NonFull(lk.board)
      && r.state.linesCleared == |lk.cleared|
      && r.state.score == lk.points
  {
    var lk := m.pendingClears[0];
    assert PendingOk(rules, lk);
    ResolveSpec(rules, NewGame(rules, first, second), lk, drawn);
  }

  /** Intended: a restart also drops the old game's timers and suspended clears. */
  function RestartCancellingTimers(rules: Rules, m: Machine, first: PieceType, second: PieceType): Machine
  {
    m.(state := NewGame(rules, first, second), lastMoveIsRotation := false, lockDelayArmed := false, pendingClears := [])
  }

  /** After the corrected restart no timer of the old game can fire, and the fresh game is a valid empty game. */
  lemma RestartCancellingTimersStartsClean(rules: Rules, m: Machine, first: PieceType, second: PieceType, drawn: PieceType, hs: int)
    requires Inv(rules, m)
    ensures var r := RestartCancellingTimers(rules, m, first, second);
      && Inv(rules, r) && OneClearAtATime(r)
      && !Enabled(r, ClearTimer(drawn, hs)) && !Enabled(r, LockTimer(drawn, hs))
      && (forall y, x :: 0 <= y < rules.height && 0 <= x < rules.width ==> r.state.board[y][x] == 0)
      && r.state.score == 0 && r.state.linesCleared == 0
  {
    NewGameSpec(rules, first, second);
  }
}
