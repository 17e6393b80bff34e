/**
 * The rules engine of `vsh/kttrs/model/GameViewModel.kt` as a specification:
 * the game-state snapshot, the per-command transitions as functions, the
 * read-only board algorithms as methods, and what they promise as lemmas.
 *
 * The board size, the per-rotation shape lookup and the two kick tables live
 * in code that is not part of this model (`GameConstants`, `PieceSpec`), so
 * they are inputs here, bundled as `Rules`.
 */
module Engine {
  import opened Wrappers
  import opened Pieces
  import opened Grid

  /** A kick offset (dx, dy) in SRS coordinates, where +dy points up. */
  type Kick = (int, int)

  /** (from rotation, to rotation) to the kick offsets to try, in order. */
  type KickTable = map<(int, int), seq<Kick>>

  /** Board size, `getShapeForRotation`, `iKickData` and `commonKickData`. */
  datatype Rules = Rules(width: nat, height: nat, shapeOf: (Spec, int) -> Shape, iKicks: KickTable, commonKicks: KickTable)

  /** A `PieceSpec`: a standard piece type, or another spec (as the tests build) whose declared type may be absent. */
  datatype Spec = Standard(t: PieceType) | Custom(id: int, declared: Option<PieceType>)

  /** The spec's `type`, absent for a custom spec that declares none. */
  function TypeOf(spec: Spec): Option<PieceType>
  {
    match spec
    case Standard(t) => Some(t)
    case Custom(_, declared) => declared
  }

  /** A piece on the board: its shape is looked up from spec and rotation, never stored. */
  datatype Piece = Piece(spec: Spec, x: int, y: int, rotation: int)

  /** The observable snapshot (`GameState` without the UI-only `controlMode`; the ghost is derived). */
  datatype GameState = GameState(
    board: Board,
    currentPiece: Piece,
    nextPiece: Piece,
    heldPiece: Option<Piece>,
    canHold: bool,
    score: int,
    gameOver: bool,
    linesCleared: int,
    gameSpeed: int,
    clearingLines: seq<int>)

  /**
   * Kotlin's `%` on `Int`: the remainder takes the sign of the dividend and
   * completes the truncating quotient `Quot` back to the dividend.
   */
  function Rem(a: int, b: int): (r: int)
    requires b > 0
    ensures a >= 0 ==> 0 <= r < b
    ensures a < 0 ==> -b < r <= 0
    ensures a == Quot(a, b) * b + r
  {
    QuotTruncates(a, b);
    if a >= 0 then a % b else -((-a) % b)
  }

  /**
   * Kotlin's `/` on `Int`: the quotient is truncated toward zero, written as
   * repeated subtraction (`QuotTruncates` ties it to division).
   */
  function Quot(a: int, b: int): int
    requires b > 0
    decreases if a < 0 then 1 - a else a
  {
    if a < 0 then -Quot(-a, b)
    else if a < b then 0
    else 1 + Quot(a - b, b)
  }

  /** `Quot` is division of the magnitudes with the sign of the dividend. */
  lemma QuotTruncates(a: int, b: int)
    requires b > 0
    ensures Quot(a, b) == if a >= 0 then a / b else -((-a) / b)
  {
    if a >= 0 {
      QuotOfNatural(a, b);
    } else {
      QuotOfNatural(-a, b);
    }
  }

  lemma {:induction false} QuotOfNatural(a: int, b: int)
    requires a >= 0 && b > 0
    ensures Quot(a, b) == a / b
    decreases a
  {
    if a >= b {
      QuotOfNatural(a - b, b);
      DivStep(a, b);
    } else {
      DivSmall(a, b);
    }
  }

  lemma DivSmall(a: int, b: int)
    requires 0 <= a < b
    ensures a / b == 0
  {
    var q, r := a / b, a % b;
    assert a == q * b + r && 0 <= r < b;
    if q > 0 {
      MulAtLeast(q, b);
    } else if q < 0 {
      MulAtLeast(-q, b);
    }
  }

  lemma DivStep(a: int, b: int)
    requires 0 < b <= a
    ensures a / b == (a - b) / b + 1
  {
    var q, r := (a - b) / b + 1, (a - b) % b;
    var q1, r1 := a / b, a % b;
    assert a == q * b + r by {
      assert a - b == ((a - b) / b) * b + r;
    }
    assert a == q1 * b + r1;
    assert (q1 - q) * b == r - r1;
    if q1 > q {
      MulAtLeast(q1 - q, b);
    } else if q1 < q {
      MulAtLeast(q - q1, b);
    }
  }

  lemma MulAtLeast(k: int, b: int)
    requires k >= 1 && b > 0
    ensures k * b >= b
  {
  }

  function PieceShape(rules: Rules, p: Piece): Shape
  {
    rules.shapeOf(p.spec, p.rotation)
  }

  /** `isValidPosition(piece, board)`. */
  predicate PieceFits(rules: Rules, board: Board, p: Piece)
  {
    Fits(board, rules.width, rules.height, PieceShape(rules, p), p.x, p.y)
  }

  predicate PieceInBounds(rules: Rules, p: Piece)
  {
    InBounds(rules.width, rules.height, PieceShape(rules, p), p.x, p.y)
  }

  /** The piece cannot move one row down. */
  predicate Grounded(rules: Rules, board: Board, p: Piece)
  {
    !PieceFits(rules, board, p.(y := p.y + 1))
  }

  /** `randomPiece()` for a drawn type: anchored at column `BOARD_WIDTH / 2 - 1`, row 0, rotation 0. */
  function Spawn(rules: Rules, t: PieceType): Piece
  {
    Piece.Piece(Standard(t), rules.width / 2 - 1, 0, 0)
  }

  /** What the engine relies on from its constants: every shape has a cell and every spawned piece is inside the walls. */
  ghost predicate WellFormedRules(rules: Rules)
  {
    && (forall t, r :: HasCell(rules.shapeOf(t, r)))
    && (forall t :: PieceInBounds(rules, Spawn(rules, t)))
  }

  /** The board has the configured size and every piece the state holds is inside the walls and above the floor. */
  predicate ValidState(rules: Rules, s: GameState)
  {
    && WellFormed(s.board, rules.width, rules.height)
    && PieceInBounds(rules, s.currentPiece)
    && PieceInBounds(rules, s.nextPiece)
    && (s.heldPiece.Some? ==> PieceInBounds(rules, s.heldPiece.value))
  }

  lemma ShapeHasCell(rules: Rules, p: Piece)
    requires WellFormedRules(rules)
    ensures HasCell(PieceShape(rules, p))
  {
    var s := rules.shapeOf(p.spec, p.rotation);
    assert HasCell(s);
  }

  lemma SpawnInBounds(rules: Rules, t: PieceType)
    requires WellFormedRules(rules)
    ensures PieceInBounds(rules, Spawn(rules, t))
  {
  }

  /** A piece with a cell that fits has its anchor above the floor. */
  lemma FitsAboveFloor(rules: Rules, board: Board, p: Piece)
    requires HasCell(PieceShape(rules, p)) && PieceFits(rules, board, p)
    ensures p.y < rules.height
  {
    var s := PieceShape(rules, p);
    var r, c :| 0 <= r < |s| && 0 <= c < |s[r]| && s[r][c] == 1;
    assert CellOk(board, rules.width, rules.height, p.x + c, p.y + r);
  }

  // ---------------------------------------------------------------------------
  // Ghost projection and hard-drop landing

  /** The row reached by moving down while the next row down is valid (`calculateGhostPiecePosition`). */
  function Landing(rules: Rules, board: Board, p: Piece): int
    requires HasCell(PieceShape(rules, p))
    decreases rules.height - p.y
  {
    var q := p.(y := p.y + 1);
    if PieceFits(rules, board, q) then
      FitsAboveFloor(rules, board, q);
      Landing(rules, board, q)
    else p.y
  }

  /**
   * The landing row is the lowest row reachable from the piece's row: every
   * row on the way down fits, the row below it does not, and column and
   * rotation are unchanged.
   */
  lemma {:induction false} LandingSpec(rules: Rules, board: Board, p: Piece)
    requires HasCell(PieceShape(rules, p))
    ensures Landing(rules, board, p) >= p.y
    ensures Grounded(rules, board, p.(y := Landing(rules, board, p)))
    ensures forall y :: p.y < y <= Landing(rules, board, p) ==> PieceFits(rules, board, p.(y := y))
    ensures PieceFits(rules, board, p) ==> PieceFits(rules, board, p.(y := Landing(rules, board, p)))
    decreases rules.height - p.y
  {
    var q := p.(y := p.y + 1);
    if PieceFits(rules, board, q) {
      FitsAboveFloor(rules, board, q);
      LandingSpec(rules, board, q);
      assert q.(y := Landing(rules, board, q)) == p.(y := Landing(rules, board, p));
      forall y | p.y < y <= Landing(rules, board, p)
        ensures PieceFits(rules, board, p.(y := y))
      {
        if y > q.y {
          assert q.(y := y) == p.(y := y);
        }
      }
    } else {
      assert p.(y := p.y) == p;
    }
  }

  /** `calculateGhostPiecePosition`: step down while the next row is valid. */
  method CalculateGhostPiecePosition(rules: Rules, currentPiece: Piece, board: Board) returns (ghostPiece: Piece)
    requires WellFormed(board, rules.width, rules.height)
    requires HasCell(PieceShape(rules, currentPiece))
    ensures ghostPiece == currentPiece.(y := Landing(rules, board, currentPiece))
    ensures ghostPiece.y >= currentPiece.y && Grounded(rules, board, ghostPiece)
  {
    var ghostY := currentPiece.y;
    while true
      invariant Landing(rules, board, currentPiece.(y := ghostY)) == Landing(rules, board, currentPiece)
      decreases rules.height - ghostY
    {
      var newPiece := currentPiece.(y := ghostY + 1);
      var ok := IsValidPosition(board, rules.width, rules.height, PieceShape(rules, newPiece), newPiece.x, newPiece.y);
      if ok {
        FitsAboveFloor(rules, board, newPiece);
        ghostY := ghostY + 1;
      } else {
        break;
      }
    }
    ghostPiece := currentPiece.(y := ghostY);
    LandingSpec(rules, board, currentPiece);
  }

  // ---------------------------------------------------------------------------
  // Rotation with kicks

  /** Clockwise adds one quarter turn, counter-clockwise three, modulo 4 as Kotlin computes it. */
  function TargetRotation(rotation: int, clockwise: bool): int
  {
    if clockwise then Rem(rotation + 1, 4) else Rem(rotation + 3, 4)
  }

  /** From a rotation in 0..3 the target is in 0..3, and turning back the other way returns to the start. */
  lemma TargetRotationInverse(rotation: int, clockwise: bool)
    requires 0 <= rotation < 4
    ensures 0 <= TargetRotation(rotation, clockwise) < 4
    ensures TargetRotation(TargetRotation(rotation, clockwise), !clockwise) == rotation
  {
  }

  /** `kickData[old to new] ?: emptyList()`, from the I table for I pieces and the common table otherwise. */
  function KickList(rules: Rules, kind: Option<PieceType>, from: int, to: int): seq<Kick>
  {
    var table := if kind == Some(I) then rules.iKicks else rules.commonKicks;
    if (from, to) in table then table[(from, to)] else []
  }

  /** The piece rotated to `rotation` and shifted by a kick; board y grows downward, so dy is subtracted. */
  function Kicked(p: Piece, rotation: int, k: Kick): Piece
  {
    Piece.Piece(p.spec, p.x + k.0, p.y - k.1, rotation)
  }

  /** The first kicked placement that fits, trying the kicks in order. */
  function FirstFit(rules: Rules, board: Board, p: Piece, rotation: int, kicks: seq<Kick>): Option<Piece>
  {
    if kicks == [] then None
    else if PieceFits(rules, board, Kicked(p, rotation, kicks[0])) then Some(Kicked(p, rotation, kicks[0]))
    else FirstFit(rules, board, p, rotation, kicks[1..])
  }

  /** No kick fits exactly when the search fails; otherwise it returns the first kick, in table order, that fits. */
  lemma {:induction false} FirstFitSpec(rules: Rules, board: Board, p: Piece, rotation: int, kicks: seq<Kick>)
    ensures FirstFit(rules, board, p, rotation, kicks).None? <==>
      forall i :: 0 <= i < |kicks| ==> !PieceFits(rules, board, Kicked(p, rotation, kicks[i]))
    ensures FirstFit(rules, board, p, rotation, kicks).Some? ==>
      exists i :: 0 <= i < |kicks|
        && FirstFit(rules, board, p, rotation, kicks).value == Kicked(p, rotation, kicks[i])
        && PieceFits(rules, board, Kicked(p, rotation, kicks[i]))
        && forall j :: 0 <= j < i ==> !PieceFits(rules, board, Kicked(p, rotation, kicks[j]))
  {
    if kicks != [] {
      FirstFitSpec(rules, board, p, rotation, kicks[1..]);
      if !PieceFits(rules, board, Kicked(p, rotation, kicks[0])) {
        forall i | 0 < i < |kicks|
          ensures kicks[i] == kicks[1..][i - 1]
        {
        }
        if FirstFit(rules, board, p, rotation, kicks).Some? {
          var i :| 0 <= i < |kicks[1..]|
            && FirstFit(rules, board, p, rotation, kicks[1..]).value == Kicked(p, rotation, kicks[1..][i])
            && PieceFits(rules, board, Kicked(p, rotation, kicks[1..][i]))
            && forall j :: 0 <= j < i ==> !PieceFits(rules, board, Kicked(p, rotation, kicks[1..][j]));
          assert forall j :: 0 <= j < i + 1 ==> !PieceFits(rules, board, Kicked(p, rotation, kicks[j]));
        }
      }
    }
  }

  lemma {:induction false} FirstFitFits(rules: Rules, board: Board, p: Piece, rotation: int, kicks: seq<Kick>)
    requires FirstFit(rules, board, p, rotation, kicks).Some?
    ensures PieceFits(rules, board, FirstFit(rules, board, p, rotation, kicks).value)
    ensures FirstFit(rules, board, p, rotation, kicks).value.rotation == rotation
  {
    FirstFitSpec(rules, board, p, rotation, kicks);
  }

  /** The landed piece stays inside the walls. */
  lemma LandingInBounds(rules: Rules, board: Board, p: Piece)
    requires HasCell(PieceShape(rules, p)) && PieceInBounds(rules, p)
    ensures PieceInBounds(rules, p.(y := Landing(rules, board, p)))
  {
    LandingSpec(rules, board, p);
    var l := Landing(rules, board, p);
    if l == p.y {
      assert p.(y := l) == p;
    } else {
      FitsInBounds(board, rules.width, rules.height, PieceShape(rules, p), p.x, l);
    }
  }

  // ---------------------------------------------------------------------------
  // T-Spin corners

  /** A corner counts as occupied when it is off the board or holds a filled cell. */
  predicate Blocked(board: Board, w: int, h: int, x: int, y: int)
    requires WellFormed(board, w, h)
  {
    x < 0 || x >= w || y < 0 || y >= h || board[y][x] != 0
  }

  /** The four diagonal neighbours of the centre (top-left, top-right, bottom-left, bottom-right). */
  function Corners(cx: int, cy: int): seq<(int, int)>
  {
    [(cx - 1, cy - 1), (cx + 1, cy - 1), (cx - 1, cy + 1), (cx + 1, cy + 1)]
  }

  /** How many of the first `n` cells of `cs` are blocked. */
  function BlockedCount(board: Board, w: int, h: int, cs: seq<(int, int)>, n: nat): nat
    requires WellFormed(board, w, h) && n <= |cs|
  {
    if n == 0 then 0
    else BlockedCount(board, w, h, cs, n - 1) + (if Blocked(board, w, h, cs[n - 1].0, cs[n - 1].1) then 1 else 0)
  }

  /** A T piece with at least three of the four corners around the centre of its 3x3 box occupied. */
  predicate TSpin(rules: Rules, board: Board, p: Piece)
    requires WellFormed(board, rules.width, rules.height)
  {
    TypeOf(p.spec) == Some(T) && BlockedCount(board, rules.width, rules.height, Corners(p.x + 1, p.y + 1), 4) >= 3
  }

  /** `isTSpin`: count the occupied corners one by one. */
  method IsTSpin(rules: Rules, piece: Piece, board: Board) returns (tSpin: bool)
    requires WellFormed(board, rules.width, rules.height)
    ensures tSpin <==> TSpin(rules, board, piece)
    ensures tSpin ==> TypeOf(piece.spec) == Some(T)
  {
    if TypeOf(piece.spec) != Some(T) {
      return false;
    }
    var cx, cy := piece.x + 1, piece.y + 1;
    var corners := Corners(cx, cy);
    var occupiedCorners := 0;
    var i := 0;
    while i < |corners|
      invariant 0 <= i <= |corners|
      invariant occupiedCorners == BlockedCount(board, rules.width, rules.height, corners, i)
    {
      var (x, y) := corners[i];
      if x < 0 || x >= rules.width || y < 0 || y >= rules.height || board[y][x] != 0 {
        occupiedCorners := occupiedCorners + 1;
      }
      i := i + 1;
    }
    return occupiedCorners >= 3;
  }

  // ---------------------------------------------------------------------------
  // Locking, clearing and scoring

  /** Points for a lock: the T-Spin table or the normal table, by number of cleared lines. */
  function LineScore(tSpin: bool, lines: nat): nat
  {
    if tSpin then
      (if lines == 1 then 800 else if lines == 2 then 1200 else 400)
    else
      (if lines == 1 then 100 else if lines == 2 then 300 else if lines == 3 then 500 else if lines == 4 then 800 else 0)
  }

  /** `gameSpeed` after a lock: 500 ms, 50 ms faster per 10 lines, never below 100 ms. */
  function Speed(linesCleared: int): int
  {
    var s := 500 - Quot(linesCleared, 10) * 50;
    if s < 100 then 100 else s
  }

  /** What a lock computes before the clear delay: the stamped board, its full rows and the points earned. */
  datatype Locked = Locked(board: Board, cleared: seq<int>, points: int)

  /** The cell code a locked piece leaves: its type's ordinal plus one, or 1 when the spec has no type. */
  function CellCode(kind: Option<PieceType>): (code: int)
    ensures 1 <= code <= |Entries|
    ensures kind.Some? ==> Entries[code - 1] == kind.value
    ensures kind.None? ==> code == 1
  {
    match kind
    case Some(t) => Ordinal(t) + 1
    case None => 0 + 1
  }

  /**
   * `placePiece` up to the launch of the clear: None when a cell of the piece
   * is above the top (game over), otherwise the stamped board, the full rows
   * and the score for them.
   */
  function Place(rules: Rules, s: GameState, lastMoveIsRotation: bool): Option<Locked>
    requires WellFormed(s.board, rules.width, rules.height)
  {
    var p := s.currentPiece;
    var shape := PieceShape(rules, p);
    if AboveTop(shape, p.y) then None
    else
      var tSpin := lastMoveIsRotation && TSpin(rules, s.board, p);
      var newBoard := Stamp(s.board, shape, p.x, p.y, CellCode(TypeOf(p.spec)));
      var cleared := FullRows(newBoard);
      Some(Locked(newBoard, cleared, LineScore(tSpin, |cleared|)))
  }

  /** `boardForNextPiece`: the stamped board with its cleared rows collapsed. */
  function BoardAfterClear(lk: Locked, w: nat): Board
  {
    if lk.cleared != [] then Collapse(lk.board, lk.cleared, w) else lk.board
  }

  /** The next piece does not fit on the board left after the clear. */
  predicate SpawnBlocked(rules: Rules, s: GameState, lk: Locked)
  {
    !PieceFits(rules, BoardAfterClear(lk, rules.width), s.nextPiece)
  }

  /** `updateStateAfterPiecePlaced` once the clear delay is over, with `drawn` the randomizer's next type. */
  function Resolve(rules: Rules, s: GameState, lk: Locked, drawn: PieceType): GameState
  {
    var lines := s.linesCleared + |lk.cleared|;
    s.(board := BoardAfterClear(lk, rules.width),
       score := s.score + lk.points,
       currentPiece := s.nextPiece,
       nextPiece := Spawn(rules, drawn),
       gameOver := s.gameOver || SpawnBlocked(rules, s, lk),
       linesCleared := lines,
       gameSpeed := Speed(lines),
       canHold := true,
       clearingLines := [])
  }

  /** The high score is saved only when this spawn ended the game and the new score beats the persisted one. */
  predicate SaveRequested(rules: Rules, s: GameState, lk: Locked, persistedHighScore: int)
  {
    SpawnBlocked(rules, s, lk) && s.score + lk.points > persistedHighScore
  }

  // ---------------------------------------------------------------------------
  // Hold

  /** `holdPiece`, with `drawn` the randomizer's next type when the hold was empty. */
  function Hold(rules: Rules, s: GameState, drawn: PieceType): GameState
  {
    if s.gameOver || !s.canHold then s
    else match s.heldPiece
      case None => s.(currentPiece := s.nextPiece, nextPiece := Spawn(rules, drawn), heldPiece := Some(s.currentPiece), canHold := false)
      case Some(held) => s.(currentPiece := held, heldPiece := Some(s.currentPiece), canHold := false)
  }

  /** A fresh game: empty board, two drawn pieces, nothing held, zero score, speed 500. */
  function NewGame(rules: Rules, first: PieceType, second: PieceType): GameState
  {
    GameState(EmptyRows(rules.height, rules.width), Spawn(rules, first), Spawn(rules, second), None, true, 0, false, 0, 500, [])
  }

  // ---------------------------------------------------------------------------
  // Properties of locking, resolving and holding

  /** `getClearedLines`: scan the rows top to bottom and collect the full ones. */
  method GetClearedLines(board: Board) returns (clearedLinesIndices: seq<int>)
    ensures clearedLinesIndices == FullRows(board)
    ensures StrictlyIncreasing(clearedLinesIndices)
    ensures forall k :: k in clearedLinesIndices <==> 0 <= k < |board| && RowFull(board[k])
  {
    clearedLinesIndices := [];
    var y := 0;
    while y < |board|
      invariant 0 <= y <= |board|
      invariant clearedLinesIndices == FullRowsBelow(board, y)
    {
      if RowFull(board[y]) {
        clearedLinesIndices := clearedLinesIndices + [y];
      }
      y := y + 1;
    }
    FullRowsSpec(board);
  }

  /** The first loop of `placePiece`: look for an occupied cell above the top row. */
  method CellAboveTop(shape: Shape, py: int) returns (above: bool)
    ensures above <==> AboveTop(shape, py)
  {
    var y := 0;
    while y < |shape|
      invariant 0 <= y <= |shape|
      invariant forall r, c :: 0 <= r < y && 0 <= c < |shape[r]| && shape[r][c] == 1 ==> py + r >= 0
    {
      var x := 0;
      while x < |shape[y]|
        invariant 0 <= x <= |shape[y]|
        invariant forall c :: 0 <= c < x && shape[y][c] == 1 ==> py + y >= 0
      {
        if shape[y][x] == 1 && py + y < 0 {
          return true;
        }
        x := x + 1;
      }
      y := y + 1;
    }
    return false;
  }

  /** A piece inside the walls with no cell above the top lands entirely on a board of the configured size. */
  lemma LandsWhenNotAboveTop(rules: Rules, board: Board, p: Piece)
    requires WellFormed(board, rules.width, rules.height)
    requires PieceInBounds(rules, p) && !AboveTop(PieceShape(rules, p), p.y)
    ensures LandsOnBoard(board, PieceShape(rules, p), p.x, p.y)
  {
  }

  /** Below the top, a lock is the stamped board, its full rows and the points for them. */
  lemma PlaceLocks(rules: Rules, s: GameState, lastMoveIsRotation: bool)
    requires WellFormed(s.board, rules.width, rules.height)
    requires !AboveTop(PieceShape(rules, s.currentPiece), s.currentPiece.y)
    ensures var p := s.currentPiece;
      var nb := Stamp(s.board, PieceShape(rules, p), p.x, p.y, CellCode(TypeOf(p.spec)));
      Place(rules, s, lastMoveIsRotation) == Some(Locked(nb, FullRows(nb), LineScore(lastMoveIsRotation && TSpin(rules, s.board, p), |FullRows(nb)|)))
  {
  }

  /**
   * The stamped board: the piece's cells carry the code it is stamped with
   * (`CellCode` of its type when it locks) and every other cell is as before.
   */
  lemma StampedPieceSpec(rules: Rules, s: GameState, code: int)
    requires WellFormed(s.board, rules.width, rules.height) && PieceInBounds(rules, s.currentPiece)
    requires !AboveTop(PieceShape(rules, s.currentPiece), s.currentPiece.y)
    ensures var p := s.currentPiece;
      var nb := Stamp(s.board, PieceShape(rules, p), p.x, p.y, code);
      && WellFormed(nb, rules.width, rules.height)
      && (forall r, c :: Occupies(PieceShape(rules, p), r, c) ==> 0 <= p.y + r < rules.height && 0 <= p.x + c < rules.width && nb[p.y + r][p.x + c] == code)
      && (forall y, x :: 0 <= y < rules.height && 0 <= x < rules.width && !Occupies(PieceShape(rules, p), y - p.y, x - p.x) ==> nb[y][x] == s.board[y][x])
  {
    var p := s.currentPiece;
    LandsWhenNotAboveTop(rules, s.board, p);
    StampSpec(s.board, rules.width, rules.height, PieceShape(rules, p), p.x, p.y, code);
  }

  /**
   * `placePiece`: the lock fails (game over) exactly when a cell is above the
   * top; otherwise each occupied cell is written with the type's ordinal plus
   * one and every other cell is kept, the cleared rows are exactly the full
   * rows of the new board in ascending order, and the points follow the
   * T-Spin table only when the last move was a rotation of a T with three
   * corners occupied.
   */
  lemma PlaceSpec(rules: Rules, s: GameState, lastMoveIsRotation: bool)
    requires ValidState(rules, s)
    ensures Place(rules, s, lastMoveIsRotation).None? <==> AboveTop(PieceShape(rules, s.currentPiece), s.currentPiece.y)
    ensures Place(rules, s, lastMoveIsRotation).Some? ==>
      var lk := Place(rules, s, lastMoveIsRotation).value;
      var p := s.currentPiece;
      && WellFormed(lk.board, rules.width, rules.height)
      && (forall r, c :: Occupies(PieceShape(rules, p), r, c) ==> 0 <= p.y + r < rules.height && 0 <= p.x + c < rules.width && lk.board[p.y + r][p.x + c] == CellCode(TypeOf(p.spec)))
      && (forall y, x :: 0 <= y < rules.height && 0 <= x < rules.width && !Occupies(PieceShape(rules, p), y - p.y, x - p.x) ==> lk.board[y][x] == s.board[y][x])
      && StrictlyIncreasing(lk.cleared)
      && (forall k :: k in lk.cleared <==> 0 <= k < rules.height && RowFull(lk.board[k]))
      && lk.points == LineScore(lastMoveIsRotation && TypeOf(p.spec) == Some(T) && BlockedCount(s.board, rules.width, rules.height, Corners(p.x + 1, p.y + 1), 4) >= 3, |lk.cleared|)
  {
    if !AboveTop(PieceShape(rules, s.currentPiece), s.currentPiece.y) {
      var p := s.currentPiece;
      var nb := Stamp(s.board, PieceShape(rules, p), p.x, p.y, CellCode(TypeOf(p.spec)));
      PlaceLocks(rules, s, lastMoveIsRotation);
      StampedPieceSpec(rules, s, CellCode(TypeOf(s.currentPiece.spec)));
      FullRowsSpec(nb);
    }
  }

  /**
   * `updateStateAfterPiecePlaced`: the board keeps its size, with as many
   * empty rows on top as rows cleared and then the rows that were not full in
   * their order; lines and score grow by the lock's count and points; the
   * speed follows the curve; the next piece becomes current; hold is allowed
   * again; and the game is over exactly when it already was or the new piece
   * does not fit.
   */
  lemma ResolveSpec(rules: Rules, s: GameState, lk: Locked, drawn: PieceType)
    requires WellFormed(lk.board, rules.width, rules.height) && lk.cleared == FullRows(lk.board)
    ensures var r := Resolve(rules, s, lk, drawn);
      && r.board == EmptyRows(|lk.cleared|, rules.width) + NonFull(lk.board)
      && WellFormed(r.board, rules.width, rules.height)
      && r.linesCleared == s.linesCleared + |lk.cleared|
      && r.score == s.score + lk.points
      && r.gameSpeed == Speed(r.linesCleared)
      && (r.linesCleared >= 0 ==> 100 <= r.gameSpeed <= 500)
      && r.currentPiece == s.nextPiece && r.nextPiece == Spawn(rules, drawn)
      && r.canHold && r.clearingLines == [] && r.heldPiece == s.heldPiece
      && (r.gameOver <==> s.gameOver || !PieceFits(rules, r.board, s.nextPiece))
  {
    CollapseFullRows(lk.board, rules.width);
    if lk.cleared == [] {
      FullRowsSpec(lk.board);
      NonFullWhenNoneFull(lk.board);
      assert EmptyRows(0, rules.width) + lk.board == lk.board;
    }
    if s.linesCleared + |lk.cleared| >= 0 {
      SpeedCurve(s.linesCleared + |lk.cleared|);
    }
  }

  /**
   * The speed curve: 500 ms with no lines, never outside 100..500 ms for a
   * nonnegative line count, never slower after more lines, and at the 100 ms
   * floor exactly from 80 lines on.
   */
  lemma SpeedCurve(lines: int)
    requires lines >= 0
    ensures Speed(lines) == if lines >= 80 then 100 else 500 - 50 * (lines / 10)
    ensures 100 <= Speed(lines) <= 500
    ensures lines < 10 ==> Speed(lines) == 500
    ensures Speed(lines) == 100 <==> lines >= 80
    ensures forall more :: lines <= more ==> Speed(more) <= Speed(lines)
  {
    QuotTruncates(lines, 10);
    forall more | lines <= more
      ensures Speed(more) <= Speed(lines)
    {
      QuotTruncates(more, 10);
      assert Quot(lines, 10) <= Quot(more, 10);
    }
  }

  /**
   * `holdPiece`: nothing changes when the game is over or hold is spent;
   * otherwise the current piece is held (at its position) and hold is spent,
   * and the new current piece is the previous next piece (a new one drawn)
   * when nothing was held, or the previously held piece (next kept).  The
   * board, score and line count never change.
   */
  lemma HoldSpec(rules: Rules, s: GameState, drawn: PieceType)
    ensures var r := Hold(rules, s, drawn);
      && r.board == s.board && r.score == s.score && r.linesCleared == s.linesCleared && r.gameOver == s.gameOver
      && (s.gameOver || !s.canHold ==> r == s)
      && (!s.gameOver && s.canHold ==>
           && r.heldPiece == Some(s.currentPiece) && !r.canHold
           && (s.heldPiece.None? ==> r.currentPiece == s.nextPiece && r.nextPiece == Spawn(rules, drawn))
           && (s.heldPiece.Some? ==> r.currentPiece == s.heldPiece.value && r.nextPiece == s.nextPiece))
  {
  }

  /** A second hold before the next lock does nothing. */
  lemma HoldTwice(rules: Rules, s: GameState, first: PieceType, second: PieceType)
    ensures Hold(rules, Hold(rules, s, first), second) == Hold(rules, s, first)
  {
  }

  /** Hold keeps every piece the state holds inside the walls. */
  lemma HoldKeepsValid(rules: Rules, s: GameState, drawn: PieceType)
    requires WellFormedRules(rules) && ValidState(rules, s)
    ensures ValidState(rules, Hold(rules, s, drawn))
  {
    SpawnInBounds(rules, drawn);
  }

  /** A new game has an empty board of the configured size, no score, no lines, full speed and hold available. */
  lemma NewGameSpec(rules: Rules, first: PieceType, second: PieceType)
    requires WellFormedRules(rules)
    ensures var g := NewGame(rules, first, second);
      && ValidState(rules, g)
      && (forall y, x :: 0 <= y < rules.height && 0 <= x < rules.width ==> g.board[y][x] == 0)
      && g.score == 0 && g.linesCleared == 0 && !g.gameOver && g.canHold && g.heldPiece.None?
      && g.gameSpeed == Speed(0)
  {
    SpawnInBounds(rules, first);
    SpawnInBounds(rules, second);
  }
}
