/**
 * The older engine, `com/example/kttrs/GameViewModel.kt`: a single falling
 * piece that carries its own shape matrix and colour, rotation by turning the
 * matrix a quarter turn with sideways kicks only, and 100 points per cleared
 * line.  The board is 10 by 20; `Random.nextInt` is a parameter.
 */
module Legacy {
  import opened Wrappers
  import opened Pieces
  import opened Grid
  import opened Constants
  import Engine

  /** A piece as this engine builds it: shape matrix, colour and anchor. */
  datatype FallingPiece = FallingPiece(shape: Shape, color: Color, x: int, y: int)

  datatype LegacyState = LegacyState(
    board: Board,
    currentPiece: FallingPiece,
    score: int,
    gameOver: bool,
    linesCleared: int,
    gameSpeed: int)

  /** A nonempty rectangular matrix: what the quarter turn needs. */
  predicate Matrix(s: Shape)
  {
    |s| > 0 && |s[0]| > 0 && Rectangular(s)
  }

  predicate PieceFits(board: Board, p: FallingPiece)
  {
    Fits(board, BoardWidth, BoardHeight, p.shape, p.x, p.y)
  }

  /** The board is 10 by 20 and the falling piece is a matrix inside the walls and above the floor. */
  predicate Inv(s: LegacyState)
  {
    && WellFormed(s.board, BoardWidth, BoardHeight)
    && Matrix(s.currentPiece.shape)
    && InBounds(BoardWidth, BoardHeight, s.currentPiece.shape, s.currentPiece.x, s.currentPiece.y)
  }

  /** `randomPiece()` for the drawn index: the shape and colour at that index, anchored at column 4, row 0. */
  function RandomPiece(index: int): FallingPiece
    requires 0 <= index < |Shapes|
  {
    FallingPiece(Shapes[index], Colors[index], BoardWidth / 2 - 1, 0)
  }

  /** The fresh state built by the view model's initialiser. */
  function NewLegacyGame(index: int): LegacyState
    requires 0 <= index < |Shapes|
  {
    LegacyState(EmptyRows(BoardHeight, BoardWidth), RandomPiece(index), 0, false, 0, 500)
  }

  /** Every spawned piece is a matrix inside the walls. */
  lemma RandomPieceInBounds(index: int)
    requires 0 <= index < |Shapes|
    ensures Matrix(RandomPiece(index).shape)
    ensures InBounds(BoardWidth, BoardHeight, RandomPiece(index).shape, RandomPiece(index).x, RandomPiece(index).y)
  {
    Constants.ShapesAreTetrominoes(index);
    var s := Shapes[index];
    assert |s| <= 2 && forall r :: 0 <= r < |s| ==> |s[r]| <= 4 by {
      assert index == 0 || index == 1 || index == 2 || index == 3 || index == 4 || index == 5 || index == 6;
    }
  }

  lemma NewLegacyGameSpec(index: int)
    requires 0 <= index < |Shapes|
    ensures Inv(NewLegacyGame(index))
    ensures forall y, x :: 0 <= y < BoardHeight && 0 <= x < BoardWidth ==> NewLegacyGame(index).board[y][x] == 0
  {
    RandomPieceInBounds(index);
  }

  // ---------------------------------------------------------------------------
  // Rotation: a quarter turn of the matrix

  /** `newShape[y][x] = shape[rows - 1 - x][y]`: as many rows as the old shape had columns. */
  function RotateShape(s: Shape): Shape
    requires Matrix(s)
  {
    seq(|s[0]|, y requires 0 <= y < |s[0]| => seq(|s|, x requires 0 <= x < |s| => s[|s| - 1 - x][y]))
  }

  /**
   * The turn is a clockwise quarter turn: rows and columns swap, the result
   * is again a matrix, and the cell at row r, column c moves to row c,
   * column rows - 1 - r.
   */
  lemma RotateShapeSpec(s: Shape)
    requires Matrix(s)
    ensures Matrix(RotateShape(s))
    ensures |RotateShape(s)| == |s[0]| && |RotateShape(s)[0]| == |s|
    ensures forall r, c :: 0 <= r < |s| && 0 <= c < |s[0]| ==> RotateShape(s)[c][|s| - 1 - r] == s[r][c]
    ensures Binary(s) ==> Binary(RotateShape(s))
  {
  }

  /** Two turns are a half turn: the cell at row r, column c moves to the opposite corner. */
  lemma RotateTwice(s: Shape)
    requires Matrix(s)
    ensures Matrix(RotateShape(s))
    ensures var h := RotateShape(RotateShape(s));
      && |h| == |s| && (forall y :: 0 <= y < |h| ==> |h[y]| == |s[0]|)
      && forall y, x :: 0 <= y < |s| && 0 <= x < |s[0]| ==> h[y][x] == s[|s| - 1 - y][|s[0]| - 1 - x]
  {
    RotateShapeSpec(s);
  }

  /** Four quarter turns give back the shape. */
  lemma RotateFourTimes(s: Shape)
    requires Matrix(s)
    ensures Matrix(RotateShape(s)) && Matrix(RotateShape(RotateShape(s))) && Matrix(RotateShape(RotateShape(RotateShape(s))))
    ensures RotateShape(RotateShape(RotateShape(RotateShape(s)))) == s
  {
    RotateShapeSpec(s);
    RotateTwice(s);
    var h := RotateShape(RotateShape(s));
    RotateShapeSpec(RotateShape(s));
    RotateTwice(h);
    HalfTurnTwice(s, h, RotateShape(RotateShape(h)));
  }

  /** A matrix sent twice to the opposite corner is back where it started. */
  lemma HalfTurnTwice(s: Shape, h: Shape, f: Shape)
    requires Matrix(s)
    requires |h| == |s| && (forall y :: 0 <= y < |h| ==> |h[y]| == |s[0]|)
    requires forall y, x :: 0 <= y < |s| && 0 <= x < |s[0]| ==> h[y][x] == s[|s| - 1 - y][|s[0]| - 1 - x]
    requires |f| == |h| && (forall y :: 0 <= y < |f| ==> |f[y]| == |h[0]|)
    requires forall y, x :: 0 <= y < |h| && 0 <= x < |h[0]| ==> f[y][x] == h[|h| - 1 - y][|h[0]| - 1 - x]
    ensures f == s
  {
    forall y | 0 <= y < |s|
      ensures f[y] == s[y]
    {
      assert |f[y]| == |s[y]|;
      forall x | 0 <= x < |s[y]|
        ensures f[y][x] == s[y][x]
      {
        assert f[y][x] == h[|h| - 1 - y][|h[0]| - 1 - x];
      }
    }
  }

  /** The O block is unchanged by a turn. */
  lemma RotateO()
    ensures Matrix(Shapes[1]) && RotateShape(Shapes[1]) == Shapes[1]
  {
    assert RotateShape(Shapes[1])[0] == [1, 1];
    assert RotateShape(Shapes[1])[1] == [1, 1];
  }

  /** The sideways kicks tried after a turn, in order. */
  const TestOffsets: seq<int> := [0, 1, -1, 2, -2]

  /** The first offset, in order, at which the turned piece fits. */
  function FirstOffset(board: Board, p: FallingPiece, newShape: Shape, offsets: seq<int>): Option<FallingPiece>
  {
    if offsets == [] then None
    else if PieceFits(board, p.(shape := newShape, x := p.x + offsets[0])) then Some(p.(shape := newShape, x := p.x + offsets[0]))
    else FirstOffset(board, p, newShape, offsets[1..])
  }

  /** The kick search finds nothing exactly when no offset fits. */
  lemma {:induction false} FirstOffsetNone(board: Board, p: FallingPiece, newShape: Shape, offsets: seq<int>)
    ensures FirstOffset(board, p, newShape, offsets).None? <==>
      forall i :: 0 <= i < |offsets| ==> !PieceFits(board, p.(shape := newShape, x := p.x + offsets[i]))
  {
    if offsets != [] {
      var rest := offsets[1..];
      FirstOffsetNone(board, p, newShape, rest);
      if !PieceFits(board, p.(shape := newShape, x := p.x + offsets[0])) {
        assert FirstOffset(board, p, newShape, offsets) == FirstOffset(board, p, newShape, rest);
        assert forall i :: 0 < i < |offsets| ==> offsets[i] == rest[i - 1];
      }
    }
  }

  /** A successful kick search commits the offset at index `i`, which fits, and no earlier offset fits. */
  lemma {:induction false} FirstOffsetSome(board: Board, p: FallingPiece, newShape: Shape, offsets: seq<int>) returns (i: int)
    requires FirstOffset(board, p, newShape, offsets).Some?
    ensures 0 <= i < |offsets|
    ensures FirstOffset(board, p, newShape, offsets).value == p.(shape := newShape, x := p.x + offsets[i])
    ensures PieceFits(board, p.(shape := newShape, x := p.x + offsets[i]))
    ensures forall j :: 0 <= j < i ==> !PieceFits(board, p.(shape := newShape, x := p.x + offsets[j]))
  {
    var rest := offsets[1..];
    if PieceFits(board, p.(shape := newShape, x := p.x + offsets[0])) {
      i := 0;
    } else {
      assert FirstOffset(board, p, newShape, offsets) == FirstOffset(board, p, newShape, rest);
      var k := FirstOffsetSome(board, p, newShape, rest);
      i := k + 1;
      assert forall j :: 0 < j <= i ==> offsets[j] == rest[j - 1];
    }
  }

  lemma FirstOffsetSpec(board: Board, p: FallingPiece, newShape: Shape, offsets: seq<int>)
    ensures FirstOffset(board, p, newShape, offsets).None? <==>
      forall i :: 0 <= i < |offsets| ==> !PieceFits(board, p.(shape := newShape, x := p.x + offsets[i]))
    ensures FirstOffset(board, p, newShape, offsets).Some? ==>
      exists i :: 0 <= i < |offsets|
        && FirstOffset(board, p, newShape, offsets).value == p.(shape := newShape, x := p.x + offsets[i])
        && PieceFits(board, p.(shape := newShape, x := p.x + offsets[i]))
        && forall j :: 0 <= j < i ==> !PieceFits(board, p.(shape := newShape, x := p.x + offsets[j]))
  {
    FirstOffsetNone(board, p, newShape, offsets);
    if FirstOffset(board, p, newShape, offsets).Some? {
      var i := FirstOffsetSome(board, p, newShape, offsets);
    }
  }

  /** `rotatePiece`: turn the matrix and keep the first sideways kick that fits; otherwise nothing changes. */
  function Rotate(s: LegacyState): LegacyState
    requires Matrix(s.currentPiece.shape)
  {
    if s.gameOver then s
    else match FirstOffset(s.board, s.currentPiece, RotateShape(s.currentPiece.shape), TestOffsets)
      case None => s
      case Some(q) => s.(currentPiece := q)
  }

  /**
   * A turn either changes nothing (game over, or no kick fits) or commits the
   * turned matrix at the first offset of 0, 1, -1, 2, -2 that fits, with the
   * row unchanged.
   */
  lemma RotateSpec(s: LegacyState)
    requires Matrix(s.currentPiece.shape)
    ensures var p := s.currentPiece;
      var r := Rotate(s);
      && (s.gameOver ==> r == s)
      && ((forall i :: 0 <= i < |TestOffsets| ==> !PieceFits(s.board, p.(shape := RotateShape(p.shape), x := p.x + TestOffsets[i]))) ==> r == s)
      && (r != s ==>
           && r.board == s.board && r.score == s.score
           && r.currentPiece.shape == RotateShape(p.shape) && r.currentPiece.y == p.y
           && PieceFits(s.board, r.currentPiece)
           && (exists i :: 0 <= i < |TestOffsets| && r.currentPiece.x == p.x + TestOffsets[i]
                && forall j :: 0 <= j < i ==> !PieceFits(s.board, p.(shape := RotateShape(p.shape), x := p.x + TestOffsets[j]))))
  {
    var p := s.currentPiece;
    FirstOffsetSpec(s.board, p, RotateShape(p.shape), TestOffsets);
  }

  // ---------------------------------------------------------------------------
  // Locking and clearing

  /** The cell code of a locked piece: its colour's index in `colors` plus one. */
  function CellCode(c: Color): int
  {
    IndexOf(Colors, c) + 1
  }

  /** What `clearLines` returns as its board: one empty row per full row on top, then the other rows in order. */
  function ClearedBoard(b: Board): Board
  {
    EmptyRows(|FullRows(b)|, BoardWidth) + NonFull(b)
  }

  /**
   * `clearLines`: walk the rows bottom-up removing each full row from a
   * mutable copy, then insert as many empty rows at the top.
   */
  method ClearLines(board: Board) returns (clearedBoard: Board, linesCleared: int)
    ensures linesCleared == |FullRows(board)|
    ensures clearedBoard == ClearedBoard(board)
    ensures |clearedBoard| == |board|
    ensures WellFormed(board, BoardWidth, |board|) ==> WellFormed(clearedBoard, BoardWidth, |board|)
  {
    var newBoard := board;
    linesCleared := 0;
    var y := |board|;
    assert board[y..] == [];
    while y > 0
      invariant 0 <= y <= |board|
      invariant newBoard == board[..y] + NonFull(board[y..])
      invariant linesCleared == |board| - y - |NonFull(board[y..])|
    {
      y := y - 1;
      RemoveRowStep(board, y, newBoard);
      if RowFull(board[y]) {
        newBoard := newBoard[..y] + newBoard[y + 1..];
        linesCleared := linesCleared + 1;
      }
    }
    assert linesCleared == |FullRows(board)| && newBoard == NonFull(board) by {
      assert board[0..] == board;
      FullRowsCount(board, |board|);
      assert board[..|board|] == board;
    }
    var j := 0;
    newBoard := EmptyRows(0, BoardWidth) + newBoard;
    while j < linesCleared
      invariant 0 <= j <= linesCleared
      invariant newBoard == EmptyRows(j, BoardWidth) + NonFull(board)
    {
      newBoard := [seq(BoardWidth, _ => 0)] + newBoard;
      EmptyRowsCons(j, BoardWidth);
      j := j + 1;
    }
    clearedBoard := newBoard;
    CollapseFullRows(board, BoardWidth);
  }

  /** One step of the removal loop: dropping row `y` when full (or keeping it) extends the kept suffix by row `y`. */
  lemma RemoveRowStep(board: Board, y: int, newBoard: Board)
    requires 0 <= y < |board| && newBoard == board[..y + 1] + NonFull(board[y + 1..])
    ensures |NonFull(board[y..])| == |NonFull(board[y + 1..])| + (if RowFull(board[y]) then 0 else 1)
    ensures RowFull(board[y]) ==> y < |newBoard| && newBoard[..y] + newBoard[y + 1..] == board[..y] + NonFull(board[y..])
    ensures !RowFull(board[y]) ==> newBoard == board[..y] + NonFull(board[y..])
  {
    NonFullFrom(board, y);
    assert board[..y + 1] == board[..y] + [board[y]];
    if RowFull(board[y]) {
      assert newBoard[..y] == board[..y];
      assert newBoard[y + 1..] == NonFull(board[y + 1..]);
    }
  }

  /** The rows kept from row `y` down: row `y` itself unless full, then the rows below it. */
  lemma NonFullFrom(board: Board, y: int)
    requires 0 <= y < |board|
    ensures NonFull(board[y..]) == (if RowFull(board[y]) then [] else [board[y]]) + NonFull(board[y + 1..])
  {
    assert board[y..][0] == board[y] && board[y..][1..] == board[y + 1..];
  }

  /** One more empty row on top of `j` empty rows. */
  lemma EmptyRowsCons(j: nat, w: nat)
    ensures [seq(w, _ => 0)] + EmptyRows(j, w) == EmptyRows(j + 1, w)
  {
  }

  /** Both engines collapse full rows the same way. */
  lemma EnginesClearAlike(b: Board)
    ensures ClearedBoard(b) == Collapse(b, FullRows(b), BoardWidth)
  {
    CollapseFullRows(b, BoardWidth);
  }

  /**
   * `placePiece`: game over when a cell is above the top; otherwise stamp the
   * piece's colour code, clear the full rows, add 100 points per line, update
   * the line count and speed, draw the next piece and end the game if it does
   * not fit.
   */
  function Place(s: LegacyState, drawn: int): LegacyState
    requires 0 <= drawn < |Shapes|
  {
    var p := s.currentPiece;
    if AboveTop(p.shape, p.y) then s.(gameOver := true)
    else Lock(s, Stamp(s.board, p.shape, p.x, p.y, CellCode(p.color)), drawn)
  }

  /** The rest of `placePiece` once the piece is stamped into `newBoard`. */
  function Lock(s: LegacyState, newBoard: Board, drawn: int): LegacyState
    requires 0 <= drawn < |Shapes|
  {
    var n := |FullRows(newBoard)|;
    var clearedBoard := ClearedBoard(newBoard);
    var lines := s.linesCleared + n;
    var newPiece := RandomPiece(drawn);
    s.(board := clearedBoard,
       score := s.score + n * 100,
       currentPiece := newPiece,
       gameOver := s.gameOver || !PieceFits(clearedBoard, newPiece),
       linesCleared := lines,
       gameSpeed := Engine.Speed(lines))
  }

  /** Below the top, the lock writes its code (the colour's, at the call sites) into exactly the piece's cells of a 10 by 20 board. */
  lemma StampedBoardSpec(s: LegacyState, code: int)
    requires Inv(s) && !AboveTop(s.currentPiece.shape, s.currentPiece.y)
    ensures var p := s.currentPiece;
      var newBoard := Stamp(s.board, p.shape, p.x, p.y, code);
      && WellFormed(newBoard, BoardWidth, BoardHeight)
      && (forall rr, c :: Occupies(p.shape, rr, c) ==> 0 <= p.y + rr < BoardHeight && 0 <= p.x + c < BoardWidth && newBoard[p.y + rr][p.x + c] == code)
      && (forall y, x :: 0 <= y < BoardHeight && 0 <= x < BoardWidth && !Occupies(p.shape, y - p.y, x - p.x) ==> newBoard[y][x] == s.board[y][x])
  {
    var p := s.currentPiece;
    LandsWhenInBounds(s.board, BoardWidth, BoardHeight, p.shape, p.x, p.y);
    StampSpec(s.board, BoardWidth, BoardHeight, p.shape, p.x, p.y, code);
  }

  /** Below the top, the lock clears the full rows of the stamped board, scores 100 each and draws the next piece. */
  lemma LockSpec(s: LegacyState, drawn: int)
    requires Inv(s) && 0 <= drawn < |Shapes| && !AboveTop(s.currentPiece.shape, s.currentPiece.y)
    ensures var p := s.currentPiece;
      var r := Place(s, drawn);
      var newBoard := Stamp(s.board, p.shape, p.x, p.y, CellCode(p.color));
      && r.board == EmptyRows(|FullRows(newBoard)|, BoardWidth) + NonFull(newBoard)
      && r.score == s.score + 100 * |FullRows(newBoard)|
      && r.linesCleared == s.linesCleared + |FullRows(newBoard)|
      && r.currentPiece == RandomPiece(drawn)
      && (r.gameOver <==> s.gameOver || !PieceFits(r.board, RandomPiece(drawn)))
      && Inv(r)
  {
    var p := s.currentPiece;
    var newBoard := Stamp(s.board, p.shape, p.x, p.y, CellCode(p.color));
    StampedBoardSpec(s, CellCode(s.currentPiece.color));
    CollapseFullRows(newBoard, BoardWidth);
    RandomPieceInBounds(drawn);
  }

  /**
   * A lock below the top, assembled the way `placePiece` assembles it from
   * the stamped board, the board and count `clearLines` returns, and the
   * validity of the drawn piece on the cleared board.
   */
  lemma LockFromParts(s: LegacyState, drawn: int, newBoard: Board, clearedBoard: Board, linesCleared: int, fits: bool)
    requires 0 <= drawn < |Shapes| && !AboveTop(s.currentPiece.shape, s.currentPiece.y)
    requires newBoard == Stamp(s.board, s.currentPiece.shape, s.currentPiece.x, s.currentPiece.y, CellCode(s.currentPiece.color))
    requires WellFormed(newBoard, BoardWidth, BoardHeight)
    requires clearedBoard == ClearedBoard(newBoard) && linesCleared == |FullRows(newBoard)|
    requires fits <==> PieceFits(clearedBoard, RandomPiece(drawn))
    ensures WellFormed(clearedBoard, BoardWidth, BoardHeight)
    ensures Place(s, drawn) == s.(
      board := clearedBoard,
      score := s.score + linesCleared * 100,
      currentPiece := RandomPiece(drawn),
      gameOver := s.gameOver || !fits,
      linesCleared := s.linesCleared + linesCleared,
      gameSpeed := Engine.Speed(s.linesCleared + linesCleared))
    ensures Inv(Place(s, drawn))
  {
    assert Place(s, drawn) == Lock(s, newBoard, drawn);
    CollapseFullRows(newBoard, BoardWidth);
    RandomPieceInBounds(drawn);
  }

  /**
   * A lock above the top changes only the game-over flag; any other lock
   * writes the colour code into exactly the piece's cells before clearing,
   * scores 100 per full row, keeps the board 10 by 20 and never revives a
   * finished game.
   */
  lemma PlaceSpec(s: LegacyState, drawn: int)
    requires Inv(s) && 0 <= drawn < |Shapes|
    ensures var p := s.currentPiece;
      var r := Place(s, drawn);
      && (AboveTop(p.shape, p.y) ==> r == s.(gameOver := true))
      && (!AboveTop(p.shape, p.y) ==>
           var newBoard := Stamp(s.board, p.shape, p.x, p.y, CellCode(p.color));
           && WellFormed(newBoard, BoardWidth, BoardHeight)
           && (forall rr, c :: Occupies(p.shape, rr, c) ==> 0 <= p.y + rr < BoardHeight && 0 <= p.x + c < BoardWidth && newBoard[p.y + rr][p.x + c] == CellCode(p.color))
           && (forall y, x :: 0 <= y < BoardHeight && 0 <= x < BoardWidth && !Occupies(p.shape, y - p.y, x - p.x) ==> newBoard[y][x] == s.board[y][x])
           && r.board == EmptyRows(|FullRows(newBoard)|, BoardWidth) + NonFull(newBoard)
           && r.score == s.score + 100 * |FullRows(newBoard)|
           && r.linesCleared == s.linesCleared + |FullRows(newBoard)|
           && r.currentPiece == RandomPiece(drawn)
           && (r.gameOver <==> s.gameOver || !PieceFits(r.board, RandomPiece(drawn))))
      && Inv(r)
      && (s.gameOver ==> r.gameOver)
  {
    var p := s.currentPiece;
    if !AboveTop(p.shape, p.y) {
      StampedBoardSpec(s, CellCode(s.currentPiece.color));
      LockSpec(s, drawn);
    }
  }

  /**
   * `movePiece(dx, dy)`: a valid target replaces the piece; an invalid one
   * locks the piece when moving down and is ignored otherwise.
   */
  function Move(s: LegacyState, dx: int, dy: int, drawn: int): LegacyState
    requires 0 <= drawn < |Shapes|
  {
    var q := s.currentPiece.(x := s.currentPiece.x + dx, y := s.currentPiece.y + dy);
    if s.gameOver then s
    else if PieceFits(s.board, q) then s.(currentPiece := q)
    else if dy > 0 then Place(s, drawn)
    else s
  }

  /** Moves, turns and locks keep the board 10 by 20 and the falling piece a matrix inside the walls. */
  lemma MoveKeepsInv(s: LegacyState, dx: int, dy: int, drawn: int)
    requires Inv(s) && 0 <= drawn < |Shapes|
    ensures Inv(Move(s, dx, dy, drawn))
    ensures s.gameOver ==> Move(s, dx, dy, drawn) == s
    ensures Move(s, dx, dy, drawn).score >= s.score
  {
    var p := s.currentPiece;
    var q := p.(x := p.x + dx, y := p.y + dy);
    if !s.gameOver {
      if PieceFits(s.board, q) {
        FitsInBounds(s.board, BoardWidth, BoardHeight, q.shape, q.x, q.y);
      } else if dy > 0 {
        PlaceSpec(s, drawn);
      }
    }
  }

  lemma RotateKeepsInv(s: LegacyState)
    requires Inv(s)
    ensures Inv(Rotate(s))
  {
    var p := s.currentPiece;
    RotateShapeSpec(p.shape);
    RotateSpec(s);
    var r := Rotate(s);
    if r != s {
      FitsInBounds(s.board, BoardWidth, BoardHeight, r.currentPiece.shape, r.currentPiece.x, r.currentPiece.y);
    }
  }

  /** The older view model: one published state updated in place by each command. */
  class LegacyGame {
    var state: LegacyState

    ghost predicate Valid()
      reads this
    {
      Inv(state)
    }

    constructor (index: int)
      requires 0 <= index < |Shapes|
      ensures Valid() && state == NewLegacyGame(index)
    {
      state := NewLegacyGame(index);
      new;
      NewLegacyGameSpec(index);
    }

    /** `isValidPosition(piece, board)` on the 10 by 20 board. */
    static method IsValidPosition(piece: FallingPiece, board: Board) returns (ok: bool)
      requires WellFormed(board, BoardWidth, BoardHeight)
      ensures ok <==> PieceFits(board, piece)
      ensures !ok <==> exists r, c :: Occupies(piece.shape, r, c) && Collides(board, BoardWidth, BoardHeight, piece.x + c, piece.y + r)
    {
      ok := Grid.IsValidPosition(board, BoardWidth, BoardHeight, piece.shape, piece.x, piece.y);
    }

    method MovePiece(dx: int, dy: int, drawn: int)
      requires Valid() && 0 <= drawn < |Shapes|
      modifies this
      ensures Valid()
      ensures state == Move(old(state), dx, dy, drawn)
    {
      MoveKeepsInv(state, dx, dy, drawn);
      if state.gameOver {
        return;
      }
      var newPiece := state.currentPiece.(x := state.currentPiece.x + dx, y := state.currentPiece.y + dy);
      var ok := IsValidPosition(newPiece, state.board);
      if ok {
        state := state.(currentPiece := newPiece);
      } else if dy > 0 {
        PlacePiece(drawn);
      }
    }

    method RotatePiece()
      requires Valid()
      modifies this
      ensures Valid()
      ensures state == Rotate(old(state))
    {
      RotateKeepsInv(state);
      if state.gameOver {
        return;
      }
      var shape := state.currentPiece.shape;
      var newShape := RotateShape(shape);
      var found := TryOffsets(newShape);
      if found.Some? {
        state := state.(currentPiece := found.value);
      }
    }

    /** The offset loop of `rotatePiece`: the turned piece at the first offset, in order, at a valid position. */
    method TryOffsets(newShape: Shape) returns (found: Option<FallingPiece>)
      requires Valid()
      ensures found == FirstOffset(state.board, state.currentPiece, newShape, TestOffsets)
    {
      var testOffsets := TestOffsets;
      var i := 0;
      while i < |testOffsets|
        invariant 0 <= i <= |testOffsets|
        invariant FirstOffset(state.board, state.currentPiece, newShape, testOffsets) == FirstOffset(state.board, state.currentPiece, newShape, testOffsets[i..])
      {
        var offset := testOffsets[i];
        assert testOffsets[i..][0] == offset && testOffsets[i..][1..] == testOffsets[i + 1..];
        var newPiece := state.currentPiece.(shape := newShape, x := state.currentPiece.x + offset);
        var ok := IsValidPosition(newPiece, state.board);
        if ok {
          return Some(newPiece);
        }
        i := i + 1;
      }
      return None;
    }

    /** `placePiece`: check the top, stamp a copy of the board, clear, score and spawn. */
    method PlacePiece(drawn: int)
      requires Valid() && 0 <= drawn < |Shapes|
      modifies this
      ensures Valid()
      ensures state == Place(old(state), drawn)
    {
      var piece := state.currentPiece;
      var above := Engine.CellAboveTop(piece.shape, piece.y);
      if above {
        state := state.(gameOver := true);
        return;
      }
      var next := LockState(drawn);
      state := next;
    }

    /** The part of `placePiece` after the top check: stamp, clear lines, score and spawn. */
    method LockState(drawn: int) returns (next: LegacyState)
      requires Valid() && 0 <= drawn < |Shapes| && !AboveTop(state.currentPiece.shape, state.currentPiece.y)
      ensures next == Place(state, drawn) && Inv(next)
    {
      var piece := state.currentPiece;
      LandsWhenInBounds(state.board, BoardWidth, BoardHeight, piece.shape, piece.x, piece.y);
      var newBoard := StampCells(state.board, piece.shape, piece.x, piece.y, CellCode(piece.color));
      var clearedBoard, linesCleared := ClearLines(newBoard);
      var newScore := state.score + linesCleared * 100;
      var newLinesCleared := state.linesCleared + linesCleared;
      var newPiece := RandomPiece(drawn);
      var fits := IsValidPosition(newPiece, clearedBoard);
      var isGameOver := !fits;
      next := state.(
        board := clearedBoard,
        score := newScore,
        currentPiece := newPiece,
        gameOver := state.gameOver || isGameOver,
        linesCleared := newLinesCleared,
        gameSpeed := Engine.Speed(newLinesCleared));
      LockFromParts(state, drawn, newBoard, clearedBoard, linesCleared, fits);
    }
  }
}
