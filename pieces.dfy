/**
 * The piece catalogue of `com/example/kttrs/Piece.kt`: the seven tetromino
 * types with their spawn shapes, and the `Piece` record with its defaults.
 * Drawable resource ids are opaque integers.
 */
module Pieces {

  /** A shape matrix: rows of cells, 1 = occupied. */
  type Shape = seq<seq<int>>

  /** `enum class PieceType`, in declaration order. */
  datatype PieceType = I | O | T | S | Z | J | L

  /** `PieceType.entries`: every type once, in declaration order. */
  const Entries: seq<PieceType> := [I, O, T, S, Z, J, L]

  /** The enum's `ordinal`. */
  function Ordinal(t: PieceType): (n: nat)
    ensures n < |Entries| && Entries[n] == t
  {
    match t
    case I => 0
    case O => 1
    case T => 2
    case S => 3
    case Z => 4
    case J => 5
    case L => 6
  }

  /** The `shape` property of each enum entry. */
  function ShapeOf(t: PieceType): Shape
  {
    match t
    case I => [[1, 1, 1, 1]]
    case O => [[1, 1], [1, 1]]
    case T => [[0, 1, 0], [1, 1, 1]]
    case S => [[0, 1, 1], [1, 1, 0]]
    case Z => [[1, 1, 0], [0, 1, 1]]
    case J => [[1, 0, 0], [1, 1, 1]]
    case L => [[0, 0, 1], [1, 1, 1]]
  }

  /** `data class Piece`; every field but `type` has a default. */
  datatype Piece = Piece(kind: PieceType, shape: Shape, x: int, y: int, rotation: int, drawableResId: int)

  /** `Piece(type)` with every other field left at its default. */
  function DefaultPiece(t: PieceType): (p: Piece)
    ensures p.kind == t && p.shape == [] && p.x == 0 && p.y == 0 && p.rotation == 0 && p.drawableResId == 0
  {
    Piece(t, [], 0, 0, 0, 0)
  }

  /** Every row has the length of the first. */
  predicate Rectangular(s: Shape)
  {
    forall r :: 0 <= r < |s| ==> |s[r]| == |s[0]|
  }

  /** Every cell is 0 or 1. */
  predicate Binary(s: Shape)
  {
    forall r, c :: 0 <= r < |s| && 0 <= c < |s[r]| ==> s[r][c] == 0 || s[r][c] == 1
  }

  /** Number of cells equal to 1 in one row. */
  function RowOnes(row: seq<int>): nat
  {
    if row == [] then 0 else (if row[0] == 1 then 1 else 0) + RowOnes(row[1..])
  }

  /** Number of cells equal to 1 in a shape. */
  function Ones(s: Shape): nat
  {
    if s == [] then 0 else RowOnes(s[0]) + Ones(s[1..])
  }

  /** Every catalogue shape is a rectangular 0/1 matrix with exactly four occupied cells. */
  lemma ShapesAreTetrominoes(t: PieceType)
    ensures |ShapeOf(t)| > 0 && Rectangular(ShapeOf(t)) && Binary(ShapeOf(t))
    ensures Ones(ShapeOf(t)) == 4
  {
    var s := ShapeOf(t);
    assert Ones(s) == RowOnes(s[0]) + Ones(s[1..]);
    if |s| == 2 {
      assert Ones(s[1..]) == RowOnes(s[1]) + Ones(s[2..]);
    }
  }

  /** O is a 2x2 block of ones, I a single row of four; the rest are 2 rows of 3. */
  lemma ShapeDimensions(t: PieceType)
    ensures t == O ==> ShapeOf(t) == [[1, 1], [1, 1]]
    ensures t == I ==> |ShapeOf(t)| == 1 && ShapeOf(t)[0] == [1, 1, 1, 1]
    ensures t !in {I, O} ==> |ShapeOf(t)| == 2 && |ShapeOf(t)[0]| == 3 && |ShapeOf(t)[1]| == 3
  {
  }
}
