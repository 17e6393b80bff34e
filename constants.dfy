/**
 * `com/example/kttrs/GameConstants.kt`: the board size of the older engine,
 * its shape table and the colour table it indexes with the same random index.
 * Colours are opaque tokens.
 */
module Constants {
  import opened Pieces

  const BoardWidth: int := 10
  const BoardHeight: int := 20

  /** `shapes`, one entry per piece type, in the order I, O, T, S, Z, J, L. */
  const Shapes: seq<Shape> := [
    [[1, 1, 1, 1]],
    [[1, 1], [1, 1]],
    [[0, 1, 0], [1, 1, 1]],
    [[0, 1, 1], [1, 1, 0]],
    [[1, 1, 0], [0, 1, 1]],
    [[1, 0, 0], [1, 1, 1]],
    [[0, 0, 1], [1, 1, 1]]
  ]

  /** The Compose colours of `colors`, as tokens. */
  datatype Color = Cyan | Yellow | Magenta | Green | Red | Blue | White

  /** `colors`, parallel to `Shapes`. */
  const Colors: seq<Color> := [Cyan, Yellow, Magenta, Green, Red, Blue, White]

  /** Kotlin's `List.indexOf`: the first position holding `c`, or -1. */
  function IndexOf(cs: seq<Color>, c: Color): (k: int)
    ensures -1 <= k < |cs|
    ensures k >= 0 ==> cs[k] == c && forall j :: 0 <= j < k ==> cs[j] != c
    ensures k == -1 ==> c !in cs
  {
    if cs == [] then -1
    else if cs[0] == c then 0
    else var k := IndexOf(cs[1..], c); if k < 0 then -1 else k + 1
  }

  /** The board is 10 columns by 20 rows. */
  lemma BoardSize()
    ensures BoardWidth == 10 && BoardHeight == 20
  {
  }

  /** `shapes` lists the `PieceType` matrices in enum order, so both tables agree. */
  lemma ShapesMatchPieceTypes()
    ensures |Shapes| == |Entries| == 7
    ensures forall t: PieceType :: Shapes[Ordinal(t)] == ShapeOf(t)
  {
  }

  /** Every entry of `shapes` is a rectangular 0/1 matrix with four occupied cells. */
  lemma ShapesAreTetrominoes(k: int)
    requires 0 <= k < |Shapes|
    ensures |Shapes[k]| > 0 && Rectangular(Shapes[k]) && Binary(Shapes[k]) && Ones(Shapes[k]) == 4
  {
    ShapesMatchPieceTypes();
    Pieces.ShapesAreTetrominoes(Entries[k]);
  }

  /**
   * `colors` is as long as `shapes` and holds no colour twice, so the shared
   * random index is in range for both and `colors.indexOf(colors[k])` is `k`.
   */
  lemma ColorsAligned(k: int)
    requires 0 <= k < |Shapes|
    ensures |Colors| == |Shapes|
    ensures IndexOf(Colors, Colors[k]) == k
  {
  }
}
