/**
 * Board rules shared by both engines: the collision test, stamping a shape
 * into the board, full-row detection and collapsing cleared rows.  A board is
 * a list of rows of cell codes, 0 meaning empty; row 0 is the top.
 */
module Grid {
  import opened Pieces

  type Board = seq<seq<int>>

  /** `h` rows of `w` cells each. */
  predicate WellFormed(b: Board, w: int, h: int)
  {
    |b| == h && forall y :: 0 <= y < |b| ==> |b[y]| == w
  }

  /** Cell (`r`, `c`) of the shape is occupied: only the value 1 counts. */
  predicate Occupies(s: Shape, r: int, c: int)
  {
    0 <= r < |s| && 0 <= c < |s[r]| && s[r][c] == 1
  }

  /** An occupied cell landing at (`x`, `y`) collides: it is left of, right of or below the board, or on a filled cell. */
  predicate Collides(b: Board, w: int, h: int, x: int, y: int)
    requires WellFormed(b, w, h)
  {
    x < 0 || x >= w || y >= h || (y >= 0 && b[y][x] != 0)
  }

  /** A cell at (`x`, `y`) is acceptable: inside the columns, above the floor, and empty when on the board. */
  predicate CellOk(b: Board, w: int, h: int, x: int, y: int)
  {
    0 <= x < w && y < h && (0 <= y ==> y < |b| && x < |b[y]| && b[y][x] == 0)
  }

  /** The shape anchored at (`px`, `py`) fits: every occupied cell is acceptable; rows above the top are free. */
  predicate Fits(b: Board, w: int, h: int, s: Shape, px: int, py: int)
  {
    forall r, c | 0 <= r < |s| && 0 <= c < |s[r]| && s[r][c] == 1 :: CellOk(b, w, h, px + c, py + r)
  }

  /** Every occupied cell is inside the columns and above the floor (it may overlap filled cells). */
  predicate InBounds(w: int, h: int, s: Shape, px: int, py: int)
  {
    forall r, c | 0 <= r < |s| && 0 <= c < |s[r]| && s[r][c] == 1 :: 0 <= px + c < w && py + r < h
  }

  /** Some occupied cell of the shape anchored at row `py` lies above the top row. */
  predicate AboveTop(s: Shape, py: int)
  {
    exists r, c | 0 <= r < |s| && 0 <= c < |s[r]| :: s[r][c] == 1 && py + r < 0
  }

  /** The shape has at least one occupied cell. */
  predicate HasCell(s: Shape)
  {
    exists r, c | 0 <= r < |s| && 0 <= c < |s[r]| :: s[r][c] == 1
  }

  lemma FitsInBounds(b: Board, w: int, h: int, s: Shape, px: int, py: int)
    requires Fits(b, w, h, s, px, py)
    ensures InBounds(w, h, s, px, py)
  {
  }

  /**
   * `isValidPosition`: walk the shape's cells and reject on the first
   * occupied cell that collides.
   */
  method IsValidPosition(b: Board, w: int, h: int, s: Shape, px: int, py: int) returns (ok: bool)
    requires WellFormed(b, w, h)
    ensures ok <==> Fits(b, w, h, s, px, py)
    ensures !ok <==> exists r, c :: Occupies(s, r, c) && Collides(b, w, h, px + c, py + r)
  {
    var y := 0;
    while y < |s|
      invariant 0 <= y <= |s|
      invariant forall r, c | 0 <= r < y && 0 <= c < |s[r]| && s[r][c] == 1 :: CellOk(b, w, h, px + c, py + r)
    {
      var x := 0;
      while x < |s[y]|
        invariant 0 <= x <= |s[y]|
        invariant forall r, c | 0 <= r < y && 0 <= c < |s[r]| && s[r][c] == 1 :: CellOk(b, w, h, px + c, py + r)
        invariant forall c | 0 <= c < x && s[y][c] == 1 :: CellOk(b, w, h, px + c, py + y)
      {
        if s[y][x] == 1 {
          var newX, newY := px + x, py + y;
          if newX < 0 || newX >= w || newY >= h {
            assert Occupies(s, y, x) && Collides(b, w, h, px + x, py + y);
            return false;
          }
          if newY >= 0 && b[newY][newX] != 0 {
            assert Occupies(s, y, x) && Collides(b, w, h, px + x, py + y);
            return false;
          }
        }
        x := x + 1;
      }
      y := y + 1;
    }
    return true;
  }

  /** The board with every occupied cell of the shape anchored at (`px`, `py`) set to `v`. */
  function Stamp(b: Board, s: Shape, px: int, py: int, v: int): (nb: Board)
  {
    seq(|b|, y requires 0 <= y < |b| =>
      seq(|b[y]|, x requires 0 <= x < |b[y]| => if Occupies(s, y - py, x - px) then v else b[y][x]))
  }

  /** Every occupied cell of the shape anchored at (`px`, `py`) lands on the board. */
  predicate LandsOnBoard(b: Board, s: Shape, px: int, py: int)
  {
    forall r, c | 0 <= r < |s| && 0 <= c < |s[r]| && s[r][c] == 1 :: 0 <= py + r < |b| && 0 <= px + c < |b[py + r]|
  }

  /**
   * The nested loops of `placePiece` that write each occupied cell of the
   * piece into a copy of the board.
   */
  method StampCells(b: Board, s: Shape, px: int, py: int, v: int) returns (nb: Board)
    requires LandsOnBoard(b, s, px, py)
    ensures |nb| == |b| && forall y :: 0 <= y < |b| ==> |nb[y]| == |b[y]|
    ensures forall r, c :: Occupies(s, r, c) ==> nb[py + r][px + c] == v
    ensures forall y, x :: 0 <= y < |b| && 0 <= x < |b[y]| && !Occupies(s, y - py, x - px) ==> nb[y][x] == b[y][x]
    ensures nb == Stamp(b, s, px, py, v)
  {
    nb := b;
    var y := 0;
    while y < |s|
      invariant 0 <= y <= |s|
      invariant |nb| == |b| && forall k :: 0 <= k < |b| ==> |nb[k]| == |b[k]|
      invariant forall k, x :: 0 <= k < |b| && 0 <= x < |b[k]| ==>
        nb[k][x] == if Occupies(s, k - py, x - px) && k - py < y then v else b[k][x]
    {
      var x := 0;
      while x < |s[y]|
        invariant 0 <= x <= |s[y]|
        invariant |nb| == |b| && forall k :: 0 <= k < |b| ==> |nb[k]| == |b[k]|
        invariant forall k, c :: 0 <= k < |b| && 0 <= c < |b[k]| ==>
          nb[k][c] == if Occupies(s, k - py, c - px) && (k - py < y || (k - py == y && c - px < x)) then v else b[k][c]
      {
        if s[y][x] == 1 {
          nb := nb[py + y := nb[py + y][px + x := v]];
        }
        x := x + 1;
      }
      y := y + 1;
    }
    forall k | 0 <= k < |b|
      ensures nb[k] == Stamp(b, s, px, py, v)[k]
    {
    }
  }

  /** A shape inside the walls with no cell above the top lands on a board of that size. */
  lemma LandsWhenInBounds(b: Board, w: int, h: int, s: Shape, px: int, py: int)
    requires WellFormed(b, w, h) && InBounds(w, h, s, px, py) && !AboveTop(s, py)
    ensures LandsOnBoard(b, s, px, py)
  {
  }

  /** On a board of the configured size, a shape that lands on it is written into exactly its occupied cells. */
  lemma StampSpec(b: Board, w: int, h: int, s: Shape, px: int, py: int, v: int)
    requires WellFormed(b, w, h) && LandsOnBoard(b, s, px, py)
    ensures WellFormed(Stamp(b, s, px, py, v), w, h)
    ensures forall r, c :: Occupies(s, r, c) ==> 0 <= py + r < h && 0 <= px + c < w && Stamp(b, s, px, py, v)[py + r][px + c] == v
    ensures forall y, x :: 0 <= y < h && 0 <= x < w && !Occupies(s, y - py, x - px) ==> Stamp(b, s, px, py, v)[y][x] == b[y][x]
  {
    var nb := Stamp(b, s, px, py, v);
    forall r, c | Occupies(s, r, c)
      ensures 0 <= py + r < h && 0 <= px + c < w && nb[py + r][px + c] == v
    {
      assert Occupies(s, (py + r) - py, (px + c) - px);
    }
  }

  /** Stamping the same cells again changes nothing. */
  lemma StampTwice(b: Board, s: Shape, px: int, py: int, v: int)
    ensures Stamp(Stamp(b, s, px, py, v), s, px, py, v) == Stamp(b, s, px, py, v)
  {
    var once := Stamp(b, s, px, py, v);
    var twice := Stamp(once, s, px, py, v);
    forall y | 0 <= y < |b|
      ensures twice[y] == once[y]
    {
    }
  }

  /** Stamping a nonzero code keeps every filled cell filled. */
  lemma StampKeepsFilled(b: Board, w: int, h: int, s: Shape, px: int, py: int, v: int)
    requires WellFormed(b, w, h) && v != 0
    ensures WellFormed(Stamp(b, s, px, py, v), w, h)
    ensures forall y, x :: 0 <= y < h && 0 <= x < w && b[y][x] != 0 ==> Stamp(b, s, px, py, v)[y][x] != 0
  {
  }

  /** A placement that fits on a board fits on any board of the same size with no more filled cells. */
  lemma FitsOnEmptierBoard(b: Board, fuller: Board, w: int, h: int, s: Shape, px: int, py: int)
    requires WellFormed(b, w, h) && WellFormed(fuller, w, h)
    requires forall y, x :: 0 <= y < h && 0 <= x < w && b[y][x] != 0 ==> fuller[y][x] != 0
    requires Fits(fuller, w, h, s, px, py)
    ensures Fits(b, w, h, s, px, py)
  {
    forall r, c | 0 <= r < |s| && 0 <= c < |s[r]| && s[r][c] == 1
      ensures CellOk(b, w, h, px + c, py + r)
    {
      assert CellOk(fuller, w, h, px + c, py + r);
    }
  }

  /** Every cell of the row is nonzero (`row.all { it != 0 }`). */
  predicate RowFull(row: seq<int>)
  {
    forall x :: 0 <= x < |row| ==> row[x] != 0
  }

  /** Indices below `n` of full rows, ascending. */
  function FullRowsBelow(b: Board, n: nat): seq<int>
    requires n <= |b|
  {
    if n == 0 then [] else FullRowsBelow(b, n - 1) + (if RowFull(b[n - 1]) then [n - 1] else [])
  }

  /** Indices of all full rows, ascending. */
  function FullRows(b: Board): seq<int>
  {
    FullRowsBelow(b, |b|)
  }

  predicate StrictlyIncreasing(s: seq<int>)
  {
    forall i, j :: 0 <= i < j < |s| ==> s[i] < s[j]
  }

  lemma {:induction false} FullRowsBelowSpec(b: Board, n: nat)
    requires n <= |b|
    ensures StrictlyIncreasing(FullRowsBelow(b, n))
    ensures forall k :: k in FullRowsBelow(b, n) <==> 0 <= k < n && RowFull(b[k])
  {
    if n > 0 {
      FullRowsBelowSpec(b, n - 1);
      var prev := FullRowsBelow(b, n - 1);
      var last: seq<int> := if RowFull(b[n - 1]) then [n - 1] else [];
      assert FullRowsBelow(b, n) == prev + last;
      forall i | 0 <= i < |prev|
        ensures prev[i] < n - 1
      {
        assert prev[i] in prev;
      }
    }
  }

  /** The full-row list is ascending and holds exactly the indices of full rows. */
  lemma FullRowsSpec(b: Board)
    ensures StrictlyIncreasing(FullRows(b))
    ensures forall k :: k in FullRows(b) <==> 0 <= k < |b| && RowFull(b[k])
  {
    FullRowsBelowSpec(b, |b|);
  }

  /** The rows that are not full, in their original order. */
  function NonFull(b: Board): Board
  {
    if b == [] then [] else (if RowFull(b[0]) then [] else [b[0]]) + NonFull(b[1..])
  }

  lemma {:induction false} NonFullAppend(a: Board, c: Board)
    ensures NonFull(a + c) == NonFull(a) + NonFull(c)
  {
    if a == [] {
      assert a + c == c;
    } else {
      assert (a + c)[1..] == a[1..] + c;
      NonFullAppend(a[1..], c);
    }
  }

  lemma {:induction false} NonFullRows(b: Board)
    ensures forall row :: row in NonFull(b) ==> row in b && !RowFull(row)
  {
    if b != [] {
      NonFullRows(b[1..]);
    }
  }

  /** A board with no full row is its own list of non-full rows. */
  lemma {:induction false} NonFullWhenNoneFull(b: Board)
    requires forall k :: 0 <= k < |b| ==> !RowFull(b[k])
    ensures NonFull(b) == b
  {
    if b != [] {
      NonFullWhenNoneFull(b[1..]);
      assert b == [b[0]] + b[1..];
    }
  }

  /** `n` empty rows of width `w`. */
  function EmptyRows(n: nat, w: nat): Board
  {
    seq(n, _ => seq(w, _ => 0))
  }

  /** The rows whose index is not in `cleared`, in order (`filterIndexed`). */
  function Survivors(b: Board, cleared: seq<int>): Board
  {
    if b == [] then []
    else Survivors(b[..|b| - 1], cleared) + (if |b| - 1 in cleared then [] else [b[|b| - 1]])
  }

  /** `newRows + boardAfterClearing`: as many empty rows on top as rows removed, then the survivors. */
  function Collapse(b: Board, cleared: seq<int>, w: nat): Board
  {
    EmptyRows(|cleared|, w) + Survivors(b, cleared)
  }

  lemma {:induction false} SurvivorsOfFullRows(b: Board, cleared: seq<int>)
    requires forall k :: 0 <= k < |b| ==> (k in cleared <==> RowFull(b[k]))
    ensures Survivors(b, cleared) == NonFull(b)
  {
    if b != [] {
      var n := |b| - 1;
      assert b == b[..n] + [b[n]];
      SurvivorsOfFullRows(b[..n], cleared);
      NonFullAppend(b[..n], [b[n]]);
    }
  }

  lemma {:induction false} FullRowsCount(b: Board, n: nat)
    requires n <= |b|
    ensures |FullRowsBelow(b, n)| + |NonFull(b[..n])| == n
  {
    if n > 0 {
      FullRowsCount(b, n - 1);
      assert b[..n] == b[..n - 1] + [b[n - 1]];
      NonFullAppend(b[..n - 1], [b[n - 1]]);
    }
  }

  /**
   * Collapsing the full rows keeps the height: k empty rows on top (k = the
   * number of full rows), then the rows that were not full, in order.
   */
  lemma CollapseFullRows(b: Board, w: nat)
    ensures Collapse(b, FullRows(b), w) == EmptyRows(|FullRows(b)|, w) + NonFull(b)
    ensures |Collapse(b, FullRows(b), w)| == |b|
    ensures WellFormed(b, w, |b|) ==> WellFormed(Collapse(b, FullRows(b), w), w, |b|)
  {
    FullRowsSpec(b);
    SurvivorsOfFullRows(b, FullRows(b));
    FullRowsCount(b, |b|);
    assert b[..|b|] == b;
    NonFullRows(b);
    if WellFormed(b, w, |b|) {
      var k := |FullRows(b)|;
      var nb := Collapse(b, FullRows(b), w);
      forall y | 0 <= y < |nb|
        ensures |nb[y]| == w
      {
        if y >= k {
          assert nb[y] == NonFull(b)[y - k];
          assert nb[y] in NonFull(b);
          var i :| 0 <= i < |b| && b[i] == nb[y];
        }
      }
    }
  }
}
