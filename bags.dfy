/**
 * The draw discipline shared by both bag randomizers: `nextPiece` refills the
 * bag with a freshly shuffled set only when it is empty, then removes and
 * returns the front.  A stream of shuffles (`shuffles(k)` is the k-th
 * refill) stands for the random `shuffle()` calls.
 */
module Bags {
  import opened Pieces

  /** One `nextPiece` on `bag`, refilling from `shuffled` when the bag is empty. */
  function Draw(bag: seq<PieceType>, shuffled: seq<PieceType>): (PieceType, seq<PieceType>)
    requires bag != [] || shuffled != []
  {
    if bag == [] then (shuffled[0], shuffled[1..]) else (bag[0], bag[1..])
  }

  /** `n` consecutive draws starting from `bag`, the next refill using `shuffles(k)`. */
  function Draws(bag: seq<PieceType>, shuffles: nat -> seq<PieceType>, k: nat, n: nat): seq<PieceType>
    requires forall i :: shuffles(i) != []
    decreases n
  {
    if n == 0 then []
    else
      var (t, rest) := Draw(bag, shuffles(k));
      [t] + Draws(rest, shuffles, if bag == [] then k + 1 else k, n - 1)
  }

  /** The shuffles `k`, `k+1`, ..., `k+m-1` one after another. */
  function Rounds(shuffles: nat -> seq<PieceType>, k: nat, m: nat): seq<PieceType>
    decreases m
  {
    if m == 0 then [] else shuffles(k) + Rounds(shuffles, k + 1, m - 1)
  }

  /** `s` repeated `n` times (`repeat(n) { addAll(s) }`). */
  function Repeat(s: seq<PieceType>, n: nat): seq<PieceType>
  {
    if n == 0 then [] else Repeat(s, n - 1) + s
  }

  /** Draws first empty the bag in order and only then touch the next shuffle. */
  lemma {:induction false} DrawsDrainBag(bag: seq<PieceType>, shuffles: nat -> seq<PieceType>, k: nat, n: nat)
    requires forall i :: shuffles(i) != []
    ensures Draws(bag, shuffles, k, |bag| + n) == bag + Draws([], shuffles, k, n)
    decreases |bag|
  {
    if bag == [] {
      assert bag + Draws([], shuffles, k, n) == Draws([], shuffles, k, n);
    } else {
      DrawsDrainBag(bag[1..], shuffles, k, n);
      assert [bag[0]] + bag[1..] == bag;
    }
  }

  /**
   * From an empty bag, `m` times the bag size in draws yields exactly the next
   * `m` shuffles, back to back: every block of `size` draws from a fill
   * boundary is one whole shuffle.
   */
  lemma {:induction false} DrawsAreRounds(shuffles: nat -> seq<PieceType>, size: nat, k: nat, m: nat)
    requires size > 0
    requires forall i :: |shuffles(i)| == size
    ensures Draws([], shuffles, k, m * size) == Rounds(shuffles, k, m)
    decreases m
  {
    if m > 0 {
      var s := shuffles(k);
      var n := (m - 1) * size;
      assert m * size == 1 + (|s[1..]| + n);
      calc {
        Draws([], shuffles, k, m * size);
        [s[0]] + Draws(s[1..], shuffles, k + 1, |s[1..]| + n);
        { DrawsDrainBag(s[1..], shuffles, k + 1, n); }
        [s[0]] + (s[1..] + Draws([], shuffles, k + 1, n));
        { DrawsAreRounds(shuffles, size, k + 1, m - 1); assert [s[0]] + s[1..] == s; }
        s + Rounds(shuffles, k + 1, m - 1);
      }
    }
  }

  /** Each entry of `s` appears `n` times as often in `Repeat(s, n)`. */
  lemma {:induction false} RepeatCount(s: seq<PieceType>, n: nat, t: PieceType)
    ensures |Repeat(s, n)| == n * |s|
    ensures multiset(Repeat(s, n))[t] == n * multiset(s)[t]
  {
    if n > 0 {
      RepeatCount(s, n - 1, t);
      var prev := Repeat(s, n - 1);
      assert Repeat(s, n) == prev + s;
      assert multiset(prev + s) == multiset(prev) + multiset(s);
      assert (n - 1) * |s| + |s| == n * |s|;
      assert (n - 1) * multiset(s)[t] + multiset(s)[t] == n * multiset(s)[t];
    }
  }

  /** `PieceType.entries` holds every type exactly once. */
  lemma EntriesOnce(t: PieceType)
    ensures multiset(Entries)[t] == 1
  {
  }
}
