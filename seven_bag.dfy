/**
 * `com/example/kttrs/SevenBagRandomizer.kt`: a queue of piece types refilled
 * with one shuffled copy of all seven types whenever it runs out.  The result
 * of `shuffle()` is a parameter: any ordering of the seven types.
 */
module SevenBag {
  import opened Pieces
  import opened Bags

  /** A possible result of shuffling `PieceType.entries`. */
  predicate IsShuffle(s: seq<PieceType>)
  {
    |s| == |Entries| && multiset(s) == multiset(Entries)
  }

  class SevenBagRandomizer {
    var bag: seq<PieceType>

    /** The bag is what is left of one shuffled set. */
    ghost predicate Valid()
      reads this
    {
      |bag| <= |Entries| && multiset(bag) <= multiset(Entries)
    }

    /** `init { fillBag() }`. */
    constructor (shuffled: seq<PieceType>)
      requires IsShuffle(shuffled)
      ensures Valid() && bag == shuffled
    {
      bag := shuffled;
    }

    /** `fillBag`: clear the bag, then add all seven types in shuffled order. */
    method FillBag(shuffled: seq<PieceType>)
      requires IsShuffle(shuffled)
      modifies this
      ensures Valid() && bag == shuffled
    {
      bag := [];
      bag := bag + shuffled;
    }

    /** `nextPiece`: refill only when empty, then remove and return the front. */
    method NextPiece(shuffled: seq<PieceType>) returns (t: PieceType)
      requires Valid() && IsShuffle(shuffled)
      modifies this
      ensures Valid()
      ensures (t, bag) == Draw(old(bag), shuffled)
      ensures old(bag) != [] ==> |bag| == |old(bag)| - 1
      ensures 0 <= |bag| < |Entries|
    {
      if bag == [] {
        FillBag(shuffled);
      }
      var before := bag;
      t := bag[0];
      bag := bag[1..];
      assert before == [t] + bag;
      assert multiset(bag) <= multiset(before);
    }

    /** `restart`: drop whatever is left and refill. */
    method Restart(shuffled: seq<PieceType>)
      requires Valid() && IsShuffle(shuffled)
      modifies this
      ensures Valid() && bag == shuffled
    {
      FillBag(shuffled);
    }
  }

  /**
   * Seven consecutive draws starting at a fill boundary (the bag just
   * refilled, or empty so that the first draw refills it) yield every type
   * exactly once.
   */
  lemma SevenDrawsEachTypeOnce(shuffles: nat -> seq<PieceType>, k: nat, t: PieceType)
    requires forall i :: |shuffles(i)| == 7 && multiset(shuffles(i)) == multiset(Entries)
    ensures multiset(Draws([], shuffles, k, 7))[t] == 1
    ensures multiset(Draws(shuffles(k), shuffles, k + 1, 7))[t] == 1
  {
    DrawsAreRounds(shuffles, 7, k, 1);
    DrawsDrainBag(shuffles(k), shuffles, k + 1, 0);
    assert shuffles(k) + [] == shuffles(k);
    EntriesOnce(t);
  }
}
