/**
 * `vsh/kttrs/model/ThirtyFiveBagRandomizer.kt`: a queue refilled with five
 * copies of every piece type, shuffled, whenever it runs out.
 */
module ThirtyFiveBag {
  import opened Pieces
  import opened Bags

  /** A possible result of shuffling five copies of `PieceType.entries`: 35 pieces, five of each type. */
  predicate IsShuffle(s: seq<PieceType>)
  {
    |s| == 35 && forall t :: multiset(s)[t] == 5
  }

  /** The `repeat(5) { allPieceTypes.addAll(PieceType.entries) }` loop of `fillBag`. */
  method FiveSets() returns (all: seq<PieceType>)
    ensures |all| == 35
    ensures forall t :: multiset(all)[t] == 5
  {
    all := [];
    var i := 0;
    while i < 5
      invariant 0 <= i <= 5
      invariant all == Repeat(Entries, i)
    {
      all := all + Entries;
      i := i + 1;
    }
    forall t
      ensures multiset(all)[t] == 5
    {
      RepeatCount(Entries, 5, t);
      EntriesOnce(t);
    }
    RepeatCount(Entries, 5, I);
  }

  class ThirtyFiveBagRandomizer {
    var bag: seq<PieceType>

    /** The bag is what is left of one shuffled set of 35. */
    ghost predicate Valid()
      reads this
    {
      |bag| <= 35 && forall t :: multiset(bag)[t] <= 5
    }

    /** `init { fillBag() }`. */
    constructor (shuffled: seq<PieceType>)
      requires IsShuffle(shuffled)
      ensures Valid() && bag == shuffled
    {
      bag := shuffled;
    }

    /** `fillBag`: clear, build five copies of every type, shuffle, add. */
    method FillBag(shuffled: seq<PieceType>)
      requires IsShuffle(shuffled)
      modifies this
      ensures Valid() && bag == shuffled
    {
      bag := [];
      var allPieceTypes := FiveSets();
      // shuffle(): some ordering of the same 35 elements
      assert multiset(shuffled) == multiset(allPieceTypes);
      allPieceTypes := shuffled;
      bag := bag + allPieceTypes;
    }

    /** `nextPiece`: refill only when empty, then remove and return the front. */
    method NextPiece(shuffled: seq<PieceType>) returns (t: PieceType)
      requires Valid() && IsShuffle(shuffled)
      modifies this
      ensures Valid()
      ensures (t, bag) == Draw(old(bag), shuffled)
      ensures old(bag) != [] ==> |bag| == |old(bag)| - 1
      ensures 0 <= |bag| < 35
    {
      if bag == [] {
        FillBag(shuffled);
      }
      var before := bag;
      t := bag[0];
      bag := bag[1..];
      assert before == [t] + bag;
      assert multiset(bag) <= multiset(before);
    }

    /** `restart`: drop whatever is left and refill with a fresh 35. */
    method Restart(shuffled: seq<PieceType>)
      requires Valid() && IsShuffle(shuffled)
      modifies this
      ensures Valid() && bag == shuffled
    {
      FillBag(shuffled);
    }
  }

  /**
   * Thirty-five consecutive draws starting at a fill boundary (the bag just
   * refilled, or empty so that the first draw refills it) yield every type
   * exactly five times.
   */
  lemma ThirtyFiveDrawsEachTypeFiveTimes(shuffles: nat -> seq<PieceType>, k: nat, t: PieceType)
    requires forall i :: |shuffles(i)| == 35 && forall u :: multiset(shuffles(i))[u] == 5
    ensures multiset(Draws([], shuffles, k, 35))[t] == 5
    ensures multiset(Draws(shuffles(k), shuffles, k + 1, 35))[t] == 5
  {
    DrawsAreRounds(shuffles, 35, k, 1);
    DrawsDrainBag(shuffles(k), shuffles, k + 1, 0);
    assert shuffles(k) + [] == shuffles(k);
  }
}
