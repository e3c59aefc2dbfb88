/** Unbiased choice of an index from 64-bit samples (scheduler/src/policies/mcts.rs, random_index). */
module RandomIndex {
  import opened Common

  const TWO_TO_64: nat := 0x1_0000_0000_0000_0000

  /** bound.wrapping_neg() % bound, in 64-bit arithmetic. */
  function Threshold(bound: nat): (t: nat)
    requires 0 < bound < TWO_TO_64
    ensures t < bound
  {
    ((TWO_TO_64 - bound) % TWO_TO_64) % bound
  }

  predicate IsAccepted(sample: nat, bound: nat)
    requires 0 < bound < TWO_TO_64
  {
    Threshold(bound) <= sample < TWO_TO_64
  }

  /** Draws until a sample is accepted. `samples` is what the generator will produce; None means that all
      of it was rejected. */
  method Draw(samples: seq<nat>, bound: nat) returns (index: Option<nat>, drawn: nat)
    requires 0 < bound < TWO_TO_64 && forall k :: 0 <= k < |samples| ==> samples[k] < TWO_TO_64
    ensures index.Some? ==>
              && 0 < drawn <= |samples|
              && IsAccepted(samples[drawn - 1], bound)
              && index.value == samples[drawn - 1] % bound < bound
              && forall k :: 0 <= k < drawn - 1 ==> !IsAccepted(samples[k], bound)
    ensures index.None? <==> forall k :: 0 <= k < |samples| ==> !IsAccepted(samples[k], bound)
  {
    var rejectionThreshold := Threshold(bound);
    drawn := 0;
    while drawn < |samples|
      invariant 0 <= drawn <= |samples|
      invariant forall k :: 0 <= k < drawn ==> !IsAccepted(samples[k], bound)
    {
      var sample := samples[drawn];
      drawn := drawn + 1;
      if sample >= rejectionThreshold {
        return Some(sample % bound), drawn;
      }
    }
    index := None;
  }

  lemma Decompose(x: int, bound: nat)
    requires bound > 0
    ensures x == (x / bound) * bound + x % bound && 0 <= x % bound < bound
  {
  }

  lemma MultipleIsFar(d: int, bound: nat)
    ensures d >= 1 ==> d * bound >= bound
    ensures d <= -1 ==> d * bound <= 0 - bound
  {
    if d >= 1 {
      assert d * bound == (d - 1) * bound + bound;
    } else if d <= -1 {
      assert d * bound == (d + 1) * bound - bound;
    }
  }

  /** Two numbers less than `bound` apart with the same residue are the same number. */
  lemma SameResidue(x: int, y: int, bound: nat)
    requires bound > 0 && x % bound == y % bound && x <= y < x + bound
    ensures x == y
  {
    Decompose(x, bound);
    Decompose(y, bound);
    var d := y / bound - x / bound;
    assert d * bound == y - x;
    MultipleIsFar(d, bound);
  }

  lemma ResidueOf(q: int, r: nat, bound: nat)
    requires r < bound
    ensures (q * bound + r) % bound == r
  {
    var x := q * bound + r;
    Decompose(x, bound);
    var d := x / bound - q;
    assert d * bound == r - x % bound;
    MultipleIsFar(d, bound);
  }

  /** The accepted samples form whole blocks of `bound` numbers. */
  lemma AcceptedBlocks(bound: nat) returns (blocks: nat)
    requires 0 < bound < TWO_TO_64
    ensures blocks > 0 && TWO_TO_64 - Threshold(bound) == blocks * bound
    ensures Threshold(bound) == TWO_TO_64 % bound
  {
    var x := TWO_TO_64 - bound;
    Decompose(x, bound);
    MultipleIsFar(x / bound, bound);
    blocks := x / bound + 1;
    assert blocks * bound == (x / bound) * bound + bound;
    assert TWO_TO_64 == blocks * bound + Threshold(bound);
    ResidueOf(blocks, Threshold(bound), bound);
  }

  /** The samples of the k blocks from `lo` that give the index. */
  ghost function Preimages(lo: int, k: nat, bound: nat, index: nat): set<int> {
    set s: int | lo <= s < lo + k * bound && s % bound == index
  }

  /** The only number of the window from `lo` with residue `index`. */
  lemma WindowHit(lo: int, bound: nat, index: nat) returns (hit: int)
    requires index < bound
    ensures lo <= hit < lo + bound && hit % bound == index
    ensures forall s: int :: lo <= s < lo + bound && s % bound == index ==> s == hit
  {
    Decompose(lo, bound);
    var q, r := lo / bound, lo % bound;
    if r <= index {
      hit := q * bound + index;
      ResidueOf(q, index, bound);
    } else {
      hit := (q + 1) * bound + index;
      ResidueOf(q + 1, index, bound);
      assert (q + 1) * bound == q * bound + bound;
    }
    forall s: int | lo <= s < lo + bound && s % bound == index
      ensures s == hit
    {
      if s <= hit { SameResidue(s, hit, bound); } else { SameResidue(hit, s, bound); }
    }
  }

  lemma {:induction false} CountPreimages(lo: int, k: nat, bound: nat, index: nat)
    requires index < bound
    ensures |Preimages(lo, k, bound, index)| == k
  {
    if k == 0 {
      assert Preimages(lo, 0, bound, index) == {};
    } else {
      CountPreimages(lo, k - 1, bound, index);
      assert k * bound == (k - 1) * bound + bound;
      var hit := WindowHit(lo + (k - 1) * bound, bound, index);
      var before := Preimages(lo, k - 1, bound, index);
      assert (k - 1) * bound >= 0;
      assert Preimages(lo, k, bound, index) == before + {hit};
      assert hit !in before;
    }
  }

  ghost function Choosing(bound: nat, index: nat): set<int>
    requires 0 < bound < TWO_TO_64
  {
    set s: int | 0 <= s < TWO_TO_64 && IsAccepted(s, bound) && s % bound == index
  }

  /** Exact uniformity: every index is chosen by the same number of the 2^64 samples, and together these
      are all the accepted ones. */
  lemma Uniform(bound: nat, i: nat, j: nat)
    requires 0 < bound < TWO_TO_64 && i < bound && j < bound
    ensures |Choosing(bound, i)| == |Choosing(bound, j)|
    ensures |Choosing(bound, i)| * bound == TWO_TO_64 - Threshold(bound)
  {
    var blocks := AcceptedBlocks(bound);
    CountPreimages(Threshold(bound), blocks, bound, i);
    CountPreimages(Threshold(bound), blocks, bound, j);
    assert Choosing(bound, i) == Preimages(Threshold(bound), blocks, bound, i);
    assert Choosing(bound, j) == Preimages(Threshold(bound), blocks, bound, j);
  }

  /** More than half of the samples are accepted, whatever the bound. */
  lemma MostAreAccepted(bound: nat)
    requires 0 < bound < TWO_TO_64
    ensures 2 * (TWO_TO_64 - Threshold(bound)) > TWO_TO_64
  {
    hide Threshold;
    var blocks := AcceptedBlocks(bound);
    OneBlock(blocks, bound);
  }

  lemma OneBlock(blocks: nat, bound: nat)
    requires blocks > 0
    ensures blocks * bound >= bound
  {
    assert blocks * bound == (blocks - 1) * bound + bound;
  }
}
