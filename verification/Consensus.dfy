/** Keeping a minimum of survivors in a round of agreement scores (core/autotree_core/engine/consensus.py). */
module Consensus {
  import opened Common

  type Scores = map<nat, real>

  /** Higher score first, lower id among equals. */
  predicate Before(raw: Scores, a: nat, b: nat)
    requires a in raw && b in raw
  {
    raw[a] > raw[b] || (raw[a] == raw[b] && a < b)
  }

  ghost predicate Known(raw: Scores, ids: seq<nat>) {
    forall k :: 0 <= k < |ids| ==> ids[k] in raw
  }

  ghost predicate IsRanked(raw: Scores, ids: seq<nat>)
    requires Known(raw, ids)
  {
    forall i, j :: 0 <= i < j < |ids| ==> Before(raw, ids[i], ids[j])
  }

  function Place(raw: Scores, x: nat, ids: seq<nat>): (r: seq<nat>)
    requires x in raw && Known(raw, ids)
    ensures Known(raw, r) && |r| == |ids| + 1
    ensures forall y :: y in r <==> y == x || y in ids
  {
    if ids == [] then [x]
    else if Before(raw, x, ids[0]) then [x] + ids
    else [ids[0]] + Place(raw, x, ids[1..])
  }

  /** The scored branches below n, best first. */
  function RankedBelow(raw: Scores, n: nat): (r: seq<nat>)
    ensures Known(raw, r)
    ensures forall y :: y in r <==> y in raw && y < n
  {
    if n == 0 then []
    else if n - 1 in raw then Place(raw, n - 1, RankedBelow(raw, n - 1))
    else RankedBelow(raw, n - 1)
  }

  lemma {:induction false} PlaceRanks(raw: Scores, x: nat, ids: seq<nat>)
    requires x in raw && Known(raw, ids) && x !in ids && IsRanked(raw, ids)
    ensures IsRanked(raw, Place(raw, x, ids))
  {
    if ids != [] {
      assert ids == [ids[0]] + ids[1..];
      if !Before(raw, x, ids[0]) {
        PlaceRanks(raw, x, ids[1..]);
        var rest := Place(raw, x, ids[1..]);
        forall j | 0 <= j < |rest|
          ensures Before(raw, ids[0], rest[j])
        {
          assert rest[j] in rest;
        }
      }
    }
  }

  lemma {:induction false} RankedBelowRanks(raw: Scores, n: nat)
    ensures IsRanked(raw, RankedBelow(raw, n)) && Distinct(RankedBelow(raw, n))
  {
    hide IsRanked, Place, Before;
    if n == 0 {
      NothingRanked(raw);
    } else {
      RankedBelowRanks(raw, n - 1);
      if n - 1 in raw { PlaceRanks(raw, n - 1, RankedBelow(raw, n - 1)); }
    }
    RankedIsDistinct(raw, RankedBelow(raw, n));
  }

  lemma NothingRanked(raw: Scores)
    ensures IsRanked(raw, [])
  {
  }

  lemma RankedIsDistinct(raw: Scores, ids: seq<nat>)
    requires Known(raw, ids) && IsRanked(raw, ids)
    ensures Distinct(ids)
  {
    forall i, j | 0 <= i < j < |ids|
      ensures ids[i] != ids[j]
    {
      assert Before(raw, ids[i], ids[j]);
    }
  }

  /** Some bound above every branch. */
  ghost function Above(ids: set<nat>): (n: nat)
    ensures forall b :: b in ids ==> b < n
  {
    if ids == {} then 0
    else
      var x :| x in ids;
      var rest := ids - {x};
      assert ids == rest + {x};
      x + 1 + Above(rest)
  }

  ghost function Ranking(raw: Scores): (r: seq<nat>)
    ensures Known(raw, r)
    ensures forall y :: y in r <==> y in raw
  {
    RankedBelow(raw, Above(raw.Keys))
  }

  /** The best-ranked branches that are kept whatever they scored. */
  ghost function Protected(raw: Scores, minSurvivors: nat): seq<nat> {
    var ranked := Ranking(raw);
    ranked[..Min(minSurvivors, |ranked|)]
  }

  /** Every protected branch gets the best score, the others keep theirs. */
  ghost function ProtectMinimumSurvivors(raw: Scores, minSurvivors: nat): (r: Scores)
    ensures r.Keys == raw.Keys
  {
    if raw == map[] then map[]
    else
      assert Ranking(raw) != [] by { var b :| b in raw; assert b in Ranking(raw); }
      var best := raw[Ranking(raw)[0]];
      map b | b in raw :: if b in Protected(raw, minSurvivors) then best else raw[b]
  }

  ghost predicate IsTop(scores: Scores, b: nat) {
    b in scores && forall other :: other in scores ==> scores[other] <= scores[b]
  }

  ghost function Top(scores: Scores): set<nat> {
    set b | b in scores && IsTop(scores, b)
  }

  /** The protected branches are the best-ranked ones. */
  lemma ProtectedAreBest(raw: Scores, minSurvivors: nat, a: nat, b: nat)
    requires a in Protected(raw, minSurvivors) && b in raw && b !in Protected(raw, minSurvivors)
    ensures a in raw && (raw[b] < raw[a] || (raw[b] == raw[a] && a < b))
  {
    var ranked := Ranking(raw);
    RankedBelowRanks(raw, Above(raw.Keys));
    assert b in ranked;
    hide Ranking;
    SplitAt(raw, ranked, Min(minSurvivors, |ranked|), a, b);
  }

  lemma SplitAt(raw: Scores, ranked: seq<nat>, k: nat, a: nat, b: nat)
    requires Known(raw, ranked) && IsRanked(raw, ranked) && k <= |ranked|
    requires a in ranked[..k] && b in ranked && b !in ranked[..k]
    ensures a in raw && b in raw && Before(raw, a, b)
  {
    var i :| 0 <= i < k && ranked[..k][i] == a;
    var j :| 0 <= j < |ranked| && ranked[j] == b;
    assert ranked[i] == a;
    forall x | 0 <= x < k
      ensures ranked[x] != b
    {
      assert ranked[..k][x] == ranked[x];
    }
  }

  /** After protection the top-scored branches are the protected ones and those that scored best anyway. */
  lemma TopAfterProtection(raw: Scores, minSurvivors: nat, b: nat)
    requires minSurvivors > 0 && b in raw
    ensures IsTop(ProtectMinimumSurvivors(raw, minSurvivors), b) <==> b in Protected(raw, minSurvivors) || IsTop(raw, b)
  {
    var ranked := Ranking(raw);
    assert b in ranked;
    RankedBelowRanks(raw, Above(raw.Keys));
    var first := ranked[0];
    assert first in ranked && first in raw;
    forall other | other in raw
      ensures raw[other] <= raw[first]
    {
      assert other in ranked;
      var j :| 0 <= j < |ranked| && ranked[j] == other;
      if j > 0 { assert Before(raw, ranked[0], ranked[j]); }
    }
    assert first in Protected(raw, minSurvivors);
  }

  /** At least the configured number of branches share the top score, or all of them when there are fewer. */
  lemma EnoughSurvive(raw: Scores, minSurvivors: nat)
    requires minSurvivors > 0
    ensures |Top(ProtectMinimumSurvivors(raw, minSurvivors))| >= Min(minSurvivors, |raw|)
  {
    var ranked, kept := Ranking(raw), Protected(raw, minSurvivors);
    RankedBelowRanks(raw, Above(raw.Keys));
    CountProtected(raw, minSurvivors);
    hide Ranking, ProtectMinimumSurvivors, IsTop, IsRanked;
    var top := Top(ProtectMinimumSurvivors(raw, minSurvivors));
    forall b | b in kept
      ensures b in top
    {
      assert b in ranked;
      TopAfterProtection(raw, minSurvivors, b);
    }
    SubsetCount(Elements(kept), top);
  }

  lemma CountProtected(raw: Scores, minSurvivors: nat)
    ensures |Elements(Protected(raw, minSurvivors))| == Min(minSurvivors, |raw|)
  {
    var ranked, kept := Ranking(raw), Protected(raw, minSurvivors);
    RankedBelowRanks(raw, Above(raw.Keys));
    hide IsRanked, Known, RankedBelow;
    DistinctCount(ranked);
    assert Elements(ranked) == raw.Keys;
    assert |raw| == |raw.Keys|;
    assert Distinct(kept) by {
      forall i, j | 0 <= i < j < |kept| ensures kept[i] != kept[j] { assert ranked[i] != ranked[j]; }
    }
    DistinctCount(kept);
  }

  lemma {:induction false} SubsetCount(a: set<nat>, b: set<nat>)
    requires a <= b
    ensures |a| <= |b|
  {
    if a != {} {
      var x :| x in a;
      SubsetCount(a - {x}, b - {x});
    }
  }
}
