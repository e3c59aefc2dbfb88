/** The orders the scheduler and its policies sort branches by. */
module Ranking {
  import opened Common
  import opened Arena

  datatype Order = ByLogprob | ByValue | ByTier | ByDepth | ById

  /** The number a tier compares: a value for scored branches, a logprob for the others. */
  function TierScore(n: BranchNode): real {
    if n.hasValue then n.value else n.logprob
  }

  /** Is `a` strictly ahead of `b`? */
  predicate Ahead(t: Tree, o: Order, a: nat, b: nat)
    requires a < |t.nodes| && b < |t.nodes|
  {
    var x, y := t.nodes[a], t.nodes[b];
    match o
    case ByLogprob => x.logprob > y.logprob || (x.logprob == y.logprob && a < b)
    case ByValue =>
      || x.value > y.value
      || (x.value == y.value && (x.logprob > y.logprob || (x.logprob == y.logprob && a < b)))
    case ByTier =>
      || (x.hasValue && !y.hasValue)
      || (x.hasValue == y.hasValue && (TierScore(x) > TierScore(y) || (TierScore(x) == TierScore(y) && a < b)))
    case ByDepth => x.depth > y.depth || (x.depth == y.depth && a > b)
    case ById => a < b
  }

  ghost predicate InTree(t: Tree, ids: seq<nat>) {
    forall k :: 0 <= k < |ids| ==> ids[k] < |t.nodes|
  }

  ghost predicate Ranked(t: Tree, o: Order, ids: seq<nat>)
    requires InTree(t, ids)
  {
    forall i, j :: 0 <= i < j < |ids| ==> Ahead(t, o, ids[i], ids[j])
  }

  function Insert(t: Tree, o: Order, x: nat, ids: seq<nat>): (r: seq<nat>)
    requires x < |t.nodes| && InTree(t, ids)
    ensures InTree(t, r) && |r| == |ids| + 1
    ensures forall y :: y in r <==> y == x || y in ids
  {
    if ids == [] then [x]
    else if Ahead(t, o, x, ids[0]) then [x] + ids
    else [ids[0]] + Insert(t, o, x, ids[1..])
  }

  /** A sorted copy, standing for the library sort. */
  function Sort(t: Tree, o: Order, ids: seq<nat>): (r: seq<nat>)
    requires InTree(t, ids)
    ensures forall y :: y in r <==> y in ids
    ensures InTree(t, r) && |r| == |ids|
  {
    if ids == [] then []
    else Insert(t, o, ids[0], Sort(t, o, ids[1..]))
  }

  lemma AheadIsStrictTotal(t: Tree, o: Order, a: nat, b: nat, c: nat)
    requires a < |t.nodes| && b < |t.nodes| && c < |t.nodes|
    ensures !Ahead(t, o, a, a)
    ensures a != b ==> Ahead(t, o, a, b) || Ahead(t, o, b, a)
    ensures Ahead(t, o, a, b) && Ahead(t, o, b, c) ==> Ahead(t, o, a, c)
  {
  }

  lemma {:induction false} InsertRanks(t: Tree, o: Order, x: nat, ids: seq<nat>)
    requires x < |t.nodes| && InTree(t, ids) && x !in ids && Ranked(t, o, ids)
    ensures Ranked(t, o, Insert(t, o, x, ids))
  {
    if ids != [] {
      if Ahead(t, o, x, ids[0]) {
        forall j | 0 <= j < |ids|
          ensures Ahead(t, o, x, ids[j])
        {
          AheadIsStrictTotal(t, o, x, ids[0], ids[j]);
        }
      } else {
        AheadIsStrictTotal(t, o, x, ids[0], x);
        var rest := Insert(t, o, x, ids[1..]);
        InsertRanks(t, o, x, ids[1..]);
        forall j | 0 <= j < |rest|
          ensures Ahead(t, o, ids[0], rest[j])
        {
          assert rest[j] in rest;
        }
      }
    }
  }

  lemma {:induction false} SortRanks(t: Tree, o: Order, ids: seq<nat>)
    requires InTree(t, ids) && Distinct(ids)
    ensures Ranked(t, o, Sort(t, o, ids)) && Distinct(Sort(t, o, ids))
  {
    if ids != [] {
      SortRanks(t, o, ids[1..]);
      assert ids[0] !in ids[1..] by {
        forall j | 1 <= j < |ids| ensures ids[j] != ids[0] {}
      }
      InsertRanks(t, o, ids[0], Sort(t, o, ids[1..]));
    }
    RankedIsDistinct(t, o, Sort(t, o, ids));
  }

  lemma RankedIsDistinct(t: Tree, o: Order, ids: seq<nat>)
    requires InTree(t, ids) && Ranked(t, o, ids)
    ensures Distinct(ids)
  {
    forall i, j | 0 <= i < j < |ids|
      ensures ids[i] != ids[j]
    {
      AheadIsStrictTotal(t, o, ids[i], ids[i], ids[i]);
    }
  }

  /** The ids of `ids` for which the node carries a score, in order. */
  function Scored(t: Tree, ids: seq<nat>): (r: seq<nat>)
    requires InTree(t, ids)
    ensures forall i :: i in r <==> i in ids && i < |t.nodes| && t.nodes[i].hasValue
    ensures InTree(t, r)
  {
    if ids == [] then []
    else if t.nodes[ids[0]].hasValue then [ids[0]] + Scored(t, ids[1..])
    else Scored(t, ids[1..])
  }
}
