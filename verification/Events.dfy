/** The public event stream of one generation, as the server emits it and the client reads it. */
module Events {
  import opened Common

  type Id = string

  datatype Usage = Usage(promptTokens: int, completionTokens: int)

  datatype Counters = Counters(logical: int, physical: int, useful: int, elapsed: Float, ttft: Float)

  /** The engine's summaries always carry a ratio; in those the client reads it may be missing. Only a run that
      prunes by value estimates reports the last two fields; where they are absent they are not sent at all. */
  datatype Summary<R> = Summary(
    policy: string,
    ratio: R,
    branchCount: int,
    prunedCount: int,
    mergedCount: int,
    winner: Id,
    tokensPerBranch: map<Id, int>,
    finalScores: map<Id, Float>,
    valueEstimates: Option<map<Id, Option<Float>>>,
    prunedAtTokens: Option<map<Id, Option<int>>>)

  datatype Event<R> =
    | BranchStarted(branch: Id, parent: Option<Id>)
    | Token(branch: Id, index: int, token: string, tokenId: Option<int>, logprob: Float)
    | Pruned(branch: Id, reason: string)
    | Merged(branch: Id, into: Id)
    | Done(branch: Id, text: string, usage: Usage, counters: Counters, tree: Option<Summary<R>>)

  /** What the engine hands to the server. */
  type Emitted = Event<Float>

  /** What the client reads. */
  type Received = Event<Option<Float>>

  /** An event as the client reads it. */
  function OnWire(e: Emitted): Received {
    match e
    case BranchStarted(id, parent) => BranchStarted(id, parent)
    case Token(id, index, token, tokenId, logprob) => Token(id, index, token, tokenId, logprob)
    case Pruned(id, reason) => Pruned(id, reason)
    case Merged(id, into) => Merged(id, into)
    case Done(id, text, usage, counters, tree) =>
      Done(id, text, usage, counters, if tree.None? then None else Some(SummaryOnWire(tree.value)))
  }

  function SummaryOnWire(s: Summary<Float>): Summary<Option<Float>> {
    Summary(s.policy, Some(s.ratio), s.branchCount, s.prunedCount, s.mergedCount, s.winner, s.tokensPerBranch, s.finalScores,
            s.valueEstimates, s.prunedAtTokens)
  }

  datatype Outcome<S, E> = Accepted(state: S) | Rejected(error: E)

  /** Python's math.isclose with rel_tol=1e-9 and abs_tol=1e-12. */
  predicate IsClose(a: real, b: real) {
    Abs(a - b) <= MaxReal(0.000000001 * MaxReal(Abs(a), Abs(b)), 0.000000000001)
  }

  function Join(parts: seq<string>): string {
    if parts == [] then "" else parts[0] + Join(parts[1..])
  }

  /** The tokens along a path of branches, as one text. */
  function PathText(path: seq<Id>, tokens: map<Id, seq<string>>): string
    requires forall k :: 0 <= k < |path| ==> path[k] in tokens
  {
    if path == [] then "" else Join(tokens[path[0]]) + PathText(path[1..], tokens)
  }

  /** The keys of a dictionary in insertion order. */
  ghost predicate Lists<V>(order: seq<Id>, m: map<Id, V>) {
    Distinct(order) && forall id :: id in order <==> id in m
  }

  function IndexOf(order: seq<Id>, id: Id): (k: nat)
    requires id in order
    ensures k < |order| && order[k] == id
  {
    if order[0] == id then 0 else 1 + IndexOf(order[1..], id)
  }

  lemma IndexUnique(order: seq<Id>, k: nat)
    requires Distinct(order) && k < |order|
    ensures IndexOf(order, order[k]) == k
  {
  }

  /** Every parent was inserted before its child. */
  ghost predicate ParentsFirst(order: seq<Id>, parents: map<Id, Option<Id>>) {
    && Lists(order, parents)
    && forall k :: 0 <= k < |order| && parents[order[k]].Some? ==> parents[order[k]].value in order[..k]
  }

  lemma ParentIsEarlier(order: seq<Id>, parents: map<Id, Option<Id>>, id: Id)
    requires ParentsFirst(order, parents) && id in parents && parents[id].Some?
    ensures parents[id].value in parents
    ensures IndexOf(order, parents[id].value) < IndexOf(order, id)
  {
    var k := IndexOf(order, id);
    var p := parents[id].value;
    assert p in order[..k];
    var j :| 0 <= j < k && order[..k][j] == p;
    IndexUnique(order, j);
  }

  /** From the root to the branch, found by walking parents. */
  function Walk(order: seq<Id>, parents: map<Id, Option<Id>>, id: Id): (path: seq<Id>)
    requires ParentsFirst(order, parents) && id in parents
    ensures forall k :: 0 <= k < |path| ==> path[k] in parents
    decreases IndexOf(order, id)
  {
    if parents[id].None? then [id]
    else
      ParentIsEarlier(order, parents, id);
      Walk(order, parents, parents[id].value) + [id]
  }

  function WalkTo(order: seq<Id>, parents: map<Id, Option<Id>>, current: Option<Id>): seq<Id>
    requires ParentsFirst(order, parents) && (current.Some? ==> current.value in parents)
  {
    if current.None? then [] else Walk(order, parents, current.value)
  }

  /** One turn of a walk up the parents. */
  lemma WalkStep(order: seq<Id>, parents: map<Id, Option<Id>>, id: Id, below: seq<Id>)
    requires ParentsFirst(order, parents) && id in parents
    ensures parents[id].Some? ==> parents[id].value in parents && IndexOf(order, parents[id].value) < IndexOf(order, id)
    ensures WalkTo(order, parents, Some(id)) + below == WalkTo(order, parents, parents[id]) + ([id] + below)
  {
    if parents[id].Some? { ParentIsEarlier(order, parents, id); }
  }

  lemma PutLast(order: seq<Id>, id: Id)
    requires Distinct(order) && id !in order
    ensures Distinct(order + [id])
  {
  }

  /** A new branch under a known parent keeps parents first. */
  lemma StartKeepsParentsFirst(order: seq<Id>, parents: map<Id, Option<Id>>, id: Id, parent: Option<Id>)
    requires ParentsFirst(order, parents) && id !in parents && (parent.Some? ==> parent.value in parents)
    ensures ParentsFirst(order + [id], parents[id := parent])
  {
    PutLast(order, id);
    var more, grown := order + [id], parents[id := parent];
    forall k | 0 <= k < |more| && grown[more[k]].Some?
      ensures grown[more[k]].value in more[..k]
    {
      if k < |order| {
        assert more[k] == order[k] && more[..k] == order[..k];
      } else {
        assert more[..k] == order;
      }
    }
  }

  /** Walks do not change when a branch is added. */
  lemma {:induction false} WalkStays(order: seq<Id>, parents: map<Id, Option<Id>>, id: Id, parent: Option<Id>, x: Id)
    requires ParentsFirst(order, parents) && id !in parents && (parent.Some? ==> parent.value in parents) && x in parents
    ensures ParentsFirst(order + [id], parents[id := parent])
    ensures Walk(order + [id], parents[id := parent], x) == Walk(order, parents, x)
    decreases IndexOf(order, x)
  {
    StartKeepsParentsFirst(order, parents, id, parent);
    if parents[x].Some? {
      ParentIsEarlier(order, parents, x);
      WalkStays(order, parents, id, parent, parents[x].value);
    }
  }
}
