/** Which streams are accepted, said of the events alone: no accumulated state, only what came before
    (serve/autotree_serve/app.py, sdk/autotree_sdk/trace.py). */
module Stories {
  import opened Common
  import opened Events
  import A = Accumulator
  import B = Assembler
  import EventAgreement

  // ---------------------------------------------------------------------------
  // What a stream has told so far
  // ---------------------------------------------------------------------------

  ghost predicate StartedIn(p: seq<Emitted>, id: Id) {
    exists k :: 0 <= k < |p| && p[k].BranchStarted? && p[k].branch == id
  }

  ghost predicate EndedIn(p: seq<Emitted>, id: Id) {
    exists k :: 0 <= k < |p| && (p[k].Pruned? || p[k].Merged? || p[k].Done?) && p[k].branch == id
  }

  ghost predicate DoneIn(p: seq<Emitted>) {
    exists k :: 0 <= k < |p| && p[k].Done?
  }

  /** Started and not ended. */
  ghost predicate OpenIn(p: seq<Emitted>, id: Id) {
    StartedIn(p, id) && !EndedIn(p, id)
  }

  ghost function StartedIds(p: seq<Emitted>): set<Id> {
    if p == [] then {} else StartedIds(p[..|p| - 1]) + if p[|p| - 1].BranchStarted? then {p[|p| - 1].branch} else {}
  }

  /** How many tokens the branch has had. */
  ghost function TokensIn(p: seq<Emitted>, id: Id): nat {
    if p == [] then 0 else TokensIn(p[..|p| - 1], id) + if p[|p| - 1].Token? && p[|p| - 1].branch == id then 1 else 0
  }

  ghost function AllTokensIn(p: seq<Emitted>): nat {
    if p == [] then 0 else AllTokensIn(p[..|p| - 1]) + if p[|p| - 1].Token? then 1 else 0
  }

  ghost function PrunedIn(p: seq<Emitted>): nat {
    if p == [] then 0 else PrunedIn(p[..|p| - 1]) + if p[|p| - 1].Pruned? then 1 else 0
  }

  ghost function MergedIn(p: seq<Emitted>): nat {
    if p == [] then 0 else MergedIn(p[..|p| - 1]) + if p[|p| - 1].Merged? then 1 else 0
  }

  /** The texts of the branch's own tokens, one after the other. */
  ghost function OwnText(p: seq<Emitted>, id: Id): string {
    if p == [] then "" else OwnText(p[..|p| - 1], id) + if p[|p| - 1].Token? && p[|p| - 1].branch == id then p[|p| - 1].token else ""
  }

  /** The text from the root to the branch, whose start is looked for among the first n events: its parent's text and
      then its own. */
  ghost function TextTo(p: seq<Emitted>, n: nat, id: Id): string
    requires n <= |p|
  {
    if n == 0 then ""
    else if p[n - 1].BranchStarted? && p[n - 1].branch == id then
      (if p[n - 1].parent.None? then "" else TextTo(p, n - 1, p[n - 1].parent.value)) + OwnText(p, id)
    else TextTo(p, n - 1, id)
  }

  // ---------------------------------------------------------------------------
  // What may come next
  // ---------------------------------------------------------------------------

  ghost predicate CountersFit(usage: Usage, c: Counters) {
    && usage.promptTokens >= 0 && c.logical >= 0 && c.physical >= 0 && c.useful >= 0
    && c.elapsed.Finite? && c.elapsed.value > 0.0 && c.ttft.Finite? && c.ttft.value >= 0.0
  }

  /** At least 1 and, within one part in 10 to the 9 or 10 to the -12, the logical over the physical tokens. */
  ghost predicate RatioFits(ratio: Float, c: Counters) {
    && ratio.Finite? && ratio.value >= 1.0 && c.physical > 0
    && var x := c.logical as real / c.physical as real;
       var gap := if x < ratio.value then ratio.value - x else x - ratio.value;
       gap <= 0.000000000001 || gap * 1000000000.0 <= ratio.value || gap * 1000000000.0 <= x || gap * 1000000000.0 <= -x
  }

  ghost predicate SummaryFits(p: seq<Emitted>, winner: Id, c: Counters, tree: Summary<Float>) {
    && RatioFits(tree.ratio, c)
    && tree.branchCount == |StartedIds(p)|
    && tree.prunedCount == PrunedIn(p) && tree.mergedCount == MergedIn(p)
    && tree.tokensPerBranch.Keys == StartedIds(p) && (forall id :: id in tree.tokensPerBranch ==> tree.tokensPerBranch[id] == TokensIn(p, id))
    && tree.finalScores.Keys == StartedIds(p) && (forall id :: id in tree.finalScores ==> tree.finalScores[id].Finite?)
    && tree.winner == winner
  }

  /** A branch starts once and under a started parent; tokens are numbered from zero and end with their branch; a branch
      ends once, a merged one into another that is still open; and the done event closes the last open branch, with the
      right counts and the text from the root to it. Nothing follows it. */
  ghost predicate Fits(p: seq<Emitted>, e: Emitted) {
    && !DoneIn(p)
    && match e
       case BranchStarted(id, parent) => !StartedIn(p, id) && (parent.Some? ==> StartedIn(p, parent.value))
       case Token(id, index, _, _, logprob) => OpenIn(p, id) && index == TokensIn(p, id) && logprob.Finite?
       case Pruned(id, reason) => OpenIn(p, id) && |reason| > 0
       case Merged(id, into) => OpenIn(p, id) && OpenIn(p, into) && into != id
       case Done(id, text, usage, counters, tree) =>
         && OpenIn(p, id) && (forall other :: OpenIn(p, other) ==> other == id)
         && usage.completionTokens == AllTokensIn(p) && CountersFit(usage, counters)
         && (tree.Some? ==> SummaryFits(p, id, counters, tree.value))
         && text == TextTo(p, |p|, id)
  }

  /** Every event fits what came before it, and the last one is the done event. */
  ghost predicate WellTold(events: seq<Emitted>) {
    && (forall k :: 0 <= k < |events| ==> Fits(events[..k], events[k]))
    && DoneIn(events)
  }

  // ---------------------------------------------------------------------------
  // One event more
  // ---------------------------------------------------------------------------

  lemma OneMore(p: seq<Emitted>, e: Emitted)
    ensures (p + [e])[..|p|] == p
    ensures forall id :: StartedIn(p + [e], id) <==> StartedIn(p, id) || (e.BranchStarted? && e.branch == id)
    ensures forall id :: EndedIn(p + [e], id) <==> EndedIn(p, id) || ((e.Pruned? || e.Merged? || e.Done?) && e.branch == id)
    ensures DoneIn(p + [e]) <==> DoneIn(p) || e.Done?
  {
    var q := p + [e];
    forall id
      ensures StartedIn(q, id) <==> StartedIn(p, id) || (e.BranchStarted? && e.branch == id)
      ensures EndedIn(q, id) <==> EndedIn(p, id) || ((e.Pruned? || e.Merged? || e.Done?) && e.branch == id)
    {
      assert q[|p|] == e;
      if StartedIn(p, id) { var k :| 0 <= k < |p| && p[k].BranchStarted? && p[k].branch == id; assert q[k] == p[k]; }
      if EndedIn(p, id) { var k :| 0 <= k < |p| && (p[k].Pruned? || p[k].Merged? || p[k].Done?) && p[k].branch == id; assert q[k] == p[k]; }
    }
    if DoneIn(p) { var k :| 0 <= k < |p| && p[k].Done?; assert q[k] == p[k]; }
    assert q[|p|] == e;
  }

  lemma CountsOneMore(p: seq<Emitted>, e: Emitted)
    ensures StartedIds(p + [e]) == StartedIds(p) + if e.BranchStarted? then {e.branch} else {}
    ensures AllTokensIn(p + [e]) == AllTokensIn(p) + if e.Token? then 1 else 0
    ensures PrunedIn(p + [e]) == PrunedIn(p) + if e.Pruned? then 1 else 0
    ensures MergedIn(p + [e]) == MergedIn(p) + if e.Merged? then 1 else 0
    ensures forall id :: TokensIn(p + [e], id) == TokensIn(p, id) + if e.Token? && e.branch == id then 1 else 0
    ensures forall id :: OwnText(p + [e], id) == OwnText(p, id) + if e.Token? && e.branch == id then e.token else ""
  {
    assert (p + [e])[..|p|] == p;
  }

  // ---------------------------------------------------------------------------
  // The accumulated state
  // ---------------------------------------------------------------------------

  lemma {:induction false} JoinLast(parts: seq<string>, last: string)
    ensures Join(parts + [last]) == Join(parts) + last
  {
    if parts == [] {
      assert parts + [last] == [last] && [last][1..] == [];
      assert last + "" == last;
    } else {
      assert (parts + [last])[1..] == parts[1..] + [last];
      JoinLast(parts[1..], last);
    }
  }

  /** The accumulator's fields after the events p. */
  ghost predicate Reflects(p: seq<Emitted>, s: A.State) {
    && A.Ok(s)
    && KnowsBranches(p, s)
    && KnowsTokens(p, s)
    && KnowsCounts(p, s)
    && KnowsStarts(p, s)
  }

  ghost predicate KnowsBranches(p: seq<Emitted>, s: A.State) {
    && s.started == StartedIds(p)
    && (forall id :: id in s.started <==> StartedIn(p, id))
    && (forall id :: id in s.terminal <==> EndedIn(p, id))
    && (s.finished <==> DoneIn(p))
  }

  ghost predicate KnowsTokens(p: seq<Emitted>, s: A.State)
    requires A.Ok(s)
  {
    && (forall id :: id in s.started ==> Told(p, s, id))
    && (forall id :: id !in s.started ==> TokensIn(p, id) == 0 && OwnText(p, id) == "")
  }

  ghost predicate KnowsCounts(p: seq<Emitted>, s: A.State) {
    s.tokenCount == AllTokensIn(p) && s.prunedCount == PrunedIn(p) && s.mergedCount == MergedIn(p)
  }

  ghost predicate KnowsStarts(p: seq<Emitted>, s: A.State)
    requires A.Ok(s)
  {
    forall k :: 0 <= k < |p| && p[k].BranchStarted? ==> StartedAsTold(p, s, k)
  }

  ghost predicate Told(p: seq<Emitted>, s: A.State, id: Id)
    requires A.Ok(s) && id in s.started
  {
    s.nextTokenIndex[id] == TokensIn(p, id) == |s.tokens[id]| && Join(s.tokens[id]) == OwnText(p, id)
  }

  ghost predicate StartedAsTold(p: seq<Emitted>, s: A.State, k: nat)
    requires A.Ok(s) && k < |p| && p[k].BranchStarted?
  {
    && p[k].branch in s.started && s.parents[p[k].branch] == p[k].parent
    && (p[k].parent.Some? ==> StartedIn(p[..k], p[k].parent.value))
  }

  lemma FreshReflects()
    ensures Reflects([], A.Fresh())
  {
  }

  lemma {:induction false} PathTextLast(path: seq<Id>, id: Id, tokens: map<Id, seq<string>>)
    requires id in tokens && forall k :: 0 <= k < |path| ==> path[k] in tokens
    ensures PathText(path + [id], tokens) == PathText(path, tokens) + Join(tokens[id])
  {
    if path == [] {
      assert path + [id] == [id] && [id][1..] == [];
      assert Join(tokens[id]) + "" == Join(tokens[id]);
    } else {
      assert (path + [id])[1..] == path[1..] + [id];
      PathTextLast(path[1..], id, tokens);
    }
  }

  lemma StartOf(p: seq<Emitted>, n: nat, id: Id) returns (k: nat)
    requires n <= |p| && StartedIn(p[..n], id)
    ensures k < n && p[k].BranchStarted? && p[k].branch == id
  {
    k :| 0 <= k < |p[..n]| && p[..n][k].BranchStarted? && p[..n][k].branch == id;
  }

  lemma StartsAt(p: seq<Emitted>, n: nat, id: Id, k: nat)
    requires k < n <= |p| && p[k].BranchStarted? && p[k].branch == id
    ensures StartedIn(p[..n], id)
  {
    assert p[..n][k] == p[k];
  }

  /** The text along the walked path is the one told. */
  lemma {:induction false} WalkTells(p: seq<Emitted>, s: A.State, n: nat, id: Id)
    requires A.Ok(s) && KnowsStarts(p, s) && KnowsTokens(p, s) && n <= |p| && StartedIn(p[..n], id)
    ensures id in s.started
    ensures PathText(Walk(s.order, s.parents, id), s.tokens) == TextTo(p, n, id)
    decreases n
  {
    hide ParentsFirst, KnowsTokens, StartedIn, OwnText, PathText, Join;
    var k := StartOf(p, n, id);
    assert StartedAsTold(p, s, k);
    var e := p[n - 1];
    if e.BranchStarted? && e.branch == id {
      OwnIsJoined(p, s, id);
      if e.parent.None? {
        WalkRoot(s, id);
      } else {
        assert StartedAsTold(p, s, n - 1);
        WalkTells(p, s, n - 1, e.parent.value);
        PathTextLast(Walk(s.order, s.parents, e.parent.value), id, s.tokens);
      }
    } else {
      StartsAt(p, n - 1, id, k);
      WalkTells(p, s, n - 1, id);
    }
  }

  lemma OwnIsJoined(p: seq<Emitted>, s: A.State, id: Id)
    requires A.Ok(s) && KnowsTokens(p, s) && id in s.started
    ensures Join(s.tokens[id]) == OwnText(p, id) && "" + OwnText(p, id) == OwnText(p, id)
  {
    hide ParentsFirst, Join, OwnText, TokensIn;
    assert Told(p, s, id);
  }

  lemma WalkRoot(s: A.State, id: Id)
    requires A.Ok(s) && id in s.started && s.parents[id].None?
    ensures PathText(Walk(s.order, s.parents, id), s.tokens) == Join(s.tokens[id])
  {
    hide ParentsFirst;
    PathTextLast([], id, s.tokens);
    assert [] + [id] == [id];
    assert "" + Join(s.tokens[id]) == Join(s.tokens[id]);
  }

  lemma OpenIsLive(p: seq<Emitted>, s: A.State, id: Id)
    requires KnowsBranches(p, s)
    ensures OpenIn(p, id) <==> id in s.started && id !in s.terminal
  {
  }

  lemma IsCloseFits(ratio: Float, c: Counters)
    ensures A.RatioValid(ratio, c) <==> RatioFits(ratio, c)
  {
  }

  lemma SummaryAsTold(p: seq<Emitted>, s: A.State, winner: Id, c: Counters, tree: Summary<Float>)
    requires Reflects(p, s)
    ensures A.SummaryError(s, winner, c, tree).None? <==> SummaryFits(p, winner, c, tree)
  {
    hide A.RatioValid, RatioFits, A.Ok, KnowsTokens, KnowsStarts, StartedIn, EndedIn, DoneIn;
    IsCloseFits(tree.ratio, c);
    CountsAsTold(p, s, tree.tokensPerBranch);
  }

  lemma CountsAsTold(p: seq<Emitted>, s: A.State, counts: map<Id, int>)
    requires Reflects(p, s)
    ensures s.started == StartedIds(p) && s.tokens.Keys == s.started
    ensures counts == (map id | id in s.tokens :: |s.tokens[id]|) <==>
              counts.Keys == StartedIds(p) && forall id :: id in counts ==> counts[id] == TokensIn(p, id)
  {
    hide ParentsFirst, TokensIn;
    var told := map id | id in s.tokens :: |s.tokens[id]|;
    forall id | id in s.tokens
      ensures told[id] == TokensIn(p, id)
    {
      assert Told(p, s, id);
    }
    if counts.Keys == StartedIds(p) && forall id :: id in counts ==> counts[id] == TokensIn(p, id) {
      assert counts == told;
    }
  }

  // ---------------------------------------------------------------------------
  // One event
  // ---------------------------------------------------------------------------

  /** What the earlier starts tell stays true when later events add no branch of their name. */
  lemma StartsStay(p: seq<Emitted>, s: A.State, e: Emitted, r: A.State)
    requires A.Ok(s) && KnowsStarts(p, s) && A.Ok(r) && s.started <= r.started
    requires forall id :: id in s.started ==> r.parents[id] == s.parents[id]
    requires e.BranchStarted? ==> StartedAsTold(p + [e], r, |p|)
    ensures KnowsStarts(p + [e], r)
  {
    hide ParentsFirst, StartedIn;
    var q := p + [e];
    forall k | 0 <= k < |q| && q[k].BranchStarted?
      ensures StartedAsTold(q, r, k)
    {
      if k < |p| {
        assert q[k] == p[k] && q[..k] == p[..k];
        assert StartedAsTold(p, s, k);
      }
    }
  }

  /** The tokens of the branches after one event more. */
  ghost predicate TokensMove(s: A.State, e: Emitted, r: A.State) {
    && r.started == s.started + (if e.BranchStarted? then {e.branch} else {})
    && (e.BranchStarted? ==> e.branch !in s.started && e.branch in r.tokens && e.branch in r.nextTokenIndex
                             && r.tokens[e.branch] == [] && r.nextTokenIndex[e.branch] == 0)
    && (e.Token? ==> e.branch in s.started)
    && forall id :: id in s.started ==>
         && id in r.tokens && id in r.nextTokenIndex && id in s.tokens && id in s.nextTokenIndex
         && r.tokens[id] == s.tokens[id] + (if e.Token? && e.branch == id then [e.token] else [])
         && r.nextTokenIndex[id] == s.nextTokenIndex[id] + (if e.Token? && e.branch == id then 1 else 0)
  }

  lemma TokensKnown(p: seq<Emitted>, s: A.State, e: Emitted, r: A.State)
    requires A.Ok(s) && KnowsTokens(p, s) && A.Ok(r) && TokensMove(s, e, r)
    ensures KnowsTokens(p + [e], r)
  {
    hide A.Ok, Told, TokensMove, TokensIn, OwnText;
    forall id
      ensures id in r.started ==> Told(p + [e], r, id)
      ensures id !in r.started ==> TokensIn(p + [e], id) == 0 && OwnText(p + [e], id) == ""
    {
      if id in s.started { assert Told(p, s, id); }
      TokensOf(p, s, e, r, id);
    }
  }

  lemma TokensOf(p: seq<Emitted>, s: A.State, e: Emitted, r: A.State, id: Id)
    requires A.Ok(s) && A.Ok(r) && TokensMove(s, e, r)
    requires id in s.started ==> Told(p, s, id)
    requires id !in s.started ==> TokensIn(p, id) == 0 && OwnText(p, id) == ""
    ensures id in r.started ==> Told(p + [e], r, id)
    ensures id !in r.started ==> TokensIn(p + [e], id) == 0 && OwnText(p + [e], id) == ""
  {
    hide ParentsFirst, TokensIn, OwnText, Join;
    OneMoreOf(p, e, id);
    if id in s.started {
      if e.Token? && e.branch == id { JoinLast(s.tokens[id], e.token); } else { SameTokens(s, r, id); }
    } else {
      NothingJoined();
    }
  }

  lemma OneMoreOf(p: seq<Emitted>, e: Emitted, id: Id)
    ensures TokensIn(p + [e], id) == TokensIn(p, id) + if e.Token? && e.branch == id then 1 else 0
    ensures OwnText(p + [e], id) == OwnText(p, id) + if e.Token? && e.branch == id then e.token else ""
    ensures !(e.Token? && e.branch == id) ==> OwnText(p + [e], id) == OwnText(p, id)
  {
    CountsOneMore(p, e);
  }

  lemma NothingJoined()
    ensures Join([]) == ""
  {
  }

  lemma SameTokens(s: A.State, r: A.State, id: Id)
    requires id in s.tokens && id in r.tokens && r.tokens[id] == s.tokens[id] + []
    ensures r.tokens[id] == s.tokens[id]
  {
  }

  lemma BranchesKnown(p: seq<Emitted>, s: A.State, e: Emitted, r: A.State)
    requires KnowsBranches(p, s)
    requires r.started == s.started + (if e.BranchStarted? then {e.branch} else {})
    requires r.terminal == s.terminal + (if e.Pruned? || e.Merged? || e.Done? then {e.branch} else {})
    requires r.finished == (s.finished || e.Done?)
    ensures KnowsBranches(p + [e], r)
  {
    hide StartedIn, EndedIn, DoneIn, StartedIds;
    OneMore(p, e);
    CountsOneMore(p, e);
  }

  lemma CountsKnown(p: seq<Emitted>, s: A.State, e: Emitted, r: A.State)
    requires KnowsCounts(p, s)
    requires r.tokenCount == s.tokenCount + (if e.Token? then 1 else 0)
    requires r.prunedCount == s.prunedCount + (if e.Pruned? then 1 else 0)
    requires r.mergedCount == s.mergedCount + (if e.Merged? then 1 else 0)
    ensures KnowsCounts(p + [e], r)
  {
    hide AllTokensIn, PrunedIn, MergedIn;
    CountsOneMore(p, e);
  }

  lemma StartTold(p: seq<Emitted>, s: A.State, e: Emitted)
    requires Reflects(p, s) && !s.finished && e.BranchStarted?
    ensures A.Accept(s, e).Accepted? <==> Fits(p, e)
    ensures A.Accept(s, e).Accepted? ==> Reflects(p + [e], A.Accept(s, e).state)
  {
    hide A.Ok, KnowsTokens, KnowsCounts, KnowsStarts, StartedIn, EndedIn, DoneIn, TokensMove;
    if A.Accept(s, e).Accepted? {
      var r := A.Accept(s, e).state;
      A.AcceptKeepsOk(s, e);
      StartFacts(p, s, e);
      BranchesKnown(p, s, e, r);
      TokensKnown(p, s, e, r);
      CountsKnown(p, s, e, r);
      StartsStay(p, s, e, r);
    }
  }

  lemma StartFacts(p: seq<Emitted>, s: A.State, e: Emitted)
    requires A.Ok(s) && KnowsBranches(p, s) && !s.finished && e.BranchStarted? && A.Accept(s, e).Accepted?
    ensures var r := A.Accept(s, e).state;
            && A.Ok(r) && s.started <= r.started && TokensMove(s, e, r)
            && (forall id :: id in s.started ==> r.parents[id] == s.parents[id])
            && StartedAsTold(p + [e], r, |p|)
  {
    hide ParentsFirst, StartedIn, EndedIn, DoneIn, StartedIds;
    A.AcceptKeepsOk(s, e);
    assert (p + [e])[..|p|] == p && (p + [e])[|p|] == e;
  }

  lemma TokenTold(p: seq<Emitted>, s: A.State, e: Emitted)
    requires Reflects(p, s) && !s.finished && e.Token?
    ensures A.Accept(s, e).Accepted? <==> Fits(p, e)
    ensures A.Accept(s, e).Accepted? ==> Reflects(p + [e], A.Accept(s, e).state)
  {
    hide ParentsFirst, KnowsCounts, KnowsStarts, StartedIn, EndedIn, DoneIn, StartedIds, TokensIn, OwnText, Join, TokensMove;
    OpenIsLive(p, s, e.branch);
    if e.branch in s.started { assert Told(p, s, e.branch); }
    if A.Accept(s, e).Accepted? {
      var r := A.Accept(s, e).state;
      A.AcceptKeepsOk(s, e);
      TokenMoves(s, e);
      BranchesKnown(p, s, e, r);
      TokensKnown(p, s, e, r);
      CountsKnown(p, s, e, r);
      StartsStay(p, s, e, r);
    }
  }

  lemma TokenMoves(s: A.State, e: Emitted)
    requires A.Ok(s) && !s.finished && e.Token? && A.Accept(s, e).Accepted?
    ensures TokensMove(s, e, A.Accept(s, e).state)
  {
    hide ParentsFirst;
  }

  /** Ending a branch changes only which are ended, and the counts of how. */
  lemma EndTold(p: seq<Emitted>, s: A.State, e: Emitted, r: A.State)
    requires Reflects(p, s) && (e.Pruned? || e.Merged? || e.Done?) && e.branch in s.started
    requires r == s.(terminal := s.terminal + {e.branch}, prunedCount := s.prunedCount + (if e.Pruned? then 1 else 0),
                     mergedCount := s.mergedCount + (if e.Merged? then 1 else 0), finished := s.finished || e.Done?)
    ensures Reflects(p + [e], r)
  {
    hide KnowsBranches, KnowsTokens, KnowsCounts, KnowsStarts, ParentsFirst, TokensMove;
    EndMovesNothing(s, e, r);
    BranchesKnown(p, s, e, r);
    TokensKnown(p, s, e, r);
    CountsKnown(p, s, e, r);
    StartsStay(p, s, e, r);
  }

  lemma EndMovesNothing(s: A.State, e: Emitted, r: A.State)
    requires A.Ok(s) && (e.Pruned? || e.Merged? || e.Done?)
    requires r.started == s.started && r.tokens == s.tokens && r.nextTokenIndex == s.nextTokenIndex
    ensures TokensMove(s, e, r)
  {
    hide ParentsFirst;
  }

  lemma PrunedOrMergedTold(p: seq<Emitted>, s: A.State, e: Emitted)
    requires Reflects(p, s) && !s.finished && (e.Pruned? || e.Merged?)
    ensures A.Accept(s, e).Accepted? <==> Fits(p, e)
    ensures A.Accept(s, e).Accepted? ==> Reflects(p + [e], A.Accept(s, e).state)
  {
    hide A.Ok, KnowsTokens, KnowsCounts, KnowsStarts, StartedIn, EndedIn, DoneIn;
    OpenIsLive(p, s, e.branch);
    if e.Merged? { OpenIsLive(p, s, e.into); }
    if A.Accept(s, e).Accepted? { EndTold(p, s, e, A.Accept(s, e).state); }
  }

  /** The last open branch is the one that the terminal branches leave. */
  lemma LastOpen(p: seq<Emitted>, s: A.State, id: Id)
    requires Reflects(p, s) && OpenIn(p, id)
    ensures s.started == s.terminal + {id} <==> forall other :: OpenIn(p, other) ==> other == id
  {
    hide KnowsBranches, KnowsTokens, KnowsCounts, KnowsStarts, OpenIn, ParentsFirst;
    forall other
      ensures OpenIn(p, other) <==> other in s.started && other !in s.terminal
    {
      OpenIsLive(p, s, other);
    }
  }

  lemma StartedFirst(p: seq<Emitted>, id: Id)
    requires StartedIn(p, id)
    ensures StartedIn(p[..|p|], id)
  {
    assert p[..|p|] == p;
  }

  lemma DoneTold(p: seq<Emitted>, s: A.State, e: Emitted)
    requires Reflects(p, s) && !s.finished && e.Done?
    ensures A.Accept(s, e).Accepted? <==> Fits(p, e)
    ensures A.Accept(s, e).Accepted? ==> Reflects(p + [e], A.Accept(s, e).state)
  {
    hide A.Ok, KnowsTokens, KnowsStarts, StartedIn, EndedIn, DoneIn, A.SummaryError, SummaryFits, Walk, PathText, TextTo;
    OpenIsLive(p, s, e.branch);
    OkOf(p, s);
    if OpenIn(p, e.branch) {
      LastOpen(p, s, e.branch);
      StartedFirst(p, e.branch);
      WalkTells(p, s, |p|, e.branch);
      if e.tree.Some? {
        SummaryAsTold(p, s, e.branch, e.counters, e.tree.value);
        SameSummaryError(s, e);
      }
      CompletesExactly(s, e);
    }
    if A.Accept(s, e).Accepted? { EndTold(p, s, e, A.Accept(s, e).state); }
  }

  lemma OkOf(p: seq<Emitted>, s: A.State)
    requires Reflects(p, s)
    ensures A.Ok(s)
  {
  }

  /** The summary's check does not look at who has ended. */
  lemma SameSummaryError(s: A.State, e: Emitted)
    requires e.Done? && e.tree.Some?
    ensures A.SummaryError(s.(terminal := s.terminal + {e.branch}), e.branch, e.counters, e.tree.value)
         == A.SummaryError(s, e.branch, e.counters, e.tree.value)
  {
  }

  lemma CompletesExactly(s: A.State, e: Emitted)
    requires A.Ok(s) && e.Done? && e.branch in s.started && e.branch !in s.terminal
    ensures A.Complete(s, e).Accepted? <==>
              && s.started == s.terminal + {e.branch}
              && e.usage.completionTokens == s.tokenCount && CountersFit(e.usage, e.counters)
              && (e.tree.Some? ==> A.SummaryError(s.(terminal := s.terminal + {e.branch}), e.branch, e.counters, e.tree.value).None?)
              && PathText(Walk(s.order, s.parents, e.branch), s.tokens) == e.text
    ensures A.Complete(s, e).Accepted? ==>
              A.Complete(s, e).state == s.(terminal := s.terminal + {e.branch}, finished := true)
  {
    hide ParentsFirst, Walk, PathText, A.SummaryError;
  }

  lemma EventTold(p: seq<Emitted>, s: A.State, e: Emitted)
    requires Reflects(p, s)
    ensures A.Ok(s) && (A.Accept(s, e).Accepted? <==> Fits(p, e))
    ensures A.Accept(s, e).Accepted? ==> Reflects(p + [e], A.Accept(s, e).state)
  {
    hide KnowsTokens, KnowsCounts, KnowsStarts, A.Ok, A.Start, A.AddToken, A.Merge, A.Prune, A.Complete, SummaryFits, TextTo;
    if s.finished {
    } else {
      match e
      case BranchStarted(_, _) => StartTold(p, s, e);
      case Token(_, _, _, _, _) => TokenTold(p, s, e);
      case Pruned(_, _) => PrunedOrMergedTold(p, s, e);
      case Merged(_, _) => PrunedOrMergedTold(p, s, e);
      case Done(_, _, _, _, _) => DoneTold(p, s, e);
    }
  }

  // ---------------------------------------------------------------------------
  // Whole streams
  // ---------------------------------------------------------------------------

  /** The rest of a stream that begins with p. */
  ghost predicate TellsOn(p: seq<Emitted>, rest: seq<Emitted>) {
    && (forall k :: 0 <= k < |rest| ==> Fits(p + rest[..k], rest[k]))
    && DoneIn(p + rest)
  }

  lemma TellsFirst(p: seq<Emitted>, rest: seq<Emitted>)
    requires rest != []
    ensures TellsOn(p, rest) <==> Fits(p, rest[0]) && TellsOn(p + [rest[0]], rest[1..])
  {
    hide Fits, DoneIn;
    var q := p + [rest[0]];
    assert q + rest[1..] == p + rest && p + rest[..0] == p;
    forall k | 0 <= k < |rest[1..]|
      ensures q + rest[1..][..k] == p + rest[..k + 1] && rest[1..][k] == rest[k + 1]
    {
    }
    if Fits(p, rest[0]) && TellsOn(q, rest[1..]) {
      forall k | 0 <= k < |rest|
        ensures Fits(p + rest[..k], rest[k])
      {
        if k > 0 { assert Fits(q + rest[1..][..k - 1], rest[1..][k - 1]); }
      }
    }
    if TellsOn(p, rest) {
      assert Fits(p + rest[..0], rest[0]);
    }
  }

  lemma {:induction false} AcceptsAsTold(p: seq<Emitted>, s: A.State, rest: seq<Emitted>)
    requires Reflects(p, s)
    ensures A.Ok(s) && (A.AcceptsStream(s, rest) <==> TellsOn(p, rest))
    decreases |rest|
  {
    hide Reflects, Fits, A.Ok, A.Accept;
    NothingMore(p, s);
    if rest == [] {
      assert p + [] == p;
    } else {
      EventTold(p, s, rest[0]);
      TellsFirst(p, rest);
      if A.Accept(s, rest[0]).Accepted? {
        A.AcceptKeepsOk(s, rest[0]);
        AcceptsAsTold(p + [rest[0]], A.Accept(s, rest[0]).state, rest[1..]);
      }
    }
  }

  lemma NothingMore(p: seq<Emitted>, s: A.State)
    requires Reflects(p, s)
    ensures A.Ok(s) && (s.finished <==> DoneIn(p))
  {
  }

  /** The server accepts exactly the streams whose every event fits what came before it. */
  lemma ServerAcceptsStories(events: seq<Emitted>)
    ensures A.AcceptsStream(A.Fresh(), events) <==> WellTold(events)
  {
    hide Fits, DoneIn;
    FreshReflects();
    AcceptsAsTold([], A.Fresh(), events);
    assert [] + events == events;
    forall k | 0 <= k < |events| ensures [] + events[..k] == events[..k] {}
  }

  /** The client accepts exactly those of them that it can read. */
  lemma ClientAcceptsStories(events: seq<Emitted>)
    ensures B.AcceptsStream(B.Fresh(), EventAgreement.StreamOnWire(events)) <==>
              WellTold(events) && forall k :: 0 <= k < |events| ==> EventAgreement.Readable(events[k])
  {
    ServerAcceptsStories(events);
    EventAgreement.SameStreams(events);
  }
}
