/** Token accounting: what was spent is what the arena holds (scheduler/src/budget.rs, scheduler/src/types.rs). */
module Accounts {
  import opened Common
  import opened Arena
  import opened Commands
  import opened CommandStream
  import opened Lifecycle
  import opened Termination
  import opened Policies
  import opened Scheduler
  import Lockstep

  /** Tokens generated on the node itself, beyond what it inherited. */
  function OwnTokens(t: Tree, i: nat): int
    requires i < |t.nodes|
  {
    var p := t.nodes[i].parent;
    t.nodes[i].tokens - if p.Some? && p.value < i then t.nodes[p.value].tokens else 0
  }

  function OwnBelow(t: Tree, n: nat): int
    requires n <= |t.nodes|
  {
    if n == 0 then 0 else OwnBelow(t, n - 1) + OwnTokens(t, n - 1)
  }

  /** Every root-to-node count is within the branch limit, a child never counts less than its parent,
      and the nodes' own tokens add up to what the tree budget has spent. */
  ghost predicate Accounted(s: State) {
    && (forall i {:trigger CountOk(s.tree, s.budget.branchLimit, i)} :: 0 <= i < |s.tree.nodes| ==>
          CountOk(s.tree, s.budget.branchLimit, i))
    && OwnBelow(s.tree, |s.tree.nodes|) == s.budget.consumed
    && s.budget.consumed <= s.budget.totalLimit
  }

  ghost predicate CountOk(t: Tree, limit: nat, i: nat)
    requires i < |t.nodes|
  {
    && t.nodes[i].tokens <= limit
    && (t.nodes[i].parent.Some? && t.nodes[i].parent.value < i ==> t.nodes[t.nodes[i].parent.value].tokens <= t.nodes[i].tokens)
  }

  /** Old nodes keep their parent and their count; new ones start from their parent's count. */
  ghost predicate KeepsTokens(a: Tree, b: Tree) {
    && |a.nodes| <= |b.nodes|
    && (forall i :: 0 <= i < |a.nodes| ==> b.nodes[i].parent == a.nodes[i].parent && b.nodes[i].tokens == a.nodes[i].tokens)
    && (forall i :: |a.nodes| <= i < |b.nodes| ==> InheritsTokens(b, i))
  }

  /** A policy that leaves token counts, logprobs and values to the scheduler. */
  ghost predicate Honest(p: PolicyFn) {
    forall n: nat, h: PolicyCall, e: EngineEvent, t: GoodTree :: p(n, h, e, t).Ok? ==> KeepsCounts(t, AnswerTree(t, p(n, h, e, t).value))
  }

  lemma {:induction false} OwnBelowKept(a: Tree, b: Tree, n: nat)
    requires KeepsTokens(a, b) && n <= |b.nodes|
    ensures OwnBelow(b, n) == OwnBelow(a, if n <= |a.nodes| then n else |a.nodes|)
  {
    if n > 0 {
      OwnBelowKept(a, b, n - 1);
      if n > |a.nodes| { assert InheritsTokens(b, n - 1); }
    }
  }

  lemma {:induction false} CountsKept(a: Tree, b: Tree, limit: nat, n: nat)
    requires KeepsTokens(a, b) && n <= |b.nodes|
    requires forall i {:trigger CountOk(a, limit, i)} :: 0 <= i < |a.nodes| ==> CountOk(a, limit, i)
    ensures forall i {:trigger CountOk(b, limit, i)} :: 0 <= i < n ==> CountOk(b, limit, i)
  {
    if n > 0 {
      CountsKept(a, b, limit, n - 1);
      var i := n - 1;
      if i < |a.nodes| {
        assert CountOk(a, limit, i);
      } else {
        assert InheritsTokens(b, i);
        assert CountOk(b, limit, b.nodes[i].parent.value);
      }
    }
  }

  lemma KeepingTokensKeepsAccounts(s: State, r: State)
    requires Accounted(s) && KeepsTokens(s.tree, r.tree) && r.budget == s.budget
    ensures Accounted(r)
  {
    OwnBelowKept(s.tree, r.tree, |r.tree.nodes|);
    CountsKept(s.tree, r.tree, s.budget.branchLimit, |r.tree.nodes|);
  }

  lemma EndsKeepTokens(a: Tree, b: Tree)
    requires OnlyEnds(a, b)
    ensures KeepsTokens(a, b)
  {
  }

  lemma KeepsTokensThen(a: Tree, b: Tree, c: Tree)
    requires KeepsTokens(a, b) && KeepsTokens(b, c)
    ensures KeepsTokens(a, c)
  {
    forall i | |a.nodes| <= i < |b.nodes|
      ensures InheritsTokens(c, i)
    {
      assert InheritsTokens(b, i);
    }
  }

  lemma KeepsCountsKeepTokens(a: Tree, b: Tree)
    requires KeepsCounts(a, b)
    ensures KeepsTokens(a, b)
  {
    assert forall i {:trigger InheritsTokens(b, i)} :: |a.nodes| <= i < |b.nodes| ==> InheritsParent(b, i);
  }

  // ---------------------------------------------------------------------------
  // The parts of an event
  // ---------------------------------------------------------------------------

  lemma {:induction false} OwnBelowAfterToken(a: Tree, b: Tree, x: nat, n: nat)
    requires WellFormed(a) && a.ActiveAt(x) && n <= |a.nodes| == |b.nodes|
    requires forall i :: 0 <= i < |a.nodes| ==>
               b.nodes[i].parent == a.nodes[i].parent && b.nodes[i].tokens == a.nodes[i].tokens + if i == x then 1 else 0
    ensures OwnBelow(b, n) == OwnBelow(a, n) + if x < n then 1 else 0
  {
    if n > 0 {
      OwnBelowAfterToken(a, b, x, n - 1);
      assert NodeOk(a, n - 1) && NodeOk(a, x);
    }
  }

  /** One accepted token is one unit of the budget and one token on the branch. */
  lemma RecordSampleAccounted(c: Config, s: State, e: EngineEvent)
    requires WellFormed(s.tree) && Accounted(s) && e.TokenSampled? && RecordSample(c, s, e).Ok?
    ensures Accounted(RecordSample(c, s, e).value.0)
    ensures RecordSample(c, s, e).value.0.budget == s.budget.(consumed := s.budget.consumed + 1)
  {
    var r := RecordSample(c, s, e).value.0;
    OwnBelowAfterToken(s.tree, r.tree, e.branch, |s.tree.nodes|);
    forall i: nat | i < |r.tree.nodes|
      ensures CountOk(r.tree, r.budget.branchLimit, i)
    {
      assert CountOk(s.tree, s.budget.branchLimit, i) && NodeOk(s.tree, i) && NodeOk(s.tree, e.branch);
    }
  }

  lemma FinalizeAccounted(s: State, b: nat)
    requires WellFormed(s.tree) && Accounted(s) && FinalizeAndReclaim(s, b).Ok?
    ensures Accounted(FinalizeAndReclaim(s, b).value.s)
    ensures FinalizeAndReclaim(s, b).value.s.budget == s.budget
  {
    Lockstep.FinalizeAndReclaimSpec(s, b);
    EndsKeepTokens(s.tree, FinalizeAndReclaim(s, b).value.s.tree);
    KeepingTokensKeepsAccounts(s, FinalizeAndReclaim(s, b).value.s);
  }

  function SpentBy(e: EngineEvent): nat {
    if e.TokenSampled? then 1 else 0
  }

  lemma ApplyEventAccounted(c: Config, s: State, e: EngineEvent)
    requires WellFormed(s.tree) && Accounted(s) && ApplyEvent(c, s, e).Ok?
    ensures Accounted(ApplyEvent(c, s, e).value.s)
    ensures ApplyEvent(c, s, e).value.s.budget == s.budget.(consumed := s.budget.consumed + SpentBy(e))
  {
    match e {
      case TokenSampled(_, _, _, _, _) => ApplyTokenAccounted(c, s, e);
      case BranchExhausted(b) =>
        var s1 := RemoveQueuedContinue(s, b);
        FinalizeAccounted(s1.(pending := s1.pending - {b}, terminals := s1.terminals - {b},
                              adaptivePending := s1.adaptivePending - {b}), b);
      case ValueScored(score, b) => ApplyScoreAccounted(c, s, b, score);
    }
  }

  lemma ApplyTokenAccounted(c: Config, s: State, e: EngineEvent)
    requires WellFormed(s.tree) && Accounted(s) && e.TokenSampled? && ApplyToken(c, s, e).Ok?
    ensures Accounted(ApplyToken(c, s, e).value.s)
    ensures ApplyToken(c, s, e).value.s.budget == s.budget.(consumed := s.budget.consumed + 1)
  {
    RecordSampleAccounted(c, s, e);
    hide WellFormed, RecordSample, FinalizeAndReclaim;
    var s1 := RecordSample(c, s, e).value.0;
    var s2 := if c.scorer.None? && !e.eos && e.entropy.Some? && c.adaptive.Some?
      then s1.(adaptivePending := s1.adaptivePending + {e.branch}) else s1;
    if FinalizeAndReclaim(s2, e.branch).Ok? {
      FinalizeAccounted(s2, e.branch);
    }
  }

  lemma ApplyScoreAccounted(c: Config, s: State, b: nat, score: Float)
    requires WellFormed(s.tree) && Accounted(s) && ApplyScore(c, s, b, score).Ok?
    ensures Accounted(ApplyScore(c, s, b, score).value.s)
    ensures ApplyScore(c, s, b, score).value.s.budget == s.budget
  {
    var valued := RecordValue(s.tree, b, score).value;
    SameStructureWellFormed(s.tree, valued);
    var s1 := s.(tree := valued, pending := s.pending - {b}, terminals := s.terminals - {b});
    KeepingTokensKeepsAccounts(s, s1);
    hide WellFormed, FinalizeAndReclaim;
    if FinalizeAndReclaim(s1, b).Ok? {
      FinalizeAccounted(s1, b);
    }
  }

  /** An honest policy, with the adaptive fork before it, keeps every count. */
  lemma PolicyCommandsKeepCounts(c: Config, s: State, e: EngineEvent, followup: bool)
    requires WellFormed(s.tree) && ConfigOk(c) && Honest(c.policy)
    requires e.TokenSampled? && e.entropy.Some? ==> e.entropy.value.Finite?
    requires PolicyCommands(c, s, e, followup).Ok?
    ensures KeepsCounts(s.tree, PolicyCommands(c, s, e, followup).value.s.tree)
    ensures PolicyCommands(c, s, e, followup).value.s.budget == s.budget
  {
    if e.TokenSampled? && e.entropy.Some? && c.adaptive.Some? && AdaptiveWidth(c, s, e).value.Some? {
      var width := AdaptiveWidth(c, s, e).value.value;
      ForkHonours(s.tree, e.branch, width);
      var forked := Fork(s.tree, e.branch, width).value;
      var children := IdsFrom(|s.tree.nodes|, width);
      var answer := c.policy(s.calls, AfterAdaptiveFork(children), e, forked).value;
      assert KeepsCounts(forked, AnswerTree(forked, answer));
      KeepsCountsThen(s.tree, forked, AnswerTree(forked, answer));
    }
  }

  lemma PolicyPhaseKeepsTokens(c: Config, s: State, e: EngineEvent)
    requires WellFormed(s.tree) && ConfigOk(c) && Honest(c.policy)
    requires e.TokenSampled? && e.entropy.Some? ==> e.entropy.value.Finite?
    requires PolicyPhase(c, s, e).Ok?
    ensures KeepsTokens(s.tree, PolicyPhase(c, s, e).value.s.tree)
    ensures var r := PolicyPhase(c, s, e).value.s;
            && r.budget == s.budget
            && r.outstanding == s.outstanding
            && r.queue == s.queue
            && r.pending == s.pending
  {
    var s1 := if e.ValueScored? then s.(adaptivePending := s.adaptivePending - {e.branch}) else s;
    var followup := e.ValueScored? && e.branch in s.adaptivePending;
    PolicyCommandsKeepCounts(c, s1, e, followup);
    Lockstep.PolicyCommandsKeepQueue(c, s1, e, followup);
    var d := PolicyCommands(c, s1, e, followup).value;
    ValidatedTree(s.tree, d.s.tree, d.commands);
    ReclaimEachSpec(d.s.tree, TerminatedBy(d.commands));
    hide WellFormed, PolicyCommands, Replays, KeepsCounts;
    var up := ReclaimEach(d.s.tree, TerminatedBy(d.commands));
    KeepsCountsKeepTokens(s.tree, d.s.tree);
    EndsKeepTokens(d.s.tree, up.tree);
    KeepsTokensThen(s.tree, d.s.tree, up.tree);
  }

  lemma EndsAccounted(s: State, tree: Tree, r: State)
    requires Accounted(s) && OnlyEnds(s.tree, tree) && r.tree == tree && r.budget == s.budget
    ensures Accounted(r)
  {
    EndsKeepTokens(s.tree, tree);
    KeepingTokensKeepsAccounts(s, r);
  }

  lemma FinishEventAccounted(c: Config, ph: Phase, e: EngineEvent)
    requires WellFormed(ph.s.tree) && NoOrphans(ph.s.tree) && ConfigOk(c) && Honest(c.policy) && Accounted(ph.s)
    requires e.TokenSampled? && e.entropy.Some? ==> e.entropy.value.Finite?
    requires FinishEvent(c, ph, e).Ok?
    ensures Accounted(FinishEvent(c, ph, e).value)
    ensures FinishEvent(c, ph, e).value.budget == ph.s.budget
  {
    var r := FinishEvent(c, ph, e).value;
    if ph.exhausted {
      TerminateTreeSpec(ph.s.tree, TreeBudgetExhausted);
      var ended := TerminateTree(ph.s.tree, TreeBudgetExhausted).value;
      hide WellFormed, NoOrphans, Accounted, TerminateTree;
      var final := ph.s.(tree := ended.tree, pending := map[], terminals := map[], adaptivePending := {});
      EnqueueKeepsTree(final, ph.emitted + ended.commands);
      EndsAccounted(ph.s, ended.tree, r);
    } else if e.TokenSampled? && e.eos {
      EnqueueKeepsTree(RetainLive(ph.s), ph.emitted);
      KeepingTokensKeepsAccounts(ph.s, r);
    } else {
      FinishContinuingAccounted(c, ph, e);
    }
  }

  lemma FinishContinuingAccounted(c: Config, ph: Phase, e: EngineEvent)
    requires WellFormed(ph.s.tree) && NoOrphans(ph.s.tree) && ConfigOk(c) && Honest(c.policy) && Accounted(ph.s)
    requires e.TokenSampled? && e.entropy.Some? ==> e.entropy.value.Finite?
    requires !ph.exhausted && !(e.TokenSampled? && e.eos) && FinishEvent(c, ph, e).Ok?
    ensures Accounted(FinishEvent(c, ph, e).value)
    ensures FinishEvent(c, ph, e).value.budget == ph.s.budget
  {
    SpeculativePruneSpec(ph.s.tree, c.margin);
    var pruned := SpeculativePrune(ph.s.tree, c.margin).value;
    var s2 := RetainLive(ph.s).(tree := pruned.tree);
    hide WellFormed, NoOrphans, Accounted, PolicyPhase, SpeculativePrune;
    EndsAccounted(ph.s, pruned.tree, s2);
    if s2.terminals == map[] {
      PolicyPhaseKeepsTokens(c, s2, e);
      var d := PolicyPhase(c, s2, e).value;
      KeepingTokensKeepsAccounts(s2, d.s);
      EnqueueKeepsTree(RetainLive(d.s), ph.emitted + pruned.commands + d.commands);
      SameTreeAccounted(d.s, FinishEvent(c, ph, e).value);
    } else {
      EnqueueKeepsTree(RetainLive(s2), ph.emitted + pruned.commands + []);
      SameTreeAccounted(s2, FinishEvent(c, ph, e).value);
    }
  }

  lemma SameTreeAccounted(s: State, r: State)
    requires Accounted(s) && r.tree == s.tree && r.budget == s.budget
    ensures Accounted(r)
  {
  }

  /** An accepted event keeps the books, and spends one unit exactly when it carries a token. */
  lemma ProcessEventAccounted(c: Config, s: State, e: EngineEvent)
    requires WellFormed(s.tree) && NoOrphans(s.tree) && ConfigOk(c) && Honest(c.policy) && Accounted(s)
    requires ProcessEvent(c, s, e).Ok?
    ensures Accounted(ProcessEvent(c, s, e).value)
    ensures ProcessEvent(c, s, e).value.budget == s.budget.(consumed := s.budget.consumed + SpentBy(e))
  {
    Lockstep.ApplyEventInStep(c, s, e);
    ApplyEventAccounted(c, s, e);
    hide WellFormed, NoOrphans, Accounted, ApplyEvent, FinishEvent;
    FinishEventAccounted(c, ApplyEvent(c, s, e).value, e);
  }
}
