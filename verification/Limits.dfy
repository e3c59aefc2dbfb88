/** Reaching a budget limit ends what it limits: a branch at its limit is finalized, or waits to be, and a
    spent tree budget ends the tree, or waits to (scheduler/src/scheduler.rs). */
module Limits {
  import opened Common
  import opened Arena
  import opened Commands
  import opened CommandStream
  import opened Lifecycle
  import opened Termination
  import opened Policies
  import opened Scheduler
  import opened Accounts
  import opened Waiting
  import opened Runs
  import Lockstep

  /** Every active branch is below its limit, or its terminal is deferred. */
  ghost predicate Within(s: State) {
    forall b: nat :: s.tree.ActiveAt(b) ==> s.tree.nodes[b].tokens < s.budget.branchLimit || b in s.terminals
  }

  /** The end of the tree is deferred to the score of an active branch. */
  ghost predicate EndDeferred(s: State) {
    exists b :: b in s.terminals && s.terminals[b] == TreeTerminal && Deferred(s.tree, b)
  }

  ghost predicate Spent(s: State) {
    s.budget.consumed >= s.budget.totalLimit
  }

  /** A spent tree budget has ended the tree or is about to. */
  ghost predicate EndsWhenSpent(s: State) {
    Spent(s) ==> AllTerminal(s.tree) || EndDeferred(s)
  }

  /** The engine does not report a branch exhausted while the end of the tree hangs on that branch's score. */
  ghost predicate Gentle(s: State, e: EngineEvent) {
    e.BranchExhausted? && e.branch in s.terminals ==> s.terminals[e.branch] != TreeTerminal
  }

  // ---------------------------------------------------------------------------
  // What commands do to active branches
  // ---------------------------------------------------------------------------

  /** No command revives a branch, and only active branches get children. */
  lemma {:induction false} ReplayGrowsFromActive(t: Tree, commands: seq<Command>)
    requires WellFormed(t) && Replay(t, commands).Ok?
    ensures var r := Replay(t, commands).value;
            && |t.nodes| <= |r.nodes|
            && (forall i: nat :: i < |t.nodes| && r.ActiveAt(i) ==> t.ActiveAt(i))
            && (forall i: nat :: |t.nodes| <= i < |r.nodes| ==> NewFrom(t, r.nodes[i].parent))
    decreases |commands|
  {
    if commands != [] {
      var next := Apply(t, commands[0]).value;
      ApplyKeepsWellFormed(t, commands[0]);
      ApplyKeepsCap(t, commands[0]);
      ApplyGrowsFromActive(t, commands[0]);
      ReplayGrowsFromActive(next, commands[1..]);
      var r := Replay(t, commands).value;
      forall i: nat | |t.nodes| <= i < |r.nodes|
        ensures NewFrom(t, r.nodes[i].parent)
      {
        if i < |next.nodes| { ParentsStay(next, commands[1..], i); }
      }
    }
  }

  ghost predicate NewFrom(t: Tree, parent: Option<nat>) {
    parent.Some? && (parent.value < |t.nodes| ==> t.ActiveAt(parent.value))
  }

  lemma ApplyGrowsFromActive(t: Tree, c: Command)
    requires WellFormed(t) && Apply(t, c).Ok?
    ensures var r := Apply(t, c).value;
            && (forall i: nat :: i < |t.nodes| && r.ActiveAt(i) ==> t.ActiveAt(i))
            && (forall i: nat :: |t.nodes| <= i < |r.nodes| ==> NewFrom(t, r.nodes[i].parent))
  {
    var r := Apply(t, c).value;
    if c.ForkAt? {
      assert NodeOk(t, c.branch);
      forall i: nat | |t.nodes| <= i < |r.nodes|
        ensures NewFrom(t, r.nodes[i].parent)
      {
        assert r.nodes[i] == ChildOf(t.nodes[c.branch], i);
      }
    }
  }

  /** Nodes that grow out of branches below the limit stay below it. */
  lemma {:induction false} NewBelowLimit(t: Tree, r: Tree, limit: nat, i: nat)
    requires KeepsTokens(t, r) && |t.nodes| <= i < |r.nodes| && NewFrom(t, r.nodes[i].parent)
    requires forall x: nat :: |t.nodes| <= x < |r.nodes| ==> NewFrom(t, r.nodes[x].parent)
    requires forall b: nat :: t.ActiveAt(b) ==> t.nodes[b].tokens < limit
    ensures r.nodes[i].tokens < limit
    decreases i
  {
    assert InheritsTokens(r, i);
    var p := r.nodes[i].parent.value;
    if p >= |t.nodes| { NewBelowLimit(t, r, limit, p); }
  }

  lemma PolicyStaysBelow(c: Config, s: State, e: EngineEvent)
    requires WellFormed(s.tree) && NoOrphans(s.tree) && ConfigOk(c) && Honest(c.policy)
    requires e.TokenSampled? && e.entropy.Some? ==> e.entropy.value.Finite?
    requires PolicyPhase(c, s, e).Ok? && forall b: nat :: s.tree.ActiveAt(b) ==> s.tree.nodes[b].tokens < s.budget.branchLimit
    ensures var r := PolicyPhase(c, s, e).value.s;
            forall b: nat :: r.tree.ActiveAt(b) ==> r.tree.nodes[b].tokens < s.budget.branchLimit
  {
    hide WellFormed, NoOrphans, PolicyPhase, Honest;
    PolicyPhaseKeepsTokens(c, s, e);
    Lockstep.PolicyPhaseInStep(c, s, e);
    var d := PolicyPhase(c, s, e).value;
    ReplayGrowsFromActive(s.tree, d.commands);
    GrownBelow(s.tree, Replay(s.tree, d.commands).value, d.s.tree, s.budget.branchLimit);
  }

  lemma GrownBelow(t: Tree, replayed: Tree, r: Tree, limit: nat)
    requires SameStructure(replayed, r) && KeepsTokens(t, r)
    requires forall i: nat :: i < |t.nodes| && replayed.ActiveAt(i) ==> t.ActiveAt(i)
    requires forall i: nat :: |t.nodes| <= i < |replayed.nodes| ==> NewFrom(t, replayed.nodes[i].parent)
    requires forall b: nat :: t.ActiveAt(b) ==> t.nodes[b].tokens < limit
    ensures forall b: nat :: r.ActiveAt(b) ==> r.nodes[b].tokens < limit
  {
    forall i: nat | |t.nodes| <= i < |r.nodes|
      ensures NewFrom(t, r.nodes[i].parent)
    {
      assert SameShape(replayed.nodes[i], r.nodes[i]);
    }
    forall b: nat | r.ActiveAt(b)
      ensures r.nodes[b].tokens < limit
    {
      assert SameShape(replayed.nodes[b], r.nodes[b]);
      if b >= |t.nodes| { NewBelowLimit(t, r, limit, b); }
    }
  }

  // ---------------------------------------------------------------------------
  // The first half of an event
  // ---------------------------------------------------------------------------

  lemma FinalizeKeepsOthers(s: State, b: nat)
    requires WellFormed(s.tree) && FinalizeAndReclaim(s, b).Ok?
    ensures var r := FinalizeAndReclaim(s, b).value.s;
            && r == s.(tree := r.tree) && OnlyEnds(s.tree, r.tree)
            && !FinalizeAndReclaim(s, b).value.exhausted
            && (forall i: nat :: r.tree.ActiveAt(i) <==> s.tree.ActiveAt(i) && i != b)
  {
    Lockstep.FinalizeAndReclaimSpec(s, b);
    var done := Finalize(s.tree, b).value;
    FinalizeKeepsWellFormed(s.tree, b);
    ReclaimSpec(done, b);
  }

  /** Finalizing b settles b; whoever else was active or deferred still is. */
  lemma FinalizeSettles(s: State, b: nat)
    requires WellFormed(s.tree) && FinalizeAndReclaim(s, b).Ok?
    requires forall x: nat :: s.tree.ActiveAt(x) && x != b ==> s.tree.nodes[x].tokens < s.budget.branchLimit || x in s.terminals
    ensures Within(FinalizeAndReclaim(s, b).value.s)
    ensures (exists x :: x != b && x in s.terminals && s.terminals[x] == TreeTerminal && Deferred(s.tree, x)) ==>
              EndDeferred(FinalizeAndReclaim(s, b).value.s)
  {
    hide WellFormed;
    FinalizeKeepsOthers(s, b);
    var r := FinalizeAndReclaim(s, b).value.s;
    forall x | x != b && x in s.terminals && s.terminals[x] == TreeTerminal && Deferred(s.tree, x)
      ensures EndDeferred(r)
    {
      assert Deferred(r.tree, x);
    }
  }

  /** The phase between the halves: the tree is to end, or the limits are respected already. */
  ghost predicate PhaseWithin(ph: Phase) {
    ph.exhausted || Within(ph.s)
  }

  ghost predicate PhaseEnds(ph: Phase) {
    Spent(ph.s) ==> ph.exhausted || EndDeferred(ph.s)
  }

  lemma ApplyTokenLimits(c: Config, s: State, e: EngineEvent)
    requires WellFormed(s.tree) && Within(s) && e.TokenSampled? && ApplyToken(c, s, e).Ok?
    ensures PhaseWithin(ApplyToken(c, s, e).value) && PhaseEnds(ApplyToken(c, s, e).value)
  {
    hide WellFormed, FinalizeAndReclaim;
    SampledLimits(c, s, e);
    var b, external := e.branch, c.scorer.None? && !e.eos;
    var (s1, outcome) := RecordSample(c, s, e).value;
    var s2 := if external && e.entropy.Some? && c.adaptive.Some?
      then s1.(adaptivePending := s1.adaptivePending + {b}) else s1;
    hide RecordSample;
    if FinalizeAndReclaim(s2, b).Ok? {
      FinalizeSettles(s2, b);
      FinalizeKeepsOthers(s2, b);
    }
    if external {
      assert EndDeferred(s2.(terminals := s2.terminals[b := TreeTerminal])) by {
        assert Deferred(s2.tree, b);
      }
    }
  }

  /** What recording a token says about the limits. */
  lemma SampledLimits(c: Config, s: State, e: EngineEvent)
    requires WellFormed(s.tree) && Within(s) && e.TokenSampled? && RecordSample(c, s, e).Ok?
    ensures var (r, outcome) := RecordSample(c, s, e).value;
            && WellFormed(r.tree)
            && r.tree.ActiveAt(e.branch)
            && (outcome.treeExhausted <==> Spent(r))
            && (!outcome.branchExhausted ==> r.tree.nodes[e.branch].tokens < r.budget.branchLimit)
            && (c.scorer.None? && !e.eos ==> Deferred(r.tree, e.branch))
            && forall x: nat :: r.tree.ActiveAt(x) && x != e.branch ==>
                 r.tree.nodes[x].tokens < r.budget.branchLimit || x in r.terminals
  {
    hide DropContinue;
  }

  lemma ApplyExhaustedLimits(s: State, b: nat)
    requires WellFormed(s.tree) && Within(s) && ApplyExhausted(s, b).Ok?
    ensures PhaseWithin(ApplyExhausted(s, b).value)
    ensures (Spent(s) ==> EndDeferred(s)) && Gentle(s, BranchExhausted(b)) ==> PhaseEnds(ApplyExhausted(s, b).value)
  {
    hide WellFormed, FinalizeAndReclaim;
    var s1 := RemoveQueuedContinue(s, b);
    var s2 := s1.(pending := s1.pending - {b}, terminals := s1.terminals - {b}, adaptivePending := s1.adaptivePending - {b});
    FinalizeSettles(s2, b);
    FinalizeKeepsOthers(s2, b);
    if EndDeferred(s) && Gentle(s, BranchExhausted(b)) {
      var x :| x in s.terminals && s.terminals[x] == TreeTerminal && Deferred(s.tree, x);
      assert x != b && x in s2.terminals && s2.terminals[x] == TreeTerminal && Deferred(s2.tree, x);
    }
  }

  lemma ApplyScoreLimits(c: Config, s: State, b: nat, score: Float)
    requires WellFormed(s.tree) && Within(s) && ApplyScore(c, s, b, score).Ok?
    ensures PhaseWithin(ApplyScore(c, s, b, score).value)
    ensures (Spent(s) ==> EndDeferred(s)) ==> PhaseEnds(ApplyScore(c, s, b, score).value)
  {
    hide WellFormed, FinalizeAndReclaim;
    var valued := RecordValue(s.tree, b, score).value;
    SameStructureWellFormed(s.tree, valued);
    var s1 := s.(tree := valued, pending := s.pending - {b}, terminals := s.terminals - {b});
    if FinalizeAndReclaim(s1, b).Ok? {
      FinalizeSettles(s1, b);
      FinalizeKeepsOthers(s1, b);
    }
    if EndDeferred(s) {
      var x :| x in s.terminals && s.terminals[x] == TreeTerminal && Deferred(s.tree, x);
      assert x != b ==> x in s1.terminals && s1.terminals[x] == TreeTerminal && Deferred(s1.tree, x);
    }
  }

  lemma ApplyEventLimits(c: Config, s: State, e: EngineEvent)
    requires WellFormed(s.tree) && Within(s) && CheckEvent(c, s, e).Ok? && ApplyEvent(c, s, e).Ok?
    ensures PhaseWithin(ApplyEvent(c, s, e).value)
    ensures EndsWhenSpent(s) && Gentle(s, e) ==> PhaseEnds(ApplyEvent(c, s, e).value)
  {
    hide WellFormed, ApplyToken, ApplyScore, ApplyExhausted, PhaseWithin, PhaseEnds, Within, EndDeferred;
    AcceptedMeansLive(c, s, e);
    match e {
      case TokenSampled(_, _, _, _, _) => ApplyTokenLimits(c, s, e);
      case BranchExhausted(b) => ApplyExhaustedLimits(s, b);
      case ValueScored(score, b) => ApplyScoreLimits(c, s, b, score);
    }
  }

  lemma AcceptedMeansLive(c: Config, s: State, e: EngineEvent)
    requires CheckEvent(c, s, e).Ok?
    ensures !AllTerminal(s.tree)
  {
    assert s.tree.LiveAt(e.branch) && !s.tree.TerminalAt(e.branch);
  }

  // ---------------------------------------------------------------------------
  // The second half
  // ---------------------------------------------------------------------------

  lemma RetainKeepsLimits(s: State)
    ensures Within(s) ==> Within(RetainLive(s))
    ensures EndDeferred(s) ==> EndDeferred(RetainLive(s))
  {
    if EndDeferred(s) {
      var x :| x in s.terminals && s.terminals[x] == TreeTerminal && Deferred(s.tree, x);
      assert x in RetainLive(s).terminals && RetainLive(s).terminals[x] == TreeTerminal;
    }
  }

  lemma QueueKeepsLimits(s: State, r: State)
    requires r == s.(queue := r.queue, outstanding := r.outstanding)
    ensures Within(s) ==> Within(r)
    ensures EndDeferred(s) ==> EndDeferred(r)
    ensures EndsWhenSpent(s) ==> EndsWhenSpent(r)
  {
  }

  lemma EndedWithinLimits(s: State)
    requires AllTerminal(s.tree)
    ensures Within(s) && EndsWhenSpent(s)
  {
    forall b: nat
      ensures !s.tree.ActiveAt(b)
    {
      if b < |s.tree.nodes| { assert s.tree.TerminalAt(b); }
    }
  }

  /** A speculative prune only takes scored branches, so a deferred end stays deferred. */
  lemma PruneKeepsLimits(c: Config, s: State, pruned: Effect)
    requires WellFormed(s.tree) && NoOrphans(s.tree) && ConfigOk(c) && SpeculativePrune(s.tree, c.margin) == Ok(pruned)
    ensures Within(s) ==> Within(s.(tree := pruned.tree))
    ensures EndDeferred(s) ==> EndDeferred(s.(tree := pruned.tree))
  {
    hide WellFormed, NoOrphans, SpeculativePrune;
    SpeculativePruneSpec(s.tree, c.margin);
    if EndDeferred(s) {
      var x :| x in s.terminals && s.terminals[x] == TreeTerminal && Deferred(s.tree, x);
      assert Deferred(pruned.tree, x);
    }
  }

  lemma FinishEventLimits(c: Config, ph: Phase, e: EngineEvent)
    requires WellFormed(ph.s.tree) && NoOrphans(ph.s.tree) && ConfigOk(c) && Honest(c.policy)
    requires e.TokenSampled? && e.entropy.Some? ==> e.entropy.value.Finite?
    requires FinishEvent(c, ph, e).Ok? && PhaseWithin(ph)
    ensures Within(FinishEvent(c, ph, e).value)
    ensures PhaseEnds(ph) ==> EndsWhenSpent(FinishEvent(c, ph, e).value)
  {
    hide WellFormed, NoOrphans, Within, EndDeferred, EndsWhenSpent, TerminateTree, SpeculativePrune, PolicyPhase, AllTerminal;
    if ph.exhausted {
      TerminateTreeSpec(ph.s.tree, TreeBudgetExhausted);
      var ended := TerminateTree(ph.s.tree, TreeBudgetExhausted).value;
      var final := ph.s.(tree := ended.tree, pending := map[], terminals := map[], adaptivePending := {});
      EnqueueKeepsTree(final, ph.emitted + ended.commands);
      EndedWithinLimits(FinishEvent(c, ph, e).value);
    } else if e.TokenSampled? && e.eos {
      RetainKeepsLimits(ph.s);
      EnqueueKeepsTree(RetainLive(ph.s), ph.emitted);
      QueueKeepsLimits(RetainLive(ph.s), FinishEvent(c, ph, e).value);
      if PhaseEnds(ph) {
        DeferredEnds(ph.s, FinishEvent(c, ph, e).value);
      }
    } else {
      FinishContinuingLimits(c, ph, e);
    }
  }

  lemma DeferredEnds(s: State, r: State)
    requires r.budget == s.budget && (Spent(s) ==> EndDeferred(r))
    ensures EndsWhenSpent(r)
  {
  }

  lemma FinishContinuingLimits(c: Config, ph: Phase, e: EngineEvent)
    requires WellFormed(ph.s.tree) && NoOrphans(ph.s.tree) && ConfigOk(c) && Honest(c.policy)
    requires e.TokenSampled? && e.entropy.Some? ==> e.entropy.value.Finite?
    requires !ph.exhausted && !(e.TokenSampled? && e.eos) && FinishEvent(c, ph, e).Ok? && Within(ph.s)
    ensures Within(FinishEvent(c, ph, e).value)
    ensures PhaseEnds(ph) ==> EndsWhenSpent(FinishEvent(c, ph, e).value)
  {
    hide WellFormed, NoOrphans, Within, EndDeferred, EndsWhenSpent, SpeculativePrune, PolicyPhase, FinishEvent, Honest, Enqueue;
    var pruned, d := FinishContinuingForm(c, ph, e);
    var s2 := RetainLive(ph.s).(tree := pruned.tree);
    RetainKeepsLimits(ph.s);
    PruneKeepsLimits(c, RetainLive(ph.s), pruned);
    SpeculativePruneSpec(ph.s.tree, c.margin);
    var r := FinishEvent(c, ph, e).value;
    EnqueueKeepsTree(RetainLive(d.s), ph.emitted + pruned.commands + d.commands);
    if s2.terminals == map[] {
      PolicyKeepsLimits(c, s2, e);
      RetainKeepsLimits(d.s);
      QueueKeepsLimits(RetainLive(d.s), r);
      NotDeferred(s2);
      if PhaseEnds(ph) {
        DeferredEnds(ph.s, r);
      }
    } else {
      RetainKeepsLimits(s2);
      QueueKeepsLimits(RetainLive(s2), r);
      if PhaseEnds(ph) {
        DeferredEnds(ph.s, r);
      }
    }
  }

  lemma NotDeferred(s: State)
    requires s.terminals == map[]
    ensures !EndDeferred(s)
  {
  }

  lemma PolicyKeepsLimits(c: Config, s: State, e: EngineEvent)
    requires WellFormed(s.tree) && NoOrphans(s.tree) && ConfigOk(c) && Honest(c.policy)
    requires e.TokenSampled? && e.entropy.Some? ==> e.entropy.value.Finite?
    requires PolicyPhase(c, s, e).Ok? && s.terminals == map[] && Within(s)
    ensures Within(PolicyPhase(c, s, e).value.s) && PolicyPhase(c, s, e).value.s.budget == s.budget
  {
    hide WellFormed, NoOrphans, PolicyPhase, Honest;
    PolicyStaysBelow(c, s, e);
    PolicyPhaseKeepsTokens(c, s, e);
  }

  // ---------------------------------------------------------------------------
  // Whole events and runs
  // ---------------------------------------------------------------------------

  lemma ProcessEventLimits(c: Config, s: State, e: EngineEvent)
    requires WellFormed(s.tree) && NoOrphans(s.tree) && ConfigOk(c) && Honest(c.policy)
    requires Within(s) && ProcessEvent(c, s, e).Ok?
    ensures Within(ProcessEvent(c, s, e).value)
    ensures EndsWhenSpent(s) && Gentle(s, e) ==> EndsWhenSpent(ProcessEvent(c, s, e).value)
  {
    hide WellFormed, NoOrphans, Within, EndsWhenSpent, Gentle, ApplyEvent, FinishEvent, PhaseWithin, PhaseEnds;
    Lockstep.ApplyEventInStep(c, s, e);
    ApplyEventLimits(c, s, e);
    FinishEventLimits(c, ApplyEvent(c, s, e).value, e);
  }

  lemma {:induction false} ResolveEachLimits(root: Tree, polled: seq<Command>, c: Config, s: State, expired: seq<nat>)
    requires Lockstep.StepsTo(root, polled, s) && ConfigOk(c) && Honest(c.policy) && Within(s) && ResolveEach(c, s, expired).Ok?
    ensures Within(ResolveEach(c, s, expired).value)
    ensures EndsWhenSpent(s) ==> EndsWhenSpent(ResolveEach(c, s, expired).value)
    decreases |expired|
  {
    if expired != [] {
      hide ProcessEvent, WellFormed, NoOrphans, Within, EndsWhenSpent, Honest, Replays;
      if expired[0] !in s.pending {
        ResolveEachLimits(root, polled, c, s, expired[1..]);
      } else {
        var e := ValueScored(Finite(s.tree.nodes[expired[0]].logprob), expired[0]);
        ProcessEventLimits(c, s, e);
        Lockstep.ProcessEventInStep(root, polled, c, s, e);
        ResolveEachLimits(root, polled, c, ProcessEvent(c, s, e).value, expired[1..]);
      }
    }
  }

  lemma FeedEventLimits(root: Tree, polled: seq<Command>, c: Config, s: State, e: EngineEvent)
    requires Lockstep.StepsTo(root, polled, s) && ConfigOk(c) && Honest(c.policy) && Within(s) && FeedEvent(c, s, e).Ok?
    ensures Within(FeedEvent(c, s, e).value)
    ensures EndsWhenSpent(s) && Gentle(s, e) ==> EndsWhenSpent(FeedEvent(c, s, e).value)
  {
    hide Lockstep.StepsTo, Within, EndsWhenSpent, Gentle, Honest, ProcessEvent, FeedEvent, ResolveEach, ExpiredBelow, NoOrphans;
    Lockstep.StepsToFacts(root, polled, s);
    Lockstep.StepsToNoOrphans(root, polled, s);
    FeedEventForm(c, s, e);
    ProcessEventLimits(c, s, e);
    Lockstep.ProcessEventInStep(root, polled, c, s, e);
    var next := ProcessEvent(c, s, e).value;
    Lockstep.StepsToFacts(root, polled, next);
    var counted := next.(accepted := s.accepted + 1);
    CountedStepsTo(root, polled, next, counted);
    SameLimits(next, counted);
    ResolveEachLimits(root, polled, c, counted, ExpiredBelow(counted, |counted.tree.nodes|));
  }

  lemma SameLimits(s: State, r: State)
    requires r.tree == s.tree && r.budget == s.budget && r.terminals == s.terminals
    ensures Within(s) ==> Within(r)
    ensures EndsWhenSpent(s) ==> EndsWhenSpent(r)
  {
  }

  lemma StepLimits(c: Config, rollback: bool, r: Run, op: Op)
    requires RunInvariant(c, r) && ConfigOk(c) && Honest(c.policy) && Within(r.s) && Step(c, rollback, r, op).Ok?
    ensures Within(Step(c, rollback, r, op).value.s)
    ensures EndsWhenSpent(r.s) && (op.Feed? ==> Gentle(r.s, op.event)) ==> EndsWhenSpent(Step(c, rollback, r, op).value.s)
  {
    var root := FreshTree(r.s.tree.cap);
    hide FeedEvent, Drain, Waits, Accounted, Honest, WellFormed, NoOrphans, Replays, Within, EndsWhenSpent, Gentle;
    match op {
      case PollCommands => SameLimits(r.s, Poll(r).s);
      case DrainTree =>
        DrainKeepsInvariant(c, r);
        EndedWithinLimits(Drain(r.s).value);
      case Feed(e, calls) =>
        if FeedEvent(c, r.s, e).Ok? {
          FeedEventLimits(root, r.polled, c, r.s, e);
        } else {
          SameLimits(r.s, r.s.(calls := calls));
        }
    }
  }

  /** Over every run, each active branch is below its limit or awaits the score that will end it. */
  lemma {:induction false} EveryRunStaysWithin(c: Config, rollback: bool, r: Run, ops: seq<Op>)
    requires RunInvariant(c, r) && ConfigOk(c) && Honest(c.policy) && Within(r.s) && Execute(c, rollback, r, ops).Ok?
    ensures Within(Execute(c, rollback, r, ops).value.s)
    decreases |ops|
  {
    if ops != [] {
      StepKeepsInvariant(c, rollback, r, ops[0]);
      StepLimits(c, rollback, r, ops[0]);
      hide RunInvariant, Step, Within, Honest;
      EveryRunStaysWithin(c, rollback, Step(c, rollback, r, ops[0]).value, ops[1..]);
    }
  }

  /** With a scorer of its own the scheduler defers nothing: a spent budget has ended the tree. */
  lemma OwnScorerEnds(c: Config, r: Run)
    requires RunInvariant(c, r) && c.scorer.Some? && EndsWhenSpent(r.s) && Spent(r.s)
    ensures AllTerminal(r.s.tree)
  {
    hide Replays, WellFormed, NoOrphans, Accounted, Honest;
  }

  lemma StartWithinLimits(c: Config, totalLimit: nat, branchLimit: nat, cap: nat)
    requires totalLimit > 0 && branchLimit > 0 && cap > 0
    ensures Within(Start(totalLimit, branchLimit, cap).s) && EndsWhenSpent(Start(totalLimit, branchLimit, cap).s)
  {
  }
}
