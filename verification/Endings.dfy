/** Exactly when the end of a spent tree is kept, and when it is forgotten (scheduler/src/scheduler.rs). */
module Endings {
  import opened Common
  import opened Arena
  import opened Commands
  import opened CommandStream
  import opened Lifecycle
  import opened Termination
  import opened Policies
  import opened Scheduler
  import opened Accounts
  import opened Waiting
  import opened Runs
  import opened Limits
  import opened Mcts
  import opened Frontier
  import BuiltIns
  import Lockstep

  /** Only a spent budget defers the end of the tree, and only to one branch. */
  ghost predicate OneEnd(s: State) {
    && (forall b :: b in s.terminals && s.terminals[b] == TreeTerminal ==> Spent(s))
    && (forall b, x :: b in s.terminals && x in s.terminals && s.terminals[b] == TreeTerminal == s.terminals[x] ==> b == x)
  }

  ghost predicate NoEnd(s: State) {
    forall b :: b in s.terminals ==> s.terminals[b] != TreeTerminal
  }

  /** The branch's own deferred terminal is carried out once `count` events are accepted, if not before. */
  predicate Falls(s: State, count: nat, b: nat) {
    b in s.terminals && b in s.pending && s.pending[b] <= count
  }

  /** Some active branch has no terminal to fall to by then. */
  ghost predicate Outlives(s: State, count: nat) {
    exists x: nat :: s.tree.ActiveAt(x) && !Falls(s, count, x)
  }

  /** Some active branch other than b has none. */
  ghost predicate OutlivedBy(s: State, count: nat, b: nat) {
    exists x: nat :: x != b && s.tree.ActiveAt(x) && !Falls(s, count, x)
  }

  /** The event ends the one branch that the end of the tree waits for, while another active branch stays. */
  ghost predicate Forgets(s: State, e: EngineEvent) {
    && e.BranchExhausted?
    && e.branch in s.terminals
    && s.terminals[e.branch] == TreeTerminal
    && OutlivedBy(s, s.accepted + 1, e.branch)
  }

  // ---------------------------------------------------------------------------
  // At most one end
  // ---------------------------------------------------------------------------

  lemma LessKeepsOneEnd(s: State, r: State)
    requires WaitsLess(s, r) && r.budget == s.budget
    ensures OneEnd(s) ==> OneEnd(r)
    ensures NoEnd(s) ==> NoEnd(r)
  {
  }

  lemma ApplyTokenOneEnd(c: Config, s: State, e: EngineEvent)
    requires WellFormed(s.tree) && OneEnd(s) && e.TokenSampled? && ApplyToken(c, s, e).Ok?
    ensures OneEnd(ApplyToken(c, s, e).value.s)
  {
    SampledHadBudget(c, s, e);
    hide WellFormed, RecordSample, FinalizeAndReclaim, OneEnd, NoEnd, Spent;
    var (s1, outcome) := RecordSample(c, s, e).value;
    var s2 := if c.scorer.None? && !e.eos && e.entropy.Some? && c.adaptive.Some?
      then s1.(adaptivePending := s1.adaptivePending + {e.branch}) else s1;
    UnspentHasNoEnd(s, s2);
    if outcome.treeExhausted { DeferredOneEnd(s2, e.branch, TreeTerminal); }
    DeferredOneEnd(s2, e.branch, BranchTerminal);
    if FinalizeAndReclaim(s2, e.branch).Ok? {
      Lockstep.FinalizeAndReclaimSpec(s2, e.branch);
      SameEnds(s2, FinalizeAndReclaim(s2, e.branch).value.s);
    }
  }

  lemma UnspentHasNoEnd(s: State, r: State)
    requires OneEnd(s) && !Spent(s) && r.terminals == s.terminals
    ensures NoEnd(r) && OneEnd(r)
  {
  }

  lemma DeferredOneEnd(s: State, b: nat, terminal: PendingBudgetTerminal)
    requires NoEnd(s) && (terminal == TreeTerminal ==> Spent(s))
    ensures OneEnd(s.(terminals := s.terminals[b := terminal]))
  {
  }

  /** A token is only recorded on a budget that is not spent yet. */
  lemma SampledHadBudget(c: Config, s: State, e: EngineEvent)
    requires WellFormed(s.tree) && e.TokenSampled? && RecordSample(c, s, e).Ok?
    ensures var (r, outcome) := RecordSample(c, s, e).value;
            WellFormed(r.tree) && !Spent(s) && r.terminals == s.terminals && (outcome.treeExhausted <==> Spent(r))
  {
    hide DropContinue;
  }

  lemma ProcessOneEnd(c: Config, s: State, e: EngineEvent)
    requires WellFormed(s.tree) && NoOrphans(s.tree) && ConfigOk(c) && Honest(c.policy) && Accounted(s) && OneEnd(s)
    requires Waits(c, s, s.accepted, s.accepted + c.maxPendingEvents) && ProcessEvent(c, s, e).Ok?
    ensures OneEnd(ProcessEvent(c, s, e).value)
  {
    hide WellFormed, NoOrphans, Accounted, Honest, OneEnd, ApplyToken, FinishEvent, MayWait, Waits, WaitsLess;
    ProcessEventAccounted(c, s, e);
    if e.TokenSampled? {
      var ph := ApplyToken(c, s, e).value;
      Lockstep.ApplyEventInStep(c, s, e);
      ApplyTokenWaits(c, s, e, s.accepted + c.maxPendingEvents);
      ApplyTokenOneEnd(c, s, e);
      ApplyEventAccounted(c, s, e);
      FinishEventWaits(c, ph, e, s.accepted, s.accepted + 1 + c.maxPendingEvents);
      FinishEventAccounted(c, ph, e);
      LessKeepsOneEnd(ph.s, ProcessEvent(c, s, e).value);
    } else {
      ProcessOtherWaits(c, s, e, s.accepted, s.accepted + c.maxPendingEvents);
      LessKeepsOneEnd(s, ProcessEvent(c, s, e).value);
    }
  }

  /** Everything an accepted event leaves that is known of a run's states. */
  ghost predicate Sound(root: Tree, polled: seq<Command>, c: Config, s: State) {
    && Lockstep.StepsTo(root, polled, s)
    && Waits(c, s, s.accepted, s.accepted + c.maxPendingEvents)
    && Accounted(s)
  }

  lemma FeedOneEnd(root: Tree, polled: seq<Command>, c: Config, s: State, e: EngineEvent)
    requires Sound(root, polled, c, s) && ConfigOk(c) && Honest(c.policy) && OneEnd(s) && FeedEvent(c, s, e).Ok?
    ensures OneEnd(FeedEvent(c, s, e).value)
  {
    hide Lockstep.StepsTo, Waits, Accounted, Honest, OneEnd, ProcessEvent, FeedEvent, ResolveEach, ExpiredBelow, NoOrphans;
    Lockstep.StepsToFacts(root, polled, s);
    Lockstep.StepsToNoOrphans(root, polled, s);
    FeedEventForm(c, s, e);
    ProcessOneEnd(c, s, e);
    ProcessEventAccounted(c, s, e);
    ProcessStepWaits(root, polled, c, s, e);
    var next := ProcessEvent(c, s, e).value;
    Lockstep.StepsToFacts(root, polled, next);
    var counted := next.(accepted := s.accepted + 1);
    var expired := ExpiredBelow(counted, |counted.tree.nodes|);
    var until := s.accepted + 1 + c.maxPendingEvents;
    CountedWaits(root, polled, c, next, counted, s.accepted, until);
    SameTreeAccounted(next, counted);
    SameEnds(next, counted);
    ResolveEachWaits(root, polled, c, counted, expired, s.accepted, until);
    ResolveEachAccounted(root, polled, c, counted, expired);
    LessKeepsOneEnd(counted, ResolveEach(c, counted, expired).value);
  }

  lemma SameEnds(s: State, r: State)
    requires r.terminals == s.terminals && r.budget == s.budget
    ensures OneEnd(s) ==> OneEnd(r)
    ensures NoEnd(s) ==> NoEnd(r)
  {
  }

  // ---------------------------------------------------------------------------
  // Who outlives an event
  // ---------------------------------------------------------------------------

  /** The first half: the exhausted branch is gone, an answered one only if its own terminal was due. */
  lemma ExhaustedOutlives(s: State, b: nat, count: nat)
    requires WellFormed(s.tree) && ApplyExhausted(s, b).Ok?
    ensures var ph := ApplyExhausted(s, b).value;
            && !ph.exhausted
            && (Outlives(ph.s, count) <==> OutlivedBy(s, count, b))
  {
    hide WellFormed, FinalizeAndReclaim, Falls;
    var s1 := RemoveQueuedContinue(s, b);
    var s2 := s1.(pending := s1.pending - {b}, terminals := s1.terminals - {b}, adaptivePending := s1.adaptivePending - {b});
    FinalizeKeepsOthers(s2, b);
    var r := FinalizeAndReclaim(s2, b).value.s;
    forall x: nat | x != b
      ensures Falls(r, count, x) <==> Falls(s, count, x)
      ensures r.tree.ActiveAt(x) <==> s.tree.ActiveAt(x)
    {
      FallsAlike(s, r, count, x);
    }
    if Outlives(r, count) {
      var x: nat :| r.tree.ActiveAt(x) && !Falls(r, count, x);
      assert x != b;
    }
  }

  lemma FallsAlike(s: State, r: State, count: nat, x: nat)
    requires x in r.terminals <==> x in s.terminals
    requires x in r.pending <==> x in s.pending
    requires x in r.pending && x in s.pending ==> r.pending[x] == s.pending[x]
    ensures Falls(r, count, x) <==> Falls(s, count, x)
  {
  }

  lemma ScoreOutlives(c: Config, s: State, b: nat, score: Float, count: nat)
    requires WellFormed(s.tree) && NoEnd(s) && ApplyScore(c, s, b, score).Ok?
    requires s.pending[b] <= count
    ensures var ph := ApplyScore(c, s, b, score).value;
            !ph.exhausted && (Outlives(ph.s, count) <==> Outlives(s, count))
  {
    hide WellFormed, FinalizeAndReclaim, Falls, RecordValue;
    var valued := RecordValue(s.tree, b, score).value;
    ValuedFrontier(s.tree, b, score);
    var s1 := s.(tree := valued, pending := s.pending - {b}, terminals := s.terminals - {b});
    var r := ApplyScore(c, s, b, score).value.s;
    if b in s.terminals {
      FinalizeKeepsOthers(s1, b);
      DueFalls(s, count, b);
    } else {
      DoesNotFall(s, count, b);
      DoesNotFall(r, count, b);
    }
    forall x: nat | x != b
      ensures Falls(r, count, x) <==> Falls(s, count, x)
    {
      FallsAlike(s, r, count, x);
    }
    if Outlives(r, count) {
      var x: nat :| r.tree.ActiveAt(x) && !Falls(r, count, x);
      assert s.tree.ActiveAt(x) && !Falls(s, count, x);
    }
    if Outlives(s, count) {
      var x: nat :| s.tree.ActiveAt(x) && !Falls(s, count, x);
      assert r.tree.ActiveAt(x) && !Falls(r, count, x);
    }
  }

  lemma DueFalls(s: State, count: nat, b: nat)
    requires b in s.terminals && b in s.pending && s.pending[b] <= count
    ensures Falls(s, count, b)
  {
  }

  lemma DoesNotFall(s: State, count: nat, b: nat)
    requires b !in s.terminals
    ensures !Falls(s, count, b)
  {
  }

  lemma ValuedFrontier(t: Tree, b: nat, score: Float)
    requires WellFormed(t) && RecordValue(t, b, score).Ok?
    ensures WellFormed(RecordValue(t, b, score).value)
    ensures forall x: nat :: RecordValue(t, b, score).value.ActiveAt(x) <==> t.ActiveAt(x)
  {
    SameStructureWellFormed(t, RecordValue(t, b, score).value);
  }

  /** Forgetting what is not live changes nothing for the active. */
  lemma RetainOutlives(s: State, count: nat)
    ensures Outlives(RetainLive(s), count) <==> Outlives(s, count)
  {
    var r := RetainLive(s);
    forall x: nat | s.tree.ActiveAt(x)
      ensures Falls(r, count, x) <==> Falls(s, count, x)
    {
    }
  }

  /** A prune only takes scored branches, and never the best of them. */
  lemma PruneOutlives(c: Config, s: State, pruned: Effect, count: nat)
    requires WellFormed(s.tree) && NoOrphans(s.tree) && ConfigOk(c) && SpeculativePrune(s.tree, c.margin) == Ok(pruned)
    requires forall b :: b in s.terminals ==> (s.tree.LiveAt(b) ==> Deferred(s.tree, b))
    ensures Outlives(s.(tree := pruned.tree), count) <==> Outlives(s, count)
  {
    hide WellFormed, NoOrphans, SpeculativePrune, IsVictim;
    SpeculativePruneSpec(s.tree, c.margin);
    var r := s.(tree := pruned.tree);
    forall x: nat
      ensures Falls(r, count, x) <==> Falls(s, count, x)
    {
    }
    if Outlives(s, count) {
      var x: nat :| s.tree.ActiveAt(x) && !Falls(s, count, x);
      if pruned.tree.ActiveAt(x) {
        assert !Falls(r, count, x);
      } else {
        BestIsNoVictim(s.tree, c.margin.value, x);
        var i: nat :| s.tree.ActiveAt(i) && s.tree.nodes[i].hasValue && !IsVictim(s.tree, c.margin.value, i);
        assert i !in s.terminals && pruned.tree.ActiveAt(i) && !Falls(r, count, i);
      }
    }
    if Outlives(r, count) {
      var x: nat :| pruned.tree.ActiveAt(x) && !Falls(r, count, x);
      assert s.tree.ActiveAt(x) && !Falls(s, count, x);
    }
  }

  lemma NobodyFalls(s: State, count: nat)
    requires s.terminals == map[]
    ensures Outlives(s, count) <==> AnyActive(s.tree)
  {
    if AnyActive(s.tree) {
      var x: nat :| s.tree.ActiveAt(x);
      assert !Falls(s, count, x);
    }
  }

  lemma QueueOutlives(s: State, r: State, count: nat)
    requires r == s.(queue := r.queue, outstanding := r.outstanding)
    ensures Outlives(r, count) <==> Outlives(s, count)
  {
    forall x: nat
      ensures Falls(r, count, x) <==> Falls(s, count, x)
    {
    }
  }

  /** The second half changes nothing about whether somebody outlives the event. */
  lemma FinishOutlives(c: Config, ph: Phase, e: EngineEvent, after: nat, until: nat, count: nat)
    requires WellFormed(ph.s.tree) && NoOrphans(ph.s.tree) && ConfigOk(c)
    requires !e.TokenSampled? && !ph.exhausted && MayWait(c, ph.s, after, until) && FinishEvent(c, ph, e).Ok?
    ensures Outlives(FinishEvent(c, ph, e).value, count) ==> Outlives(ph.s, count)
    ensures KeepsSome(c.policy) && Outlives(ph.s, count) ==> Outlives(FinishEvent(c, ph, e).value, count)
  {
    hide WellFormed, NoOrphans, Outlives, SpeculativePrune, PolicyPhase, FinishEvent, KeepsSome, Enqueue, MayWait, Waits, AnyActive, Falls;
    var pruned, d := FinishContinuingForm(c, ph, e);
    var s1 := RetainLive(ph.s);
    var s2 := s1.(tree := pruned.tree);
    RetainingWaits(c, ph.s, after, until);
    WaitingIsDeferred(c, s1, after, until);
    RetainOutlives(ph.s, count);
    PruneOutlives(c, s1, pruned, count);
    SpeculativePruneSpec(ph.s.tree, c.margin);
    if s2.terminals == map[] {
      NobodyFalls(s2, count);
      if KeepsSome(c.policy) && AnyActive(s2.tree) { PolicyPhaseKeepsSome(c, s2, e); }
      if AnyActive(d.s.tree) { PolicyPhaseRevivesNone(c, s2, e); }
      PolicyCommandsKeepWaiting(c, s2, e);
      NobodyFalls(d.s, count);
    }
    RetainOutlives(d.s, count);
    EnqueueKeepsTree(RetainLive(d.s), ph.emitted + pruned.commands + d.commands);
    QueueOutlives(RetainLive(d.s), FinishEvent(c, ph, e).value, count);
  }

  lemma WaitingIsDeferred(c: Config, s: State, after: nat, until: nat)
    requires Waits(c, s, after, until)
    ensures forall b :: b in s.terminals ==> (s.tree.LiveAt(b) ==> Deferred(s.tree, b))
  {
  }

  lemma ProcessScoreOutlives(c: Config, s: State, e: EngineEvent, after: nat, until: nat, count: nat)
    requires WellFormed(s.tree) && NoOrphans(s.tree) && ConfigOk(c) && Waits(c, s, after, until)
    requires NoEnd(s) && e.ValueScored? && e.branch in s.pending && s.pending[e.branch] <= count && ProcessEvent(c, s, e).Ok?
    ensures Outlives(ProcessEvent(c, s, e).value, count) ==> Outlives(s, count)
    ensures KeepsSome(c.policy) && Outlives(s, count) ==> Outlives(ProcessEvent(c, s, e).value, count)
  {
    hide WellFormed, NoOrphans, Outlives, ApplyScore, FinishEvent, KeepsSome, MayWait, Waits, NoEnd, ConfigOk, Falls;
    Lockstep.ApplyEventInStep(c, s, e);
    ApplyOtherWaits(c, s, e, after, until);
    ScoreOutlives(c, s, e.branch, e.score, count);
    FinishOutlives(c, ApplyScore(c, s, e.branch, e.score).value, e, after, until, count);
  }

  lemma ProcessExhaustedOutlives(c: Config, s: State, b: nat, after: nat, until: nat, count: nat)
    requires WellFormed(s.tree) && NoOrphans(s.tree) && ConfigOk(c) && Waits(c, s, after, until)
    requires ProcessEvent(c, s, BranchExhausted(b)).Ok?
    ensures Outlives(ProcessEvent(c, s, BranchExhausted(b)).value, count) ==> OutlivedBy(s, count, b)
    ensures KeepsSome(c.policy) && OutlivedBy(s, count, b) ==>
              Outlives(ProcessEvent(c, s, BranchExhausted(b)).value, count)
  {
    hide WellFormed, NoOrphans, Outlives, OutlivedBy, ApplyExhausted, FinishEvent, KeepsSome, MayWait, Waits, ConfigOk, Falls;
    var e := BranchExhausted(b);
    Lockstep.ApplyEventInStep(c, s, e);
    ApplyOtherWaits(c, s, e, after, until);
    ExhaustedOutlives(s, b, count);
    FinishOutlives(c, ApplyExhausted(s, b).value, e, after, until, count);
  }

  lemma {:induction false} ResolveEachOutlives(root: Tree, polled: seq<Command>, c: Config, s: State, expired: seq<nat>,
                                               after: nat, until: nat, count: nat)
    requires Lockstep.StepsTo(root, polled, s) && ConfigOk(c) && Waits(c, s, after, until) && NoEnd(s)
    requires forall b :: b in expired && b in s.pending ==> s.pending[b] <= count
    requires ResolveEach(c, s, expired).Ok?
    ensures Outlives(ResolveEach(c, s, expired).value, count) ==> Outlives(s, count)
    ensures KeepsSome(c.policy) && Outlives(s, count) ==> Outlives(ResolveEach(c, s, expired).value, count)
    decreases |expired|
  {
    if expired != [] {
      hide WellFormed, NoOrphans, ProcessEvent, Waits, Outlives, KeepsSome, Replays, ConfigOk, NoEnd;
      if expired[0] !in s.pending {
        ResolveEachOutlives(root, polled, c, s, expired[1..], after, until, count);
      } else {
        var e := ValueScored(Finite(s.tree.nodes[expired[0]].logprob), expired[0]);
        ProcessScoreOutlives(c, s, e, after, until, count);
        ProcessOtherWaits(c, s, e, after, until);
        var next := ProcessEvent(c, s, e).value;
        StillNoEnd(s, next);
        Lockstep.ProcessEventInStep(root, polled, c, s, e);
        ResolveEachOutlives(root, polled, c, next, expired[1..], after, until, count);
      }
    }
  }

  lemma StillNoEnd(s: State, r: State)
    requires WaitsLess(s, r)
    ensures NoEnd(s) ==> NoEnd(r)
  {
  }

  // ---------------------------------------------------------------------------
  // Whole events
  // ---------------------------------------------------------------------------

  /** The end hangs on this branch alone, so once the branch is gone no end is deferred. */
  lemma EndGoesWith(s: State, next: State, b: nat)
    requires OneEnd(s) && b in s.terminals && s.terminals[b] == TreeTerminal
    requires WaitsLess(s, next) && b !in next.terminals
    ensures NoEnd(next)
  {
  }

  lemma NoEndNoneDeferred(s: State)
    requires NoEnd(s)
    ensures !EndDeferred(s)
  {
  }

  lemma WaitsIsPending(c: Config, s: State, after: nat, until: nat, b: nat)
    requires Waits(c, s, after, until) && b !in s.pending
    ensures b !in s.terminals
  {
  }

  /** Counting the event and answering what is due: afterwards nobody is left to fall. */
  lemma NobodyLeftToFall(c: Config, s: State)
    requires Waits(c, s, s.accepted, s.accepted + c.maxPendingEvents)
    ensures Outlives(s, s.accepted) <==> AnyActive(s.tree)
  {
    forall x: nat
      ensures !Falls(s, s.accepted, x)
    {
    }
  }

  /** Exhausting the branch that holds the end of the tree: nothing is deferred afterwards, and somebody stays
      active exactly if another active branch has no terminal of its own that is due with this event. */
  lemma ExhaustingTheEnd(root: Tree, polled: seq<Command>, c: Config, s: State, b: nat)
    requires Sound(root, polled, c, s) && ConfigOk(c) && OneEnd(s)
    requires b in s.terminals && s.terminals[b] == TreeTerminal && FeedEvent(c, s, BranchExhausted(b)).Ok?
    ensures var r := FeedEvent(c, s, BranchExhausted(b)).value;
            && !EndDeferred(r)
            && (AnyActive(r.tree) ==> OutlivedBy(s, s.accepted + 1, b))
            && (KeepsSome(c.policy) && OutlivedBy(s, s.accepted + 1, b) ==> AnyActive(r.tree))
  {
    hide Lockstep.StepsTo, Waits, WaitsLess, Accounted, KeepsSome, OneEnd, NoEnd, ProcessEvent, FeedEvent, ResolveEach;
    hide NoOrphans, Outlives, OutlivedBy, AnyActive, EndDeferred, Falls;
    var e := BranchExhausted(b);
    Lockstep.StepsToFacts(root, polled, s);
    Lockstep.StepsToNoOrphans(root, polled, s);
    FeedEventForm(c, s, e);
    FeedEventWaits(root, polled, c, s, e);
    ProcessOtherWaits(c, s, e, s.accepted, s.accepted + c.maxPendingEvents);
    ProcessExhaustedOutlives(c, s, b, s.accepted, s.accepted + c.maxPendingEvents, s.accepted + 1);
    Lockstep.ProcessEventInStep(root, polled, c, s, e);
    var next := ProcessEvent(c, s, e).value;
    Lockstep.StepsToFacts(root, polled, next);
    WaitsIsPending(c, next, s.accepted, s.accepted + c.maxPendingEvents, b);
    EndGoesWith(s, next, b);
    var counted := next.(accepted := s.accepted + 1);
    CountedWaits(root, polled, c, next, counted, s.accepted, s.accepted + c.maxPendingEvents);
    SameEnds(next, counted);
    CountedOutlives(next, counted, s.accepted + 1);
    var expired := ExpiredBelow(counted, |counted.tree.nodes|);
    ResolveEachOutlives(root, polled, c, counted, expired, s.accepted, s.accepted + c.maxPendingEvents, s.accepted + 1);
    ResolveEachWaits(root, polled, c, counted, expired, s.accepted, s.accepted + c.maxPendingEvents);
    var r := ResolveEach(c, counted, expired).value;
    StillNoEnd(counted, r);
    NoEndNoneDeferred(r);
    NobodyLeftToFall(c, r);
  }

  lemma CountedOutlives(s: State, r: State, count: nat)
    requires r == s.(accepted := r.accepted)
    ensures Outlives(r, count) <==> Outlives(s, count)
  {
    forall x: nat
      ensures Falls(r, count, x) <==> Falls(s, count, x)
    {
    }
  }

  /** One accepted event keeps the end of a spent tree exactly if it does not forget it. Only that forgetting
      really loses the end needs a policy that never ends every branch, as no built-in policy does. */
  lemma FeedEndsExactly(root: Tree, polled: seq<Command>, c: Config, s: State, e: EngineEvent)
    requires Sound(root, polled, c, s) && ConfigOk(c) && Honest(c.policy)
    requires Within(s) && EndsWhenSpent(s) && OneEnd(s) && FeedEvent(c, s, e).Ok?
    ensures !Forgets(s, e) ==> EndsWhenSpent(FeedEvent(c, s, e).value)
    ensures KeepsSome(c.policy) && Forgets(s, e) ==> !EndsWhenSpent(FeedEvent(c, s, e).value)
  {
    hide Lockstep.StepsTo, Waits, Accounted, Honest, KeepsSome, FeedEvent, Within, EndDeferred, AllTerminal, OutlivedBy;
    if Gentle(s, e) {
      FeedEventLimits(root, polled, c, s, e);
    } else {
      Lockstep.StepsToFacts(root, polled, s);
      var r := FeedEvent(c, s, e).value;
      ExhaustingTheEnd(root, polled, c, s, e.branch);
      FeedEventAccounted(root, polled, c, s, e);
      Lockstep.FeedEventInStep(root, polled, c, s, e);
      Lockstep.StepsToFacts(root, polled, r);
      Lockstep.StepsToNoOrphans(root, polled, r);
      NobodyActiveMeansEnded(r.tree);
    }
  }

  // ---------------------------------------------------------------------------
  // Whole runs
  // ---------------------------------------------------------------------------

  /** At every state of the run a spent tree budget has ended the tree or is about to. */
  ghost predicate AlwaysEnds(c: Config, rollback: bool, r: Run, ops: seq<Op>)
    requires WellFormed(r.s.tree) && ConfigOk(c)
    decreases |ops|
  {
    && EndsWhenSpent(r.s)
    && (ops != [] && Step(c, rollback, r, ops[0]).Ok? ==>
          (StepWellFormed(c, rollback, r, ops[0]);
           AlwaysEnds(c, rollback, Step(c, rollback, r, ops[0]).value, ops[1..])))
  }

  /** No accepted event of the run forgets the end. */
  ghost predicate NeverForgets(c: Config, rollback: bool, r: Run, ops: seq<Op>)
    requires WellFormed(r.s.tree) && ConfigOk(c)
    decreases |ops|
  {
    ops == [] || (
      && (ops[0].Feed? && FeedEvent(c, r.s, ops[0].event).Ok? ==> !Forgets(r.s, ops[0].event))
      && (Step(c, rollback, r, ops[0]).Ok? ==>
            (StepWellFormed(c, rollback, r, ops[0]);
             NeverForgets(c, rollback, Step(c, rollback, r, ops[0]).value, ops[1..]))))
  }

  lemma RunIsSound(c: Config, r: Run)
    requires RunInvariant(c, r) && Honest(c.policy)
    ensures Sound(FreshTree(r.s.tree.cap), r.polled, c, r.s)
  {
  }

  lemma StepEndsExactly(c: Config, rollback: bool, r: Run, op: Op)
    requires RunInvariant(c, r) && ConfigOk(c) && Honest(c.policy)
    requires Within(r.s) && EndsWhenSpent(r.s) && OneEnd(r.s) && Step(c, rollback, r, op).Ok?
    ensures var next := Step(c, rollback, r, op).value.s;
            var forgets := op.Feed? && FeedEvent(c, r.s, op.event).Ok? && Forgets(r.s, op.event);
            && Within(next) && OneEnd(next)
            && (!forgets ==> EndsWhenSpent(next))
            && (KeepsSome(c.policy) && forgets ==> !EndsWhenSpent(next))
  {
    var root := FreshTree(r.s.tree.cap);
    StepLimits(c, rollback, r, op);
    RunIsSound(c, r);
    hide FeedEvent, Drain, Sound, Waits, Accounted, Honest, KeepsSome, WellFormed, NoOrphans, Replays, Within, EndsWhenSpent, Forgets;
    match op {
      case PollCommands =>
        SameLimits(r.s, Poll(r).s);
        SameEnds(r.s, Poll(r).s);
      case DrainTree =>
        DrainKeepsInvariant(c, r);
        EndedWithinLimits(Drain(r.s).value);
        DrainedHasNoEnd(r.s);
      case Feed(e, calls) =>
        if FeedEvent(c, r.s, e).Ok? {
          FeedOneEnd(root, r.polled, c, r.s, e);
          FeedEndsExactly(root, r.polled, c, r.s, e);
        } else {
          SameLimits(r.s, r.s.(calls := calls));
          SameEnds(r.s, r.s.(calls := calls));
        }
    }
  }

  lemma DrainedHasNoEnd(s: State)
    requires WellFormed(s.tree) && Drain(s).Ok?
    ensures OneEnd(Drain(s).value)
  {
    var ended := TerminateTree(s.tree, Drained).value;
    TerminateTreeSpec(s.tree, Drained);
    hide TerminateTree, WellFormed;
    EnqueueKeepsTree(s.(tree := ended.tree, outstanding := {}, pending := map[], terminals := map[], adaptivePending := {}),
                     ended.commands);
  }

  /** Over every run: the end of a spent tree is never lost exactly if no accepted event forgets it; that it is
      never lost otherwise holds with any honest policy. */
  lemma {:induction false} EveryRunEndsExactly(c: Config, rollback: bool, r: Run, ops: seq<Op>)
    requires RunInvariant(c, r) && ConfigOk(c) && Honest(c.policy)
    requires Within(r.s) && EndsWhenSpent(r.s) && OneEnd(r.s)
    ensures WellFormed(r.s.tree)
    ensures NeverForgets(c, rollback, r, ops) ==> AlwaysEnds(c, rollback, r, ops)
    ensures KeepsSome(c.policy) && AlwaysEnds(c, rollback, r, ops) ==> NeverForgets(c, rollback, r, ops)
    decreases |ops|
  {
    if ops != [] && Step(c, rollback, r, ops[0]).Ok? {
      StepEndsExactly(c, rollback, r, ops[0]);
      StepKeepsInvariant(c, rollback, r, ops[0]);
      var next := Step(c, rollback, r, ops[0]).value;
      StepWellFormed(c, rollback, r, ops[0]);
      hide RunInvariant, Step, Within, EndsWhenSpent, OneEnd, Honest, KeepsSome, FeedEvent, Forgets;
      if EndsWhenSpent(next.s) {
        EveryRunEndsExactly(c, rollback, next, ops[1..]);
      } else {
        assert !AlwaysEnds(c, rollback, next, ops[1..]);
      }
    }
  }

  /** A scheduler that scores for itself defers no end, so it has none to forget. */
  lemma {:induction false} OwnScorerNeverForgets(c: Config, rollback: bool, r: Run, ops: seq<Op>)
    requires RunInvariant(c, r) && ConfigOk(c) && c.scorer.Some?
    ensures WellFormed(r.s.tree) && NeverForgets(c, rollback, r, ops)
    decreases |ops|
  {
    NothingDeferred(c, r);
    if ops != [] && Step(c, rollback, r, ops[0]).Ok? {
      StepKeepsInvariant(c, rollback, r, ops[0]);
      StepWellFormed(c, rollback, r, ops[0]);
      hide RunInvariant, Step, FeedEvent;
      OwnScorerNeverForgets(c, rollback, Step(c, rollback, r, ops[0]).value, ops[1..]);
    }
  }

  lemma NothingDeferred(c: Config, r: Run)
    requires RunInvariant(c, r) && c.scorer.Some?
    ensures WellFormed(r.s.tree) && r.s.terminals == map[]
  {
    hide Replays, NoOrphans, Honest, Accounted;
  }

  lemma StartHasNoEnd(totalLimit: nat, branchLimit: nat, cap: nat)
    ensures OneEnd(Start(totalLimit, branchLimit, cap).s)
  {
  }

  /** From the start, with each of the built-in policies. */
  lemma BuiltInRunsEndExactly(c: Config, beam: BeamConfig, best: BestFirstConfig, mcts: MctsConfig, rollback: bool,
                              totalLimit: nat, branchLimit: nat, cap: nat, ops: seq<Op>)
    requires ConfigOk(c) && BeamConfigOk(beam) && totalLimit > 0 && branchLimit > 0 && cap > 0
    requires c.policy == BeamPolicy(beam) || c.policy == BestFirstPolicy(best) || c.policy == MctsPolicy(mcts)
    ensures var r := Start(totalLimit, branchLimit, cap);
            WellFormed(r.s.tree) && (AlwaysEnds(c, rollback, r, ops) <==> NeverForgets(c, rollback, r, ops))
  {
    hide AlwaysEnds, NeverForgets, BeamPolicy, BestFirstPolicy, MctsPolicy;
    BuiltIns.BeamIsFaithful(beam);
    BuiltIns.BestFirstIsFaithful(best);
    BuiltIns.MctsIsFaithful(mcts);
    BeamKeepsSome(beam);
    BestFirstKeepsSome(best);
    MctsKeepsSome(mcts);
    StartInvariant(c, totalLimit, branchLimit, cap);
    StartWithinLimits(c, totalLimit, branchLimit, cap);
    StartHasNoEnd(totalLimit, branchLimit, cap);
    EveryRunEndsExactly(c, rollback, Start(totalLimit, branchLimit, cap), ops);
  }
}
