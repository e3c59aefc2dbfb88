/** Delayed external scores: deadlines, and budget terminals deferred until the score is in
    (scheduler/src/scheduler.rs). */
module Waiting {
  import opened Common
  import opened Arena
  import opened Commands
  import opened CommandStream
  import opened Lifecycle
  import opened Termination
  import opened Policies
  import opened Scheduler
  import Lockstep

  /** Scores are awaited only for live branches, with deadlines between the two bounds; a branch whose
      terminal is deferred is an active, unscored branch that awaits its score. */
  ghost predicate Waits(c: Config, s: State, after: nat, until: nat) {
    && (c.scorer.Some? ==> s.pending == map[] && s.terminals == map[])
    && (forall b :: b in s.pending ==> s.tree.LiveAt(b) && after < s.pending[b] <= until)
    && (forall b :: b in s.terminals ==> b in s.pending && Deferred(s.tree, b))
  }

  ghost predicate Deferred(t: Tree, b: nat) {
    t.ActiveAt(b) && !t.nodes[b].hasValue
  }

  /** Nothing waits that did not wait before, and the deadlines are the old ones. */
  ghost predicate WaitsLess(s: State, r: State) {
    && (forall b :: b in r.pending ==> b in s.pending && r.pending[b] == s.pending[b])
    && (forall b :: b in r.terminals ==> b in s.terminals && r.terminals[b] == s.terminals[b])
  }

  lemma WaitsLessThen(a: State, b: State, c: State)
    requires WaitsLess(a, b) && WaitsLess(b, c)
    ensures WaitsLess(a, c)
  {
  }

  /** As Waits, except that branches ended in the meantime may still be listed. */
  ghost predicate MayWait(c: Config, s: State, after: nat, until: nat) {
    && (c.scorer.Some? ==> s.pending == map[] && s.terminals == map[])
    && (forall b :: b in s.pending ==> b < |s.tree.nodes| && after < s.pending[b] <= until)
    && (forall b :: b in s.terminals ==> b in s.pending && b < |s.tree.nodes| && (s.tree.LiveAt(b) ==> Deferred(s.tree, b)))
  }

  lemma RetainingWaits(c: Config, s: State, after: nat, until: nat)
    requires MayWait(c, s, after, until)
    ensures Waits(c, RetainLive(s), after, until)
    ensures WaitsLess(s, RetainLive(s)) && RetainLive(s).accepted == s.accepted
  {
  }

  lemma EndsMayWait(c: Config, s: State, tree: Tree, after: nat, until: nat)
    requires MayWait(c, s, after, until) && OnlyEnds(s.tree, tree)
    ensures MayWait(c, s.(tree := tree), after, until)
  {
  }

  lemma FinalizeMayWait(c: Config, s: State, b: nat, after: nat, until: nat)
    requires WellFormed(s.tree) && MayWait(c, s, after, until) && FinalizeAndReclaim(s, b).Ok?
    ensures MayWait(c, FinalizeAndReclaim(s, b).value.s, after, until)
    ensures WaitsLess(s, FinalizeAndReclaim(s, b).value.s)
  {
    Lockstep.FinalizeAndReclaimSpec(s, b);
    EndsMayWait(c, s, FinalizeAndReclaim(s, b).value.s.tree, after, until);
  }

  // ---------------------------------------------------------------------------
  // The first half of an event
  // ---------------------------------------------------------------------------

  lemma RecordSampleWaits(c: Config, s: State, e: EngineEvent, until: nat)
    requires WellFormed(s.tree) && Waits(c, s, s.accepted, until) && e.TokenSampled? && CheckEvent(c, s, e).Ok?
    requires until <= s.accepted + 1 + c.maxPendingEvents && ConfigOk(c) && RecordSample(c, s, e).Ok?
    ensures var r := RecordSample(c, s, e).value.0;
            && MayWait(c, r, s.accepted, s.accepted + 1 + c.maxPendingEvents)
            && (c.scorer.None? && !e.eos ==> e.branch in r.pending && Deferred(r.tree, e.branch))
            && e.branch !in r.terminals
  {
  }

  lemma ApplyTokenWaits(c: Config, s: State, e: EngineEvent, until: nat)
    requires WellFormed(s.tree) && Waits(c, s, s.accepted, until) && e.TokenSampled? && CheckEvent(c, s, e).Ok?
    requires until <= s.accepted + 1 + c.maxPendingEvents && ConfigOk(c) && ApplyToken(c, s, e).Ok?
    ensures MayWait(c, ApplyToken(c, s, e).value.s, s.accepted, s.accepted + 1 + c.maxPendingEvents)
  {
    hide WellFormed, RecordSample, FinalizeAndReclaim, Waits, CheckEvent, MayWait, Deferred;
    var final := s.accepted + 1 + c.maxPendingEvents;
    RecordSampleWaits(c, s, e, until);
    var s1 := RecordSample(c, s, e).value.0;
    var s2 := if c.scorer.None? && !e.eos && e.entropy.Some? && c.adaptive.Some?
      then s1.(adaptivePending := s1.adaptivePending + {e.branch}) else s1;
    SampledMayWait(c, s1, s2, e.branch, s.accepted, final);
    if FinalizeAndReclaim(s2, e.branch).Ok? {
      FinalizeMayWait(c, s2, e.branch, s.accepted, final);
    }
  }

  /** A recorded sample may note an adaptive follow-up, and may defer a terminal while it awaits a score. */
  lemma SampledMayWait(c: Config, s: State, r: State, b: nat, after: nat, until: nat)
    requires MayWait(c, s, after, until) && r == s.(adaptivePending := r.adaptivePending)
    ensures MayWait(c, r, after, until)
    ensures b in r.pending && Deferred(r.tree, b) ==>
              && MayWait(c, r.(terminals := r.terminals[b := TreeTerminal]), after, until)
              && MayWait(c, r.(terminals := r.terminals[b := BranchTerminal]), after, until)
  {
  }

  /** A score, or the end of its branch, leaves nothing new to wait for. */
  lemma ApplyOtherWaits(c: Config, s: State, e: EngineEvent, after: nat, until: nat)
    requires WellFormed(s.tree) && Waits(c, s, after, until) && !e.TokenSampled? && ApplyEvent(c, s, e).Ok?
    ensures MayWait(c, ApplyEvent(c, s, e).value.s, after, until)
    ensures WaitsLess(s, ApplyEvent(c, s, e).value.s)
    ensures e.branch !in ApplyEvent(c, s, e).value.s.pending
  {
    match e {
      case BranchExhausted(b) =>
        var s1 := RemoveQueuedContinue(s, b);
        FinalizeMayWait(c, s1.(pending := s1.pending - {b}, terminals := s1.terminals - {b},
                               adaptivePending := s1.adaptivePending - {b}), b, after, until);
      case ValueScored(score, b) => ApplyScoreWaits(c, s, b, score, after, until);
    }
  }

  lemma ApplyScoreWaits(c: Config, s: State, b: nat, score: Float, after: nat, until: nat)
    requires WellFormed(s.tree) && Waits(c, s, after, until) && ApplyScore(c, s, b, score).Ok?
    ensures MayWait(c, ApplyScore(c, s, b, score).value.s, after, until)
    ensures WaitsLess(s, ApplyScore(c, s, b, score).value.s)
    ensures b !in ApplyScore(c, s, b, score).value.s.pending
  {
    var valued := RecordValue(s.tree, b, score).value;
    SameStructureWellFormed(s.tree, valued);
    var s1 := s.(tree := valued, pending := s.pending - {b}, terminals := s.terminals - {b});
    ScoredMayWait(c, s, b, score, after, until);
    hide WellFormed, FinalizeAndReclaim, Waits, MayWait, WaitsLess, RecordValue;
    if FinalizeAndReclaim(s1, b).Ok? {
      FinalizeMayWait(c, s1, b, after, until);
      WaitsLessThen(s, s1, FinalizeAndReclaim(s1, b).value.s);
      WaitsForLess(s1, FinalizeAndReclaim(s1, b).value.s, b);
    }
  }

  lemma WaitsForLess(s: State, r: State, b: nat)
    requires WaitsLess(s, r) && b !in s.pending
    ensures b !in r.pending
  {
  }

  lemma ScoredMayWait(c: Config, s: State, b: nat, score: Float, after: nat, until: nat)
    requires Waits(c, s, after, until) && RecordValue(s.tree, b, score).Ok?
    ensures var s1 := s.(tree := RecordValue(s.tree, b, score).value, pending := s.pending - {b}, terminals := s.terminals - {b});
            MayWait(c, s1, after, until) && WaitsLess(s, s1)
  {
  }

  // ---------------------------------------------------------------------------
  // The second half
  // ---------------------------------------------------------------------------

  lemma PolicyCommandsKeepWaiting(c: Config, s: State, e: EngineEvent)
    requires WellFormed(s.tree) && ConfigOk(c) && s.terminals == map[]
    requires e.TokenSampled? && e.entropy.Some? ==> e.entropy.value.Finite?
    requires PolicyPhase(c, s, e).Ok?
    ensures var r := PolicyPhase(c, s, e).value.s;
            r.pending == s.pending && r.terminals == map[] && |s.tree.nodes| <= |r.tree.nodes| && r.accepted == s.accepted
  {
    var s1 := if e.ValueScored? then s.(adaptivePending := s.adaptivePending - {e.branch}) else s;
    var followup := e.ValueScored? && e.branch in s.adaptivePending;
    Lockstep.PolicyCommandsKeepQueue(c, s1, e, followup);
    var d := PolicyCommands(c, s1, e, followup).value;
    ValidatedTree(s.tree, d.s.tree, d.commands);
    ReplayKeepsCap(s.tree, d.commands);
    ReclaimEachSpec(d.s.tree, TerminatedBy(d.commands));
  }

  lemma EndedWaitsForNothing(c: Config, s: State, r: State, after: nat, until: nat)
    requires r.pending == map[] && r.terminals == map[]
    ensures Waits(c, r, after, until) && WaitsLess(s, r)
  {
  }

  /** Queueing commands leaves what is awaited alone. */
  lemma QueuedWaits(c: Config, s: State, held: State, r: State, after: nat, until: nat)
    requires Waits(c, held, after, until) && WaitsLess(s, held)
    requires r == held.(queue := r.queue, outstanding := r.outstanding)
    ensures Waits(c, r, after, until) && WaitsLess(s, r)
  {
  }

  lemma FinishEventWaits(c: Config, ph: Phase, e: EngineEvent, after: nat, until: nat)
    requires WellFormed(ph.s.tree) && NoOrphans(ph.s.tree) && ConfigOk(c) && MayWait(c, ph.s, after, until)
    requires e.TokenSampled? && e.entropy.Some? ==> e.entropy.value.Finite?
    requires FinishEvent(c, ph, e).Ok?
    ensures Waits(c, FinishEvent(c, ph, e).value, after, until)
    ensures WaitsLess(ph.s, FinishEvent(c, ph, e).value)
    ensures FinishEvent(c, ph, e).value.accepted == ph.s.accepted
  {
    hide WellFormed, NoOrphans, TerminateTree, SpeculativePrune, PolicyPhase, Waits, WaitsLess, MayWait, RetainLive;
    if ph.exhausted {
      var ended := TerminateTree(ph.s.tree, TreeBudgetExhausted).value;
      var final := ph.s.(tree := ended.tree, pending := map[], terminals := map[], adaptivePending := {});
      EnqueueKeepsTree(final, ph.emitted + ended.commands);
      EndedWaitsForNothing(c, ph.s, Enqueue(final, ph.emitted + ended.commands), after, until);
    } else if e.TokenSampled? && e.eos {
      RetainingWaits(c, ph.s, after, until);
      EnqueueKeepsTree(RetainLive(ph.s), ph.emitted);
      QueuedWaits(c, ph.s, RetainLive(ph.s), Enqueue(RetainLive(ph.s), ph.emitted), after, until);
    } else {
      FinishContinuingWaits(c, ph, e, after, until);
    }
  }

  lemma FinishContinuingWaits(c: Config, ph: Phase, e: EngineEvent, after: nat, until: nat)
    requires WellFormed(ph.s.tree) && NoOrphans(ph.s.tree) && ConfigOk(c) && MayWait(c, ph.s, after, until)
    requires e.TokenSampled? && e.entropy.Some? ==> e.entropy.value.Finite?
    requires !ph.exhausted && !(e.TokenSampled? && e.eos) && FinishEvent(c, ph, e).Ok?
    ensures Waits(c, FinishEvent(c, ph, e).value, after, until)
    ensures WaitsLess(ph.s, FinishEvent(c, ph, e).value)
    ensures FinishEvent(c, ph, e).value.accepted == ph.s.accepted
  {
    var pruned, d := FinishContinuingForm(c, ph, e);
    var s1 := RetainLive(ph.s);
    RetainingWaits(c, ph.s, after, until);
    SpeculativePruneSpec(s1.tree, c.margin);
    var s2 := s1.(tree := pruned.tree);
    EndsMayWait(c, s1, pruned.tree, after, until);
    hide *;
    if s2.terminals == map[] {
      PolicyCommandsKeepWaiting(c, s2, e);
      GrownMayWait(c, s2, d.s, after, until);
    } else {
      SameWaitsLess(s2, d.s);
    }
    RetainingWaits(c, d.s, after, until);
    EnqueueKeepsTree(RetainLive(d.s), ph.emitted + pruned.commands + d.commands);
    var r := FinishEvent(c, ph, e).value;
    SameWaits(c, RetainLive(d.s), r, after, until);
    SameWaitsLess(s1, s2);
    WaitsLessThen(ph.s, s1, s2);
    WaitsLessThen(ph.s, s2, d.s);
    WaitsLessThen(ph.s, d.s, RetainLive(d.s));
    WaitsLessThen(ph.s, RetainLive(d.s), r);
    RetainLiveKeepsCount(ph.s);
    RetainLiveKeepsCount(d.s);
  }

  lemma RetainLiveKeepsCount(s: State)
    ensures RetainLive(s).accepted == s.accepted
  {
  }

  lemma SameWaitsLess(s: State, r: State)
    requires r.pending == s.pending && r.terminals == s.terminals
    ensures WaitsLess(s, r)
  {
  }

  lemma GrownMayWait(c: Config, s: State, r: State, after: nat, until: nat)
    requires MayWait(c, s, after, until) && r.pending == s.pending && r.terminals == map[] == s.terminals
    requires |s.tree.nodes| <= |r.tree.nodes|
    ensures MayWait(c, r, after, until) && WaitsLess(s, r)
  {
  }

  lemma SameWaits(c: Config, s: State, r: State, after: nat, until: nat)
    requires Waits(c, s, after, until) && r.tree == s.tree && r.pending == s.pending && r.terminals == s.terminals
    ensures Waits(c, r, after, until) && WaitsLess(s, r)
  {
  }

  // ---------------------------------------------------------------------------
  // Whole events
  // ---------------------------------------------------------------------------

  lemma ApplyEventAccepts(c: Config, s: State, e: EngineEvent)
    requires WellFormed(s.tree) && ApplyEvent(c, s, e).Ok?
    ensures ApplyEvent(c, s, e).value.s.accepted == s.accepted
  {
  }

  lemma ProcessTokenWaits(c: Config, s: State, e: EngineEvent)
    requires WellFormed(s.tree) && NoOrphans(s.tree) && ConfigOk(c) && e.TokenSampled?
    requires Waits(c, s, s.accepted, s.accepted + c.maxPendingEvents) && ProcessEvent(c, s, e).Ok?
    ensures Waits(c, ProcessEvent(c, s, e).value, s.accepted, s.accepted + 1 + c.maxPendingEvents)
    ensures ProcessEvent(c, s, e).value.accepted == s.accepted
  {
    hide WellFormed, NoOrphans, ApplyToken, FinishEvent, MayWait, Waits;
    Lockstep.ApplyEventInStep(c, s, e);
    ApplyTokenWaits(c, s, e, s.accepted + c.maxPendingEvents);
    ApplyEventAccepts(c, s, e);
    FinishEventWaits(c, ApplyEvent(c, s, e).value, e, s.accepted, s.accepted + 1 + c.maxPendingEvents);
  }

  lemma ProcessOtherWaits(c: Config, s: State, e: EngineEvent, after: nat, until: nat)
    requires WellFormed(s.tree) && NoOrphans(s.tree) && ConfigOk(c) && !e.TokenSampled?
    requires Waits(c, s, after, until) && ProcessEvent(c, s, e).Ok?
    ensures var r := ProcessEvent(c, s, e).value;
            Waits(c, r, after, until) && WaitsLess(s, r) && e.branch !in r.pending && r.accepted == s.accepted
  {
    Lockstep.ApplyEventInStep(c, s, e);
    ApplyOtherWaits(c, s, e, after, until);
    ApplyEventAccepts(c, s, e);
    hide WellFormed, NoOrphans, ApplyEvent, FinishEvent, MayWait, Waits;
    var ph := ApplyEvent(c, s, e).value;
    FinishEventWaits(c, ph, e, after, until);
    WaitsLessThen(s, ph.s, FinishEvent(c, ph, e).value);
  }

  /** Resolving a list of branches leaves none of them waiting. */
  lemma {:induction false} ResolveEachWaits(root: Tree, polled: seq<Command>, c: Config, s: State, expired: seq<nat>,
                                            after: nat, until: nat)
    requires Lockstep.StepsTo(root, polled, s) && ConfigOk(c) && Waits(c, s, after, until)
    requires ResolveEach(c, s, expired).Ok?
    ensures var r := ResolveEach(c, s, expired).value;
            && Waits(c, r, after, until)
            && WaitsLess(s, r)
            && (forall b :: b in expired ==> b !in r.pending)
            && r.accepted == s.accepted
    decreases |expired|
  {
    if expired != [] {
      hide WellFormed, NoOrphans, ProcessEvent, Waits;
      if expired[0] !in s.pending {
        ResolveEachWaits(root, polled, c, s, expired[1..], after, until);
      } else {
        var e := ValueScored(Finite(s.tree.nodes[expired[0]].logprob), expired[0]);
        ProcessOtherWaits(c, s, e, after, until);
        Lockstep.ProcessEventInStep(root, polled, c, s, e);
        var next := ProcessEvent(c, s, e).value;
        ResolveEachWaits(root, polled, c, next, expired[1..], after, until);
        WaitsLessThen(s, next, ResolveEach(c, next, expired[1..]).value);
      }
    }
  }

  /** After an accepted event every deadline lies ahead of the event count, and at most the configured
      number of events ahead; so a score is answered, or its branch ended, before that many events. */
  lemma FeedEventWaits(root: Tree, polled: seq<Command>, c: Config, s: State, e: EngineEvent)
    requires Lockstep.StepsTo(root, polled, s) && ConfigOk(c)
    requires Waits(c, s, s.accepted, s.accepted + c.maxPendingEvents) && FeedEvent(c, s, e).Ok?
    ensures var r := FeedEvent(c, s, e).value;
            && r.accepted == s.accepted + 1
            && Waits(c, r, r.accepted, r.accepted + c.maxPendingEvents)
  {
    hide *;
    Lockstep.StepsToFacts(root, polled, s);
    FeedEventForm(c, s, e);
    ProcessStepWaits(root, polled, c, s, e);
    Lockstep.StepsToFacts(root, polled, ProcessEvent(c, s, e).value);
    var next := ProcessEvent(c, s, e).value;
    var counted := next.(accepted := s.accepted + 1);
    var expired := ExpiredBelow(counted, |counted.tree.nodes|);
    var until := s.accepted + 1 + c.maxPendingEvents;
    CountedWaits(root, polled, c, next, counted, s.accepted, until);
    ResolveEachWaits(root, polled, c, counted, expired, s.accepted, until);
    NothingExpiredWaits(c, counted, ResolveEach(c, counted, expired).value, until);
  }

  lemma CountedWaits(root: Tree, polled: seq<Command>, c: Config, s: State, r: State, after: nat, until: nat)
    requires Waits(c, s, after, until) && Lockstep.StepsTo(root, polled, s) && r == s.(accepted := r.accepted)
    ensures Waits(c, r, after, until) && Lockstep.StepsTo(root, polled, r)
  {
  }

  lemma ProcessStepWaits(root: Tree, polled: seq<Command>, c: Config, s: State, e: EngineEvent)
    requires Lockstep.StepsTo(root, polled, s) && ConfigOk(c)
    requires Waits(c, s, s.accepted, s.accepted + c.maxPendingEvents) && ProcessEvent(c, s, e).Ok?
    ensures Waits(c, ProcessEvent(c, s, e).value, s.accepted, s.accepted + 1 + c.maxPendingEvents)
    ensures Lockstep.StepsTo(root, polled, ProcessEvent(c, s, e).value)
  {
    hide ProcessEvent, WellFormed, NoOrphans, Replays, Waits;
    Lockstep.ProcessEventInStep(root, polled, c, s, e);
    if e.TokenSampled? {
      ProcessTokenWaits(c, s, e);
    } else {
      ProcessOtherWaits(c, s, e, s.accepted, s.accepted + c.maxPendingEvents);
      WaitsLater(c, ProcessEvent(c, s, e).value, s.accepted, s.accepted + c.maxPendingEvents, s.accepted + 1 + c.maxPendingEvents);
    }
  }

  lemma NothingExpiredWaits(c: Config, s: State, r: State, until: nat)
    requires s.accepted > 0 && Waits(c, s, s.accepted - 1, until) && Waits(c, r, s.accepted - 1, until) && WaitsLess(s, r)
    requires forall b :: b in ExpiredBelow(s, |s.tree.nodes|) ==> b !in r.pending
    ensures Waits(c, r, s.accepted, until)
  {
    forall b | b in r.pending
      ensures r.pending[b] > s.accepted
    {
      assert b in s.pending && r.pending[b] == s.pending[b] && s.tree.LiveAt(b);
      assert b !in ExpiredBelow(s, |s.tree.nodes|);
    }
  }

  lemma WaitsLater(c: Config, s: State, after: nat, until: nat, later: nat)
    requires Waits(c, s, after, until) && until <= later
    ensures Waits(c, s, after, later)
  {
  }

  /** A finite score for a waiting branch is never refused, and neither is the terminal deferred to it. */
  lemma AwaitedScoreIsTaken(c: Config, s: State, b: nat, score: real, after: nat, until: nat)
    requires WellFormed(s.tree) && Waits(c, s, after, until) && b in s.pending
    ensures CheckEvent(c, s, ValueScored(Finite(score), b)).Ok?
    ensures ApplyScore(c, s, b, Finite(score)).Ok?
    ensures b in s.terminals && s.terminals[b] == BranchTerminal ==>
              FinalizeBranch(b) in ApplyScore(c, s, b, Finite(score)).value.emitted
    ensures b in s.terminals && s.terminals[b] == TreeTerminal ==>
              ApplyScore(c, s, b, Finite(score)).value.exhausted
  {
    assert s.tree.LiveAt(b) && NodeOk(s.tree, b);
    var valued := RecordValue(s.tree, b, Finite(score)).value;
    if b in s.terminals && s.terminals[b] == BranchTerminal {
      assert Deferred(s.tree, b) && Finalize(valued, b).Ok?;
    }
  }
}
