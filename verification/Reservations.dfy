/** Outstanding continuations are funded: a branch that was told to continue can always take its
    token (scheduler/src/scheduler.rs, enqueue_commands). */
module Reservations {
  import opened Common
  import opened Arena
  import opened Commands
  import opened CommandStream
  import opened Lifecycle
  import opened Termination
  import opened Adaptive
  import opened Policies
  import opened Scheduler
  import opened Accounts
  import Lockstep

  /** The branch can take a token now: it is active, below its limit and not waiting for a score. */
  ghost predicate Ready(s: State, b: nat) {
    && s.tree.ActiveAt(b)
    && s.tree.nodes[b].tokens < s.budget.branchLimit
    && b !in s.pending
  }

  /** Every outstanding continuation is ready, together they fit the remaining budget, and every queued
      Continue is among them. */
  ghost predicate Reserved(s: State) {
    && |s.outstanding| <= s.budget.Remaining()
    && (forall b :: b in s.outstanding ==> Ready(s, b))
    && (forall c :: c in s.queue && c.Continue? ==> c.branch in s.outstanding)
  }

  /** A fork, kill or finalize of the branch is among the commands. */
  ghost predicate Touched(commands: seq<Command>, b: nat) {
    exists k :: 0 <= k < |commands| && !commands[k].Continue? && commands[k].branch == b
  }

  /** Reserved, except that branches the commands are about to touch may no longer be ready. */
  ghost predicate ReservedUpTo(s: State, commands: seq<Command>) {
    && |s.outstanding| <= s.budget.Remaining()
    && (forall b :: b in s.outstanding ==> Ready(s, b) || Touched(commands, b))
    && (forall c :: c in s.queue && c.Continue? ==> c.branch in s.outstanding)
  }

  lemma TouchedLater(commands: seq<Command>, b: nat)
    requires Touched(commands, b) && (commands[0].Continue? || commands[0].branch != b)
    ensures Touched(commands[1..], b)
  {
    var k :| 0 <= k < |commands| && !commands[k].Continue? && commands[k].branch == b;
    assert commands[1..][k - 1] == commands[k];
  }

  lemma EnqueueContinueReserved(s: State, commands: seq<Command>)
    requires commands != [] && commands[0].Continue? && ReservedUpTo(s, commands)
    ensures ReservedUpTo(EnqueueOne(s, commands[0]), commands[1..])
  {
    var r := EnqueueOne(s, commands[0]);
    hide Touched;
    forall b | b in r.outstanding && !Ready(r, b)
      ensures Touched(commands[1..], b)
    {
      assert b in s.outstanding && !Ready(s, b);
      TouchedLater(commands, b);
    }
  }

  lemma EnqueueOneReserved(s: State, commands: seq<Command>)
    requires commands != [] && ReservedUpTo(s, commands)
    ensures ReservedUpTo(EnqueueOne(s, commands[0]), commands[1..])
  {
    if commands[0].Continue? {
      EnqueueContinueReserved(s, commands);
    } else {
      var b := commands[0].branch;
      var r := EnqueueOne(s, commands[0]);
      hide Touched;
      FewerOutstanding(s.outstanding, b);
      forall x | x in r.outstanding && !Ready(r, x)
        ensures Touched(commands[1..], x)
      {
        assert x in s.outstanding && !Ready(s, x);
        TouchedLater(commands, x);
      }
    }
  }

  lemma FewerOutstanding(x: set<nat>, b: nat)
    ensures |x - {b}| <= |x|
    ensures b in x ==> |x - {b}| == |x| - 1
  {
    if b !in x { assert x - {b} == x; }
  }

  /** Whatever the commands, enqueuing them restores the reservation. */
  lemma {:induction false} EnqueueReserved(s: State, commands: seq<Command>)
    requires ReservedUpTo(s, commands)
    ensures Reserved(Enqueue(s, commands))
    decreases |commands|
  {
    if commands != [] {
      EnqueueOneReserved(s, commands);
      EnqueueReserved(EnqueueOne(s, commands[0]), commands[1..]);
    }
  }

  /** A branch that commands take out of the active set is touched by one of them. */
  lemma {:induction false} ReplayTouches(t: Tree, commands: seq<Command>, b: nat)
    requires WellFormed(t) && Replay(t, commands).Ok? && t.ActiveAt(b) && !Replay(t, commands).value.ActiveAt(b)
    ensures Touched(commands, b)
    decreases |commands|
  {
    assert commands != [];
    var c := commands[0];
    var next := Apply(t, c).value;
    if next.ActiveAt(b) {
      ApplyKeepsWellFormed(t, c);
      ReplayTouches(next, commands[1..], b);
      var k :| 0 <= k < |commands[1..]| && !commands[1..][k].Continue? && commands[1..][k].branch == b;
      assert commands[k + 1] == commands[1..][k];
    } else {
      assert !commands[0].Continue? && commands[0].branch == b;
    }
  }

  // ---------------------------------------------------------------------------
  // The parts of an event
  // ---------------------------------------------------------------------------

  /** The engine's side of the bargain: it feeds a token only to a branch that was told to continue, or
      while more budget remains than is reserved (as for the first token of the root). */
  ghost predicate Disciplined(s: State, e: EngineEvent) {
    e.TokenSampled? ==> e.branch in s.outstanding || |s.outstanding| < s.budget.Remaining()
  }

  /** Reserved as seen from the tree the event started from. */
  ghost predicate HeldSince(start: Tree, s: State) {
    && |s.outstanding| <= s.budget.Remaining()
    && (forall b :: b in s.outstanding ==>
          && start.ActiveAt(b)
          && b < |s.tree.nodes|
          && s.tree.nodes[b].tokens < s.budget.branchLimit
          && b !in s.pending)
    && (forall c :: c in s.queue && c.Continue? ==> c.branch in s.outstanding)
  }

  lemma HeldThroughTokens(start: Tree, s: State, r: State)
    requires HeldSince(start, s) && KeepsTokens(s.tree, r.tree)
    requires r.budget == s.budget && r.outstanding == s.outstanding && r.queue == s.queue
    requires forall b :: b in r.pending ==> b in s.pending
    ensures HeldSince(start, r)
  {
  }

  lemma FinalizeHeld(start: Tree, s: State, b: nat)
    requires WellFormed(s.tree) && HeldSince(start, s) && FinalizeAndReclaim(s, b).Ok?
    ensures HeldSince(start, FinalizeAndReclaim(s, b).value.s)
  {
    Lockstep.FinalizeAndReclaimSpec(s, b);
    var r := FinalizeAndReclaim(s, b).value.s;
    EndsKeepTokens(s.tree, r.tree);
    HeldThroughTokens(start, s, r);
  }

  lemma OthersOutstanding(x: set<nat>, b: nat)
    ensures b !in x ==> x - {b} == x
  {
  }

  lemma RecordSampleHeld(c: Config, s: State, e: EngineEvent)
    requires WellFormed(s.tree) && Reserved(s) && Disciplined(s, e) && e.TokenSampled? && RecordSample(c, s, e).Ok?
    ensures HeldSince(s.tree, RecordSample(c, s, e).value.0)
  {
    hide WellFormed, RecordSample;
    RecordSampleFields(c, s, e);
    FewerOutstanding(s.outstanding, e.branch);
    OthersOutstanding(s.outstanding, e.branch);
  }

  /** One token spent, and every other branch as it was. */
  lemma RecordSampleFields(c: Config, s: State, e: EngineEvent)
    requires WellFormed(s.tree) && e.TokenSampled? && RecordSample(c, s, e).Ok?
    ensures var r := RecordSample(c, s, e).value.0;
            && r.outstanding == s.outstanding - {e.branch} && r.queue == DropContinue(s.queue, e.branch)
            && r.budget.branchLimit == s.budget.branchLimit && r.budget.Remaining() == s.budget.Remaining() - 1
            && r.pending.Keys <= s.pending.Keys + {e.branch}
            && |r.tree.nodes| == |s.tree.nodes|
            && forall b: nat :: b < |s.tree.nodes| && b != e.branch ==> r.tree.nodes[b].tokens == s.tree.nodes[b].tokens
  {
    hide WellFormed, DropContinue, ScoreOf, Deadline;
  }

  lemma ApplyTokenHeld(c: Config, s: State, e: EngineEvent)
    requires WellFormed(s.tree) && Reserved(s) && Disciplined(s, e) && e.TokenSampled? && ApplyToken(c, s, e).Ok?
    ensures HeldSince(s.tree, ApplyToken(c, s, e).value.s)
  {
    RecordSampleHeld(c, s, e);
    hide WellFormed, RecordSample, FinalizeAndReclaim, Reserved;
    var s1 := RecordSample(c, s, e).value.0;
    var s2 := if c.scorer.None? && !e.eos && e.entropy.Some? && c.adaptive.Some?
      then s1.(adaptivePending := s1.adaptivePending + {e.branch}) else s1;
    if FinalizeAndReclaim(s2, e.branch).Ok? {
      FinalizeHeld(s.tree, s2, e.branch);
    }
  }

  lemma ApplyEventHeld(c: Config, s: State, e: EngineEvent)
    requires WellFormed(s.tree) && Reserved(s) && Disciplined(s, e) && ApplyEvent(c, s, e).Ok?
    ensures HeldSince(s.tree, ApplyEvent(c, s, e).value.s)
  {
    match e {
      case TokenSampled(_, _, _, _, _) => ApplyTokenHeld(c, s, e);
      case BranchExhausted(b) =>
        var s1 := RemoveQueuedContinue(s, b);
        assert |s.outstanding - {b}| <= |s.outstanding|;
        FinalizeHeld(s.tree, s1.(pending := s1.pending - {b}, terminals := s1.terminals - {b},
                                 adaptivePending := s1.adaptivePending - {b}), b);
      case ValueScored(score, b) => ApplyScoreHeld(c, s, b, score);
    }
  }

  lemma ApplyScoreHeld(c: Config, s: State, b: nat, score: Float)
    requires WellFormed(s.tree) && Reserved(s) && ApplyScore(c, s, b, score).Ok?
    ensures HeldSince(s.tree, ApplyScore(c, s, b, score).value.s)
  {
    var valued := RecordValue(s.tree, b, score).value;
    SameStructureWellFormed(s.tree, valued);
    var s1 := s.(tree := valued, pending := s.pending - {b}, terminals := s.terminals - {b});
    assert HeldSince(s.tree, s1);
    hide WellFormed, FinalizeAndReclaim;
    if FinalizeAndReclaim(s1, b).Ok? {
      FinalizeHeld(s.tree, s1, b);
    }
  }

  /** Enqueuing an event's commands settles what was held since its start. */
  lemma SettleHeld(start: Tree, s: State, commands: seq<Command>)
    requires WellFormed(start) && HeldSince(start, s) && Replays(start, commands, s.tree)
    ensures Reserved(Enqueue(s, commands))
  {
    forall b | b in s.outstanding && !Ready(s, b)
      ensures Touched(commands, b)
    {
      ReplayTouches(start, commands, b);
    }
    EnqueueReserved(s, commands);
  }

  lemma FinishEventReserved(c: Config, s: State, e: EngineEvent, ph: Phase)
    requires WellFormed(s.tree) && Lockstep.PhaseInStep(s, e, ph) && HeldSince(s.tree, ph.s)
    requires ConfigOk(c) && Honest(c.policy)
    requires e.TokenSampled? && e.entropy.Some? ==> e.entropy.value.Finite?
    requires FinishEvent(c, ph, e).Ok?
    ensures Reserved(FinishEvent(c, ph, e).value)
  {
    if ph.exhausted {
      FinishExhaustedReserved(c, s, e, ph);
    } else if e.TokenSampled? && e.eos {
      var s1 := RetainLive(ph.s);
      HeldThroughTokens(s.tree, ph.s, s1);
      SettleHeld(s.tree, s1, ph.emitted);
    } else {
      FinishContinuingReserved(c, s, e, ph);
    }
  }

  lemma FinishExhaustedReserved(c: Config, s: State, e: EngineEvent, ph: Phase)
    requires WellFormed(s.tree) && Lockstep.PhaseInStep(s, e, ph) && HeldSince(s.tree, ph.s) && ConfigOk(c)
    requires e.TokenSampled? && e.entropy.Some? ==> e.entropy.value.Finite?
    requires ph.exhausted && FinishEvent(c, ph, e).Ok?
    ensures Reserved(FinishEvent(c, ph, e).value)
  {
    TerminateTreeSpec(ph.s.tree, TreeBudgetExhausted);
    var ended := TerminateTree(ph.s.tree, TreeBudgetExhausted).value;
    hide WellFormed, NoOrphans, TerminateTree, Reserved, HeldSince, AllTerminal, Replays;
    var final := ph.s.(tree := ended.tree, pending := map[], terminals := map[], adaptivePending := {});
    EndsKeepTokens(ph.s.tree, ended.tree);
    HeldThroughTokens(s.tree, ph.s, final);
    ReplaysTransitive(s.tree, ph.emitted, ph.s.tree, ended.commands, ended.tree);
    SettleHeld(s.tree, final, ph.emitted + ended.commands);
  }

  lemma FinishContinuingReserved(c: Config, s: State, e: EngineEvent, ph: Phase)
    requires WellFormed(s.tree) && Lockstep.PhaseInStep(s, e, ph) && HeldSince(s.tree, ph.s)
    requires ConfigOk(c) && Honest(c.policy)
    requires e.TokenSampled? && e.entropy.Some? ==> e.entropy.value.Finite?
    requires !ph.exhausted && !(e.TokenSampled? && e.eos) && FinishEvent(c, ph, e).Ok?
    ensures Reserved(FinishEvent(c, ph, e).value)
  {
    var pruned, d := FinishContinuingForm(c, ph, e);
    Lockstep.FinishReplays(c, s, e, ph, pruned, d);
    SpeculativePruneSpec(ph.s.tree, c.margin);
    EndsKeepTokens(ph.s.tree, pruned.tree);
    hide WellFormed, NoOrphans, SpeculativePrune, FinishEvent, Reserved, HeldSince, Replays, PolicyPhase, KeepsTokens, OnlyEnds;
    var s2 := RetainLive(ph.s).(tree := pruned.tree);
    HeldThroughTokens(s.tree, ph.s, s2);
    if s2.terminals == map[] {
      PolicyPhaseKeepsTokens(c, s2, e);
      HeldThroughTokens(s.tree, s2, d.s);
    }
    KeepsTokensRefl(d.s.tree);
    HeldThroughTokens(s.tree, d.s, RetainLive(d.s));
    SettleHeld(s.tree, RetainLive(d.s), ph.emitted + pruned.commands + d.commands);
  }

  lemma KeepsTokensRefl(t: Tree)
    ensures KeepsTokens(t, t)
  {
  }

  /** An accepted event from a disciplined engine keeps the reservation. */
  lemma ProcessEventReserved(c: Config, s: State, e: EngineEvent)
    requires WellFormed(s.tree) && NoOrphans(s.tree) && ConfigOk(c) && Honest(c.policy)
    requires Reserved(s) && Disciplined(s, e) && ProcessEvent(c, s, e).Ok?
    ensures Reserved(ProcessEvent(c, s, e).value)
  {
    Lockstep.ApplyEventInStep(c, s, e);
    ApplyEventHeld(c, s, e);
    hide WellFormed, NoOrphans, Reserved, ApplyEvent, FinishEvent, Lockstep.PhaseInStep, HeldSince;
    FinishEventReserved(c, s, e, ApplyEvent(c, s, e).value);
  }

  /** What a held Continue is worth: a finite token for that branch passes every check that concerns
      the branch or the budget. Only the engine's numbers and the 64-bit event counter remain. */
  lemma HeldTokenIsTaken(c: Config, s: State, e: EngineEvent)
    requires WellFormed(s.tree) && Reserved(s) && e.TokenSampled? && e.branch in s.outstanding
    requires e.logprob.Finite? && (e.entropy.Some? ==> e.entropy.value.Finite? && e.entropy.value.value >= 0.0)
    requires s.budget.totalLimit <= U64_MAX && s.budget.branchLimit <= U64_MAX
    requires c.scorer.Some? ==> forall n: BranchNode :: c.scorer.value(n).Finite?
    requires s.accepted + 1 + c.maxPendingEvents <= U64_MAX
    ensures CheckEvent(c, s, e).Ok?
    ensures Consume(s.budget, e.branch, s.tree.nodes[e.branch].tokens).Ok?
    ensures RecordSample(c, s, e).Ok?
    ensures ApplyToken(c, s, e).Ok?
  {
    assert Ready(s, e.branch) && NodeOk(s.tree, e.branch);
    assert |s.outstanding| > 0;
    SpentIsRecorded(c, s, e);
  }

  /** No step after spending the budget can fail: the token is recorded, and whatever terminal it
      brings is carried out. */
  lemma SpentIsRecorded(c: Config, s: State, e: EngineEvent)
    requires WellFormed(s.tree) && e.TokenSampled? && CheckEvent(c, s, e).Ok?
    requires ProjectedAfterToken(s.tree, e.branch, e.logprob).Ok?
    requires c.scorer.Some? ==> c.scorer.value(ProjectedAfterToken(s.tree, e.branch, e.logprob).value).Finite?
    requires c.scorer.None? && !e.eos ==> Deadline(c, s).Ok?
    requires Consume(s.budget, e.branch, s.tree.nodes[e.branch].tokens).Ok?
    ensures RecordSample(c, s, e).Ok?
    ensures ApplyToken(c, s, e).Ok?
  {
    assert NodeOk(s.tree, e.branch);
    assert RecordSample(c, s, e).Ok?;
    var r := RecordSample(c, s, e).value.0;
    assert Finalize(r.tree, e.branch).Ok?;
  }

  // ---------------------------------------------------------------------------
  // Adaptive forks
  // ---------------------------------------------------------------------------

  /** Distinct ready branches without a Continue, few enough for the budget that is not reserved. */
  ghost predicate Takeable(s: State, ids: seq<nat>) {
    && Distinct(ids)
    && |s.outstanding| + |ids| <= s.budget.Remaining()
    && forall k :: 0 <= k < |ids| ==> s.tree.Has(ids[k]) && Ready(s, ids[k]) && ids[k] !in s.outstanding
  }

  lemma TakeOne(s: State, ids: seq<nat>)
    requires Takeable(s, ids) && ids != []
    ensures EnqueueOne(s, Continue(ids[0])) == s.(outstanding := s.outstanding + {ids[0]}, queue := s.queue + [Continue(ids[0])])
    ensures Takeable(EnqueueOne(s, Continue(ids[0])), ids[1..])
  {
    var next := EnqueueOne(s, Continue(ids[0]));
    assert |next.outstanding| == |s.outstanding| + 1;
    forall k | 0 <= k < |ids[1..]|
      ensures next.tree.Has(ids[1..][k]) && Ready(next, ids[1..][k]) && ids[1..][k] !in next.outstanding
    {
      assert ids[1..][k] == ids[k + 1] != ids[0];
    }
  }

  /** Such Continues are all taken. */
  lemma {:induction false} ContinuesAreTaken(s: State, ids: seq<nat>)
    requires Takeable(s, ids)
    ensures Enqueue(s, ContinueEach(ids)) ==
            s.(outstanding := s.outstanding + Elements(ids), queue := s.queue + ContinueEach(ids))
    decreases |ids|
  {
    hide Takeable, EnqueueOne, ContinueEach, Elements;
    ContinueEachForm(s.queue, s.outstanding, ids);
    if ids != [] {
      TakeOne(s, ids);
      ContinuesAreTaken(EnqueueOne(s, Continue(ids[0])), ids[1..]);
    }
  }

  lemma ContinueEachForm(queue: seq<Command>, outstanding: set<nat>, ids: seq<nat>)
    ensures ids == [] ==> ContinueEach(ids) == [] && queue + ContinueEach(ids) == queue && outstanding + Elements(ids) == outstanding
    ensures ids != [] ==>
              && ContinueEach(ids) != []
              && ContinueEach(ids)[0] == Continue(ids[0])
              && ContinueEach(ids)[1..] == ContinueEach(ids[1..])
              && queue + [Continue(ids[0])] + ContinueEach(ids[1..]) == queue + ContinueEach(ids)
              && outstanding + {ids[0]} + Elements(ids[1..]) == outstanding + Elements(ids)
  {
    if ids != [] {
      ElementsOfRest(ids);
      assert ContinueEach(ids) == [Continue(ids[0])] + ContinueEach(ids[1..]);
    }
  }

  lemma ElementsOfRest(ids: seq<nat>)
    requires ids != []
    ensures Elements(ids) == {ids[0]} + Elements(ids[1..])
  {
    assert ids == [ids[0]] + ids[1..];
  }

  /** The children of a fork that the adaptive controller planned can all decode their first token: when the
      policy continues every child, none of these Continues is dropped. */
  lemma PlannedChildrenContinue(a: AdaptiveForkConfig, s: State, b: nat, entropy: real, width: nat)
    requires WellFormed(s.tree) && AdaptiveConfigOk(a)
    requires PlannedWidth(a, s.lastFork, b, entropy, s.tree, s.budget, |s.outstanding|) == Ok(Some(width))
    requires Fork(s.tree, b, width).Ok?
    requires (forall x :: x in s.outstanding || x in s.pending ==> x < |s.tree.nodes|)
    ensures var children := IdsFrom(|s.tree.nodes|, width);
            var r := Enqueue(s.(tree := Fork(s.tree, b, width).value), [ForkAt(b, width)] + ContinueEach(children));
            && r.outstanding == s.outstanding - {b} + Elements(children)
            && r.queue == DropContinue(s.queue, b) + [ForkAt(b, width)] + ContinueEach(children)
  {
    hide PlannedWidth, WellFormed, Fork, Takeable, ContinueEach, DropContinue;
    PlannedForkIsFunded(a, s.lastFork, b, entropy, s.tree, s.budget, |s.outstanding|);
    var children := IdsFrom(|s.tree.nodes|, width);
    var forked := s.(tree := Fork(s.tree, b, width).value);
    var commands := [ForkAt(b, width)] + ContinueEach(children);
    assert commands[0] == ForkAt(b, width) && commands[1..] == ContinueEach(children);
    ChildrenTakeable(s, b, width);
    ContinuesAreTaken(EnqueueOne(forked, ForkAt(b, width)), children);
  }

  lemma ChildrenTakeable(s: State, b: nat, width: nat)
    requires WellFormed(s.tree) && Fork(s.tree, b, width).Ok?
    requires |s.outstanding| + width <= s.budget.Remaining() && s.tree.nodes[b].tokens < s.budget.branchLimit
    requires forall x :: x in s.outstanding || x in s.pending ==> x < |s.tree.nodes|
    ensures Takeable(EnqueueOne(s.(tree := Fork(s.tree, b, width).value), ForkAt(b, width)), IdsFrom(|s.tree.nodes|, width))
  {
    var children := IdsFrom(|s.tree.nodes|, width);
    var next := EnqueueOne(s.(tree := Fork(s.tree, b, width).value), ForkAt(b, width));
    FewerOutstanding(s.outstanding, b);
    forall k | 0 <= k < |children|
      ensures next.tree.Has(children[k]) && Ready(next, children[k]) && children[k] !in next.outstanding
    {
      assert next.tree.nodes[children[k]] == ChildOf(s.tree.nodes[b], children[k]);
    }
  }
}
