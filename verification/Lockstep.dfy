/** The command stream rebuilds the scheduler's tree: what one event keeps. */
module Lockstep {
  import opened Common
  import opened Arena
  import opened Commands
  import opened CommandStream
  import opened Ranking
  import opened Lifecycle
  import opened Termination
  import opened Policies
  import opened Scheduler

  // ---------------------------------------------------------------------------
  // The queue
  // ---------------------------------------------------------------------------

  lemma DropFromLog(root: Tree, polled: seq<Command>, queue: seq<Command>, b: nat, t: Tree)
    requires Replays(root, polled + queue, t)
    ensures Replays(root, polled + DropContinue(queue, b), t)
  {
    ReplayConcat(root, polled, queue);
    ReplayConcat(root, polled, DropContinue(queue, b));
    DropContinueKeepsReplay(Replay(root, polled).value, queue, b);
  }

  lemma EnqueueOneLog(root: Tree, polled: seq<Command>, s: State, c: Command, t: Tree)
    requires Replays(root, polled + s.queue, t) && Apply(t, c).Ok?
    ensures Replays(root, polled + EnqueueOne(s, c).queue, Apply(t, c).value)
  {
    var next := Apply(t, c).value;
    ApplyKeepsCap(t, c);
    if c.Continue? {
      if CanContinue(s, c.branch) {
        ReplaysOne(t, c, next);
        ReplaysTransitive(root, polled + s.queue, t, [c], next);
        assert polled + (s.queue + [c]) == polled + s.queue + [c];
      }
    } else {
      var kept := DropContinue(s.queue, c.branch);
      DropFromLog(root, polled, s.queue, c.branch, t);
      ReplaysOne(t, c, next);
      ReplaysTransitive(root, polled + kept, t, [c], next);
      assert polled + (kept + [c]) == polled + kept + [c];
    }
  }

  /** Enqueuing commands that replay from the logged tree keeps the log in step, whatever Continues
      the queue drops or refuses. */
  lemma {:induction false} EnqueueLog(root: Tree, polled: seq<Command>, s: State, commands: seq<Command>, t: Tree)
    requires Replays(root, polled + s.queue, t) && Replay(t, commands).Ok?
    ensures Replays(root, polled + Enqueue(s, commands).queue, Replay(t, commands).value)
    decreases |commands|
  {
    if commands != [] {
      EnqueueOneLog(root, polled, s, commands[0], t);
      EnqueueLog(root, polled, EnqueueOne(s, commands[0]), commands[1..], Apply(t, commands[0]).value);
    }
  }

  lemma EnqueueInStep(root: Tree, polled: seq<Command>, s: State, commands: seq<Command>, t: Tree)
    requires Replays(root, polled + s.queue, t) && Replays(t, commands, s.tree)
    ensures Replays(root, polled + Enqueue(s, commands).queue, Enqueue(s, commands).tree)
  {
    EnqueueLog(root, polled, s, commands, t);
    EnqueueKeepsTree(s, commands);
    SameStructureIsEquivalence(Replay(root, polled + Enqueue(s, commands).queue).value, Replay(t, commands).value, s.tree);
  }

  // ---------------------------------------------------------------------------
  // The parts of an event
  // ---------------------------------------------------------------------------

  lemma FinalizeAndReclaimSpec(s: State, b: nat)
    requires WellFormed(s.tree) && FinalizeAndReclaim(s, b).Ok?
    ensures var ph := FinalizeAndReclaim(s, b).value;
            && ph.s == s.(tree := ph.s.tree)
            && EndsBy(s.tree, Effect(ph.s.tree, ph.emitted))
            && (NoOrphans(s.tree) ==> NoOrphans(ph.s.tree))
            && !ph.exhausted
  {
    var done := Finalize(s.tree, b).value;
    FinalizeKeepsWellFormed(s.tree, b);
    EndsOne(s.tree, b, FinalizeBranch(b));
    ReclaimSpec(done, b);
    EndsThen(s.tree, Effect(done, [FinalizeBranch(b)]), Reclaim(done, b));
  }

  /** What the first half of an event leaves: commands that replay, no orphan, and a queue from which
      at most the Continues of the event's branch are gone. */
  ghost predicate PhaseInStep(s: State, e: EngineEvent, ph: Phase) {
    && WellFormed(ph.s.tree)
    && NoOrphans(ph.s.tree)
    && Replays(s.tree, ph.emitted, ph.s.tree)
    && (ph.s.queue == s.queue || ph.s.queue == DropContinue(s.queue, e.branch))
  }

  lemma RecordSampleStructure(c: Config, s: State, e: EngineEvent)
    requires WellFormed(s.tree) && e.TokenSampled? && RecordSample(c, s, e).Ok?
    ensures var r := RecordSample(c, s, e).value.0;
            && WellFormed(r.tree)
            && SameStructure(s.tree, r.tree)
            && r.tree.cap == s.tree.cap
            && r.queue == DropContinue(s.queue, e.branch)
            && (NoOrphans(s.tree) ==> NoOrphans(r.tree))
  {
    var r := RecordSample(c, s, e).value.0;
    assert SameStructure(s.tree, r.tree);
    SameStructureWellFormed(s.tree, r.tree);
  }

  lemma FinalizePhase(s: State, e: EngineEvent, s1: State)
    requires WellFormed(s.tree) && WellFormed(s1.tree) && NoOrphans(s1.tree)
    requires SameStructure(s.tree, s1.tree) && s.tree.cap == s1.tree.cap
    requires s1.queue == s.queue || s1.queue == DropContinue(s.queue, e.branch)
    requires FinalizeAndReclaim(s1, e.branch).Ok?
    ensures PhaseInStep(s, e, FinalizeAndReclaim(s1, e.branch).value)
  {
    FinalizeAndReclaimSpec(s1, e.branch);
    var ph := FinalizeAndReclaim(s1, e.branch).value;
    ReplaysNothing(s.tree, s1.tree);
    ReplaysTransitive(s.tree, [], s1.tree, ph.emitted, ph.s.tree);
    assert [] + ph.emitted == ph.emitted;
  }

  lemma ApplyEventInStep(c: Config, s: State, e: EngineEvent)
    requires WellFormed(s.tree) && NoOrphans(s.tree) && ApplyEvent(c, s, e).Ok?
    ensures PhaseInStep(s, e, ApplyEvent(c, s, e).value)
  {
    match e {
      case TokenSampled(_, _, _, _, _) => ApplyTokenInStep(c, s, e);
      case BranchExhausted(b) =>
        var s1 := RemoveQueuedContinue(s, b);
        var s2 := s1.(pending := s1.pending - {b}, terminals := s1.terminals - {b},
                      adaptivePending := s1.adaptivePending - {b});
        FinalizePhase(s, e, s2);
      case ValueScored(score, b) => ApplyScoreInStep(c, s, e);
    }
  }

  lemma ApplyTokenInStep(c: Config, s: State, e: EngineEvent)
    requires WellFormed(s.tree) && NoOrphans(s.tree) && e.TokenSampled? && ApplyToken(c, s, e).Ok?
    ensures PhaseInStep(s, e, ApplyToken(c, s, e).value)
  {
    RecordSampleStructure(c, s, e);
    hide WellFormed, NoOrphans, RecordSample, FinalizeAndReclaim;
    var s1 := RecordSample(c, s, e).value.0;
    var s2 := if c.scorer.None? && !e.eos && e.entropy.Some? && c.adaptive.Some?
      then s1.(adaptivePending := s1.adaptivePending + {e.branch}) else s1;
    ReplaysNothing(s.tree, s1.tree);
    if FinalizeAndReclaim(s2, e.branch).Ok? {
      FinalizePhase(s, e, s2);
    }
  }

  lemma ApplyScoreInStep(c: Config, s: State, e: EngineEvent)
    requires WellFormed(s.tree) && NoOrphans(s.tree) && e.ValueScored? && ApplyScore(c, s, e.branch, e.score).Ok?
    ensures PhaseInStep(s, e, ApplyScore(c, s, e.branch, e.score).value)
  {
    var b := e.branch;
    var valued := RecordValue(s.tree, b, e.score).value;
    SameStructureWellFormed(s.tree, valued);
    ReplaysNothing(s.tree, valued);
    var s1 := s.(tree := valued, pending := s.pending - {b}, terminals := s.terminals - {b});
    hide WellFormed, FinalizeAndReclaim;
    if FinalizeAndReclaim(s1, b).Ok? {
      FinalizePhase(s, e, s1);
    }
  }

  /** The policy's validated commands, followed by reclamation, replay and leave no orphan. */
  lemma PolicyPhaseInStep(c: Config, s: State, e: EngineEvent)
    requires WellFormed(s.tree) && NoOrphans(s.tree) && ConfigOk(c)
    requires e.TokenSampled? && e.entropy.Some? ==> e.entropy.value.Finite?
    requires PolicyPhase(c, s, e).Ok?
    ensures var d := PolicyPhase(c, s, e).value;
            && WellFormed(d.s.tree)
            && NoOrphans(d.s.tree)
            && Replays(s.tree, d.commands, d.s.tree)
            && d.s.queue == s.queue
  {
    var s1 := if e.ValueScored? then s.(adaptivePending := s.adaptivePending - {e.branch}) else s;
    var d := PolicyCommands(c, s1, e, e.ValueScored? && e.branch in s.adaptivePending).value;
    PolicyCommandsKeepQueue(c, s1, e, e.ValueScored? && e.branch in s.adaptivePending);
    hide PolicyCommands, WellFormed;
    ReclaimAfterCommands(s.tree, d.s.tree, d.commands);
  }

  lemma PolicyCommandsKeepQueue(c: Config, s: State, e: EngineEvent, followup: bool)
    requires WellFormed(s.tree) && ConfigOk(c)
    requires e.TokenSampled? && e.entropy.Some? ==> e.entropy.value.Finite?
    requires PolicyCommands(c, s, e, followup).Ok?
    ensures var r := PolicyCommands(c, s, e, followup).value.s;
            r == s.(tree := r.tree, lastFork := r.lastFork, calls := r.calls) && r.tree.cap == s.tree.cap
  {
  }

  lemma ReclaimAfterCommands(before: Tree, after: Tree, commands: seq<Command>)
    requires WellFormed(before) && NoOrphans(before) && before.cap == after.cap
    requires ValidatePolicyCommands(before, after, commands).Ok?
    ensures WellFormed(after) && InTree(after, TerminatedBy(commands))
    ensures var up := ReclaimEach(after, TerminatedBy(commands));
            && WellFormed(up.tree)
            && NoOrphans(up.tree)
            && Replays(before, commands + up.commands, up.tree)
  {
    ValidatedTree(before, after, commands);
    var bs := TerminatedBy(commands);
    ReclaimEachSpec(after, bs);
    var up := ReclaimEach(after, bs);
    ReplaysTransitive(before, commands, after, up.commands, up.tree);
    forall i: nat
      ensures !Orphan(up.tree, i)
    {
      if Orphan(after, i) {
        ValidatedOrphans(before, after, commands, i);
      }
    }
  }

  lemma ValidatedOrphans(before: Tree, after: Tree, commands: seq<Command>, i: nat)
    requires WellFormed(before) && NoOrphans(before) && Replays(before, commands, after) && Orphan(after, i)
    ensures exists k ::
              && 0 <= k < |TerminatedBy(commands)|
              && TerminatedBy(commands)[k] < |after.nodes|
              && after.nodes[TerminatedBy(commands)[k]].parent == Some(i)
  {
    var expected := Replay(before, commands).value;
    ReplayKeepsWellFormed(before, commands);
    ReplayKeepsCap(before, commands);
    SameStructureWellFormed(expected, after);
    ReplayOrphans(before, commands, i);
    var bs := TerminatedBy(commands);
    var k :| 0 <= k < |bs| && bs[k] < |expected.nodes| && expected.nodes[bs[k]].parent == Some(i);
    assert SameShape(expected.nodes[bs[k]], after.nodes[bs[k]]);
  }

  // ---------------------------------------------------------------------------
  // Whole events
  // ---------------------------------------------------------------------------

  /** Replaying everything handed out and then queued, from `root`, rebuilds the state's own tree, and no
      expanded node of that tree has lost all its live children. */
  ghost predicate StepsTo(root: Tree, polled: seq<Command>, s: State) {
    && WellFormed(s.tree)
    && NoOrphans(s.tree)
    && Replays(root, polled + s.queue, s.tree)
  }

  lemma StepsToFacts(root: Tree, polled: seq<Command>, s: State)
    requires StepsTo(root, polled, s)
    ensures WellFormed(s.tree) && s.tree.cap == root.cap
  {
  }

  lemma StepsToNoOrphans(root: Tree, polled: seq<Command>, s: State)
    requires StepsTo(root, polled, s)
    ensures NoOrphans(s.tree)
  {
  }

  lemma PhaseLog(root: Tree, polled: seq<Command>, s: State, e: EngineEvent, ph: Phase)
    requires StepsTo(root, polled, s) && PhaseInStep(s, e, ph)
    ensures Replays(root, polled + ph.s.queue, s.tree)
  {
    if ph.s.queue != s.queue {
      DropFromLog(root, polled, s.queue, e.branch, s.tree);
    }
  }

  lemma EnqueueStepsTo(root: Tree, polled: seq<Command>, s: State, commands: seq<Command>, t: Tree)
    requires WellFormed(s.tree) && NoOrphans(s.tree)
    requires Replays(root, polled + s.queue, t) && Replays(t, commands, s.tree)
    ensures StepsTo(root, polled, Enqueue(s, commands))
  {
    EnqueueInStep(root, polled, s, commands, t);
    EnqueueKeepsTree(s, commands);
  }

  lemma AllTerminalNoOrphans(t: Tree)
    requires AllTerminal(t)
    ensures NoOrphans(t)
  {
    forall i: nat
      ensures !Orphan(t, i)
    {
      assert i < |t.nodes| ==> t.TerminalAt(i);
    }
  }

  lemma TerminateStepsTo(root: Tree, polled: seq<Command>, s: State, before: Tree, emitted: seq<Command>, ended: Effect,
                         reason: KillReason, final: State)
    requires WellFormed(s.tree) && Replays(root, polled + s.queue, before) && Replays(before, emitted, s.tree)
    requires TerminateTree(s.tree, reason) == Ok(ended)
    requires final.tree == ended.tree && final.queue == s.queue
    ensures StepsTo(root, polled, Enqueue(final, emitted + ended.commands))
  {
    TerminateTreeSpec(s.tree, reason);
    AllTerminalNoOrphans(ended.tree);
    ReplaysTransitive(before, emitted, s.tree, ended.commands, ended.tree);
    EnqueueStepsTo(root, polled, final, emitted + ended.commands, before);
  }

  lemma FinishExhausted(root: Tree, polled: seq<Command>, c: Config, s: State, e: EngineEvent, ph: Phase)
    requires StepsTo(root, polled, s) && PhaseInStep(s, e, ph) && ConfigOk(c)
    requires e.TokenSampled? && e.entropy.Some? ==> e.entropy.value.Finite?
    requires ph.exhausted && FinishEvent(c, ph, e).Ok?
    ensures StepsTo(root, polled, FinishEvent(c, ph, e).value)
  {
    PhaseLog(root, polled, s, e, ph);
    hide WellFormed, NoOrphans, Replays;
    var ended := TerminateTree(ph.s.tree, TreeBudgetExhausted).value;
    var final := ph.s.(tree := ended.tree, pending := map[], terminals := map[], adaptivePending := {});
    TerminateStepsTo(root, polled, ph.s, s.tree, ph.emitted, ended, TreeBudgetExhausted, final);
  }

  /** The second half of an event that goes on: what is pruned, what the policy decides. */
  lemma FinishContinuing(root: Tree, polled: seq<Command>, c: Config, s: State, e: EngineEvent, ph: Phase)
    requires StepsTo(root, polled, s) && PhaseInStep(s, e, ph) && ConfigOk(c)
    requires e.TokenSampled? && e.entropy.Some? ==> e.entropy.value.Finite?
    requires !ph.exhausted && !(e.TokenSampled? && e.eos) && FinishEvent(c, ph, e).Ok?
    ensures StepsTo(root, polled, FinishEvent(c, ph, e).value)
  {
    PhaseLog(root, polled, s, e, ph);
    var pruned, d := FinishContinuingForm(c, ph, e);
    FinishReplays(c, s, e, ph, pruned, d);
    hide WellFormed, NoOrphans, Replays, FinishEvent, OnlyEnds, Enqueue;
    EnqueueStepsTo(root, polled, RetainLive(d.s), ph.emitted + pruned.commands + d.commands, s.tree);
  }

  /** All commands of an event together replay from the tree before it to the tree after it. */
  lemma FinishReplays(c: Config, s: State, e: EngineEvent, ph: Phase, pruned: Effect, d: Decision)
    requires PhaseInStep(s, e, ph) && ConfigOk(c)
    requires e.TokenSampled? && e.entropy.Some? ==> e.entropy.value.Finite?
    requires SpeculativePrune(ph.s.tree, c.margin) == Ok(pruned) && WellFormed(pruned.tree)
    requires var s2 := RetainLive(ph.s).(tree := pruned.tree);
             if s2.terminals == map[] then PolicyPhase(c, s2, e) == Ok(d) else d == Decision(s2, [])
    ensures WellFormed(d.s.tree) && NoOrphans(d.s.tree)
    ensures Replays(s.tree, ph.emitted + pruned.commands + d.commands, d.s.tree)
    ensures d.s.queue == ph.s.queue
  {
    SpeculativePruneSpec(ph.s.tree, c.margin);
    var s2 := RetainLive(ph.s).(tree := pruned.tree);
    hide WellFormed, NoOrphans, Replays, PolicyPhase, OnlyEnds, SpeculativePrune;
    ReplaysTransitive(s.tree, ph.emitted, ph.s.tree, pruned.commands, pruned.tree);
    if s2.terminals == map[] {
      PolicyPhaseInStep(c, s2, e);
      ReplaysTransitive(s.tree, ph.emitted + pruned.commands, pruned.tree, d.commands, d.s.tree);
    } else {
      assert ph.emitted + pruned.commands + [] == ph.emitted + pruned.commands;
    }
  }

  lemma ProcessEventInStep(root: Tree, polled: seq<Command>, c: Config, s: State, e: EngineEvent)
    requires StepsTo(root, polled, s) && ConfigOk(c) && ProcessEvent(c, s, e).Ok?
    ensures StepsTo(root, polled, ProcessEvent(c, s, e).value)
  {
    ApplyEventInStep(c, s, e);
    var ph := ApplyEvent(c, s, e).value;
    hide WellFormed, ApplyEvent, PhaseInStep, StepsTo;
    if ph.exhausted {
      FinishExhausted(root, polled, c, s, e, ph);
    } else if e.TokenSampled? && e.eos {
      FinishAfterEos(root, polled, c, s, e, ph);
    } else {
      FinishContinuing(root, polled, c, s, e, ph);
    }
  }

  lemma FinishAfterEos(root: Tree, polled: seq<Command>, c: Config, s: State, e: EngineEvent, ph: Phase)
    requires StepsTo(root, polled, s) && PhaseInStep(s, e, ph) && ConfigOk(c)
    requires e.TokenSampled? && (e.entropy.Some? ==> e.entropy.value.Finite?)
    requires !ph.exhausted && e.eos && FinishEvent(c, ph, e).Ok?
    ensures StepsTo(root, polled, FinishEvent(c, ph, e).value)
  {
    PhaseLog(root, polled, s, e, ph);
    hide WellFormed, NoOrphans, Replays;
    EnqueueStepsTo(root, polled, RetainLive(ph.s), ph.emitted, s.tree);
  }

  lemma {:induction false} ResolveEachInStep(root: Tree, polled: seq<Command>, c: Config, s: State, expired: seq<nat>)
    requires StepsTo(root, polled, s) && ConfigOk(c) && ResolveEach(c, s, expired).Ok?
    ensures StepsTo(root, polled, ResolveEach(c, s, expired).value)
    decreases |expired|
  {
    if expired != [] {
      hide ProcessEvent, StepsTo;
      if expired[0] !in s.pending {
        ResolveEachInStep(root, polled, c, s, expired[1..]);
      } else {
        var e := ValueScored(Finite(s.tree.nodes[expired[0]].logprob), expired[0]);
        ProcessEventInStep(root, polled, c, s, e);
        ResolveEachInStep(root, polled, c, ProcessEvent(c, s, e).value, expired[1..]);
      }
    }
  }

  lemma FeedEventInStep(root: Tree, polled: seq<Command>, c: Config, s: State, e: EngineEvent)
    requires StepsTo(root, polled, s) && ConfigOk(c) && FeedEvent(c, s, e).Ok?
    ensures StepsTo(root, polled, FeedEvent(c, s, e).value)
  {
    hide ProcessEvent, ResolveEach, ExpiredBelow;
    ProcessEventInStep(root, polled, c, s, e);
    var counted := ProcessEvent(c, s, e).value.(accepted := s.accepted + 1);
    ResolveEachInStep(root, polled, c, counted, ExpiredBelow(counted, |counted.tree.nodes|));
  }

  /** Draining never fails, keeps the log in step and leaves every branch terminal. */
  lemma DrainInStep(root: Tree, polled: seq<Command>, s: State)
    requires StepsTo(root, polled, s)
    ensures Drain(s).Ok?
    ensures StepsTo(root, polled, Drain(s).value)
    ensures AllTerminal(Drain(s).value.tree)
  {
    TerminateTreeSpec(s.tree, Drained);
    var ended := TerminateTree(s.tree, Drained).value;
    var cleared := s.(tree := ended.tree, outstanding := {}, pending := map[], terminals := map[], adaptivePending := {});
    ReplaysNothing(s.tree, s.tree);
    hide WellFormed, NoOrphans, Replays, AllTerminal;
    TerminateStepsTo(root, polled, s, s.tree, [], ended, Drained, cleared);
    assert [] + ended.commands == ended.commands;
    EnqueueKeepsTree(cleared, ended.commands);
  }
}
