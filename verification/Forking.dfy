/** When a scheduler forks, asks its policy and queues a Continue (scheduler/src/scheduler.rs, policy_commands and
    enqueue_commands). */
module Forking {
  import opened Common
  import opened Arena
  import opened Commands
  import opened CommandStream
  import opened Ranking
  import opened Lifecycle
  import opened Termination
  import opened Adaptive
  import opened Policies
  import opened Mcts
  import opened Scheduler
  import opened Values

  ghost predicate NoFork(commands: seq<Command>) {
    forall k :: 0 <= k < |commands| ==> !commands[k].ForkAt?
  }

  /** Asked not to fork, or after an adaptive fork, the policy forks nothing. */
  ghost predicate ForksWhenAsked(p: PolicyFn) {
    forall n: nat, h: PolicyCall, e: EngineEvent, t: GoodTree :: !h.OnEvent? && p(n, h, e, t).Ok? ==> NoFork(p(n, h, e, t).value.commands)
  }

  lemma KillsAreNoForks(t: Tree, e: Effect)
    requires KillsOnly(t, e)
    ensures NoFork(e.commands)
  {
    forall k | 0 <= k < |e.commands| ensures !e.commands[k].ForkAt? { assert e.commands[k] in e.commands; }
  }

  lemma BeamPruneForksNothing(width: nat, t: Tree)
    requires WellFormed(t) && BeamPruneAndContinue(width, t).Ok?
    ensures NoFork(BeamPruneAndContinue(width, t).value.commands)
  {
    hide WellFormed, KillEach, BeamVictims, KillsOnly, EndsBy, NoFork;
    BeamVictimsActive(width, t);
    KillEachSpec(t, BeamVictims(width, t), BeamPruned);
    var kills := KillEach(t, BeamVictims(width, t), BeamPruned).value;
    KillsAreNoForks(t, kills);
    ContinuesForkNothing(kills.tree);
    NoForkThen(kills.commands, BeamContinues(kills.tree));
  }

  lemma ContinuesForkNothing(t: Tree)
    ensures NoFork(BeamContinues(t))
  {
  }

  lemma NoForkThen(xs: seq<Command>, ys: seq<Command>)
    requires NoFork(xs) && NoFork(ys)
    ensures NoFork(xs + ys)
  {
  }

  lemma BuiltInsForkWhenAsked(beam: BeamConfig, best: BestFirstConfig, mcts: MctsConfig)
    ensures ForksWhenAsked(BeamPolicy(beam)) && ForksWhenAsked(BestFirstPolicy(best)) && ForksWhenAsked(MctsPolicy(mcts))
  {
    hide WellFormed, BeamPruneAndContinue, NoFork, RecordEventValue, SelectWithoutForking;
    forall n: nat, h: PolicyCall, e: EngineEvent, t: GoodTree | !h.OnEvent?
      ensures BeamPolicy(beam)(n, h, e, t).Ok? ==> NoFork(BeamPolicy(beam)(n, h, e, t).value.commands)
      ensures BestFirstPolicy(best)(n, h, e, t).Ok? ==> NoFork(BestFirstPolicy(best)(n, h, e, t).value.commands)
      ensures MctsPolicy(mcts)(n, h, e, t).Ok? ==> NoFork(MctsPolicy(mcts)(n, h, e, t).value.commands)
    {
      if BeamPruneAndContinue(beam.width, t).Ok? { BeamPruneForksNothing(beam.width, t); }
      BestFirstForksNothing(best, h, t);
      MctsForksNothing(mcts, n, h, e, t);
    }
  }

  lemma BestFirstForksNothing(c: BestFirstConfig, h: PolicyCall, t: Tree)
    requires !h.OnEvent?
    ensures BestFirstStep(c, h, t).Ok? ==> NoFork(BestFirstStep(c, h, t).value.commands)
  {
  }

  lemma MctsForksNothing(c: MctsConfig, n: nat, h: PolicyCall, e: EngineEvent, t: Tree)
    requires WellFormed(t) && !h.OnEvent?
    ensures MctsStep(c, n, h, e, t).Ok? ==> NoFork(MctsStep(c, n, h, e, t).value.commands)
  {
    hide WellFormed, RecordEventValue, SelectWithoutForking;
  }

  // ---------------------------------------------------------------------------
  // The policy's part of an event
  // ---------------------------------------------------------------------------

  /** The event is a token with an entropy and the scheduler forks adaptively. */
  ghost predicate Adaptively(c: Config, e: EngineEvent) {
    e.TokenSampled? && e.entropy.Some? && c.adaptive.Some?
  }

  /** A fork is planned exactly for an active branch above the depth limit and below its token limit, at an entropy at or
      above the threshold, that is far enough from the fork it came from, when its children fit the arena and the budget
      that the queued Continues leave. */
  lemma AdaptiveExactly(c: Config, s: State, e: EngineEvent)
    requires WellFormed(s.tree) && ConfigOk(c) && Adaptively(c, e) && e.entropy.value.Finite?
    ensures var a, b, x := c.adaptive.value, e.branch, e.entropy.value.value; var w := WidthForEntropy(a, x);
            AdaptiveWidth(c, s, e) ==
              Ok(if && s.tree.ActiveAt(b) && x >= a.entropyThreshold
                    && s.tree.nodes[b].depth < a.maxDepth && s.tree.nodes[b].tokens < s.budget.branchLimit
                    && (b in s.lastFork ==> s.lastFork[b] + a.minTokensBetweenForks <= s.tree.nodes[b].tokens)
                    && |s.tree.nodes| + w <= Min(a.maxTotalBranches, U64_MAX)
                    && s.budget.consumed + |s.outstanding| + w <= s.budget.totalLimit
                 then Some(w) else None)
  {
    hide PlannedWidth, WidthForEntropy;
    if s.tree.ActiveAt(e.branch) {
      PlannedExactly(c.adaptive.value, s.lastFork, e.branch, e.entropy.value.value, s.tree, s.budget, |s.outstanding|);
    }
  }

  /** With adaptive forking the only fork on a token with an entropy is the planned one, which comes first and is
      remembered for each child with its parent's token count; no fork comes from the score that follows up such a
      token; and any other event asks the policy in the ordinary way. The policy is asked once. */
  lemma ForksAsPlanned(c: Config, s: State, e: EngineEvent)
    requires WellFormed(s.tree) && ConfigOk(c) && ForksWhenAsked(c.policy)
    requires e.TokenSampled? && e.entropy.Some? ==> e.entropy.value.Finite?
    requires PolicyCommands(c, s, e, e.ValueScored? && e.branch in s.adaptivePending).Ok?
    ensures var d := PolicyCommands(c, s, e, e.ValueScored? && e.branch in s.adaptivePending).value;
            && d.s.calls == s.calls + 1
            && (Adaptively(c, e) ==>
                  match AdaptiveWidth(c, s, e).value
                  case None => NoFork(d.commands) && d.s.lastFork == s.lastFork
                  case Some(w) =>
                    && s.tree.ActiveAt(e.branch) && d.commands != [] && d.commands[0] == ForkAt(e.branch, w) && NoFork(d.commands[1..])
                    && (forall x :: x in d.s.lastFork <==> x in s.lastFork || |s.tree.nodes| <= x < |s.tree.nodes| + w)
                    && forall x :: x in d.s.lastFork ==>
                         d.s.lastFork[x] == if |s.tree.nodes| <= x < |s.tree.nodes| + w then s.tree.nodes[e.branch].tokens else s.lastFork[x])
            && (!Adaptively(c, e) ==> d.s.lastFork == s.lastFork)
            && (e.ValueScored? && e.branch in s.adaptivePending ==> NoFork(d.commands))
            && (!Adaptively(c, e) && !(e.ValueScored? && e.branch in s.adaptivePending) ==>
                  var answer := c.policy(s.calls, OnEvent, e, s.tree);
                  answer.Ok? && d.commands == answer.value.commands && d.s.tree.nodes == answer.value.nodes)
  {
    hide WellFormed, NoFork, Fork, PlannedWidth;
    if Adaptively(c, e) && AdaptiveWidth(c, s, e).value.Some? {
      var w := AdaptiveWidth(c, s, e).value.value;
      ForkKeepsWellFormed(s.tree, e.branch, w);
      var d := PolicyCommands(c, s, e, false).value;
      assert d.commands[1..] == c.policy(s.calls, AfterAdaptiveFork(IdsFrom(|s.tree.nodes|, w)), e, Fork(s.tree, e.branch, w).value).value.commands;
    }
  }

  lemma {:induction false} ReclaimForksNothing(t: Tree, b: nat)
    requires WellFormed(t) && b < |t.nodes|
    ensures NoFork(Reclaim(t, b).commands)
    decreases b
  {
    assert NodeOk(t, b);
    if t.nodes[b].parent.Some? {
      var p := t.nodes[b].parent.value;
      if t.nodes[p].state.IsTerminal() {
        ReclaimForksNothing(t, p);
      } else if t.AllChildrenTerminal(p) {
        TerminateKeepsWellFormed(t, p, Killed);
        ReclaimForksNothing(t.WithState(p, Killed), p);
      }
    }
  }

  lemma {:induction false} ReclaimsForkNothing(t: Tree, bs: seq<nat>)
    requires WellFormed(t) && InTree(t, bs)
    ensures NoFork(ReclaimEach(t, bs).commands)
    decreases |bs|
  {
    hide NodeOk;
    if bs != [] {
      ReclaimSpec(t, bs[0]);
      ReclaimForksNothing(t, bs[0]);
      ReclaimsForkNothing(Reclaim(t, bs[0]).tree, bs[1..]);
      NoForkThen(Reclaim(t, bs[0]).commands, ReclaimEach(Reclaim(t, bs[0]).tree, bs[1..]).commands);
    }
  }

  lemma PolicyIsAsked(c: Config, s: State, e: EngineEvent, followup: bool)
    requires WellFormed(s.tree) && ConfigOk(c)
    requires e.TokenSampled? && e.entropy.Some? ==> e.entropy.value.Finite?
    requires PolicyCommands(c, s, e, followup).Ok?
    ensures var r := PolicyCommands(c, s, e, followup).value.s; r.calls == s.calls + 1 && r.adaptivePending == s.adaptivePending
  {
    hide WellFormed, Fork, PlannedWidth;
  }

  lemma {:induction false} ReplayNeverMismatches(t: Tree, commands: seq<Command>)
    ensures Replay(t, commands) != Err(PolicyCommandTreeMismatch)
    decreases |commands|
  {
    if commands != [] && Apply(t, commands[0]).Ok? { ReplayNeverMismatches(Apply(t, commands[0]).value, commands[1..]); }
  }

  /** The commands are accepted exactly if they account for every structural change; a mismatch is reported exactly if they
      replay to another structure, and commands that do not replay are refused as the arena refuses them. */
  lemma MismatchIsReported(before: Tree, after: Tree, commands: seq<Command>)
    requires before.cap == after.cap
    ensures ValidatePolicyCommands(before, after, commands).Ok? <==> Replays(before, commands, after)
    ensures ValidatePolicyCommands(before, after, commands) == Err(PolicyCommandTreeMismatch) <==>
              Replay(before, commands).Ok? && !Replays(before, commands, after)
    ensures Replay(before, commands).Err? ==>
              ValidatePolicyCommands(before, after, commands) == Err(Replay(before, commands).error)
  {
    ReplayNeverMismatches(before, commands);
  }

  /** The commands of the policy's part are the policy's and then the reclamations, which fork nothing. */
  lemma PhaseIsPolicy(c: Config, s: State, e: EngineEvent)
    requires WellFormed(s.tree) && ConfigOk(c)
    requires e.TokenSampled? && e.entropy.Some? ==> e.entropy.value.Finite?
    requires PolicyPhase(c, s, e).Ok?
    ensures PolicyCommands(c, s, e, e.ValueScored? && e.branch in s.adaptivePending).Ok?
    ensures var d, ph := PolicyCommands(c, s, e, e.ValueScored? && e.branch in s.adaptivePending).value, PolicyPhase(c, s, e).value;
            && d.commands <= ph.commands && NoFork(ph.commands[|d.commands|..])
            && ph.s.calls == d.s.calls && ph.s.lastFork == d.s.lastFork
    ensures PolicyPhase(c, s, e).value.s.adaptivePending == (if e.ValueScored? then s.adaptivePending - {e.branch} else s.adaptivePending)
  {
    hide WellFormed, PolicyCommands, ValidatePolicyCommands, ReclaimEach, NoFork, Replays;
    var s1 := if e.ValueScored? then s.(adaptivePending := s.adaptivePending - {e.branch}) else s;
    var followup := e.ValueScored? && e.branch in s.adaptivePending;
    SamePolicyCommands(c, s, s1, e, followup);
    PolicyIsAsked(c, s1, e, followup);
    var d := PolicyCommands(c, s1, e, followup).value;
    PolicyKeepsCap(c, s1, e, followup);
    ValidatedTree(s.tree, d.s.tree, d.commands);
    ReclaimsForkNothing(d.s.tree, TerminatedBy(d.commands));
    var up := ReclaimEach(d.s.tree, TerminatedBy(d.commands)).commands;
    assert (d.commands + up)[|d.commands|..] == up;
  }

  /** What the policy is asked does not depend on the follow-ups still awaited. */
  lemma SamePolicyCommands(c: Config, s: State, r: State, e: EngineEvent, followup: bool)
    requires WellFormed(s.tree) && ConfigOk(c) && r == s.(adaptivePending := r.adaptivePending)
    requires e.TokenSampled? && e.entropy.Some? ==> e.entropy.value.Finite?
    ensures PolicyCommands(c, s, e, followup).Ok? <==> PolicyCommands(c, r, e, followup).Ok?
    ensures PolicyCommands(c, s, e, followup).Ok? ==>
              var a, b := PolicyCommands(c, s, e, followup).value, PolicyCommands(c, r, e, followup).value;
              a.commands == b.commands && a.s == b.s.(adaptivePending := s.adaptivePending)
  {
    hide WellFormed, Fork, PlannedWidth;
  }

  /** The forks of an event's policy part: the planned one on a token with an entropy, none when a score follows such a
      token up. */
  lemma OnlyPlannedForks(c: Config, s: State, e: EngineEvent)
    requires WellFormed(s.tree) && ConfigOk(c) && ForksWhenAsked(c.policy)
    requires e.TokenSampled? && e.entropy.Some? ==> e.entropy.value.Finite?
    requires PolicyPhase(c, s, e).Ok?
    ensures PolicyPhase(c, s, e).value.s.calls == s.calls + 1
    ensures Adaptively(c, e) && AdaptiveWidth(c, s, e).value.None? ==> NoFork(PolicyPhase(c, s, e).value.commands)
    ensures Adaptively(c, e) && AdaptiveWidth(c, s, e).value.Some? ==>
              var commands := PolicyPhase(c, s, e).value.commands;
              commands != [] && commands[0] == ForkAt(e.branch, AdaptiveWidth(c, s, e).value.value) && NoFork(commands[1..])
    ensures e.ValueScored? && e.branch in s.adaptivePending ==> NoFork(PolicyPhase(c, s, e).value.commands)
  {
    hide WellFormed, PolicyCommands, PolicyPhase, AdaptiveWidth, NoFork, ForksWhenAsked;
    PhaseIsPolicy(c, s, e);
    ForksAsPlanned(c, s, e);
    var d, all := PolicyCommands(c, s, e, e.ValueScored? && e.branch in s.adaptivePending).value, PolicyPhase(c, s, e).value.commands;
    var rest := all[|d.commands|..];
    assert all == d.commands + rest;
    if NoFork(d.commands) { NoForkThen(d.commands, rest); }
    if d.commands != [] && NoFork(d.commands[1..]) {
      NoForkThen(d.commands[1..], rest);
      assert all[1..] == d.commands[1..] + rest;
    }
  }

  /** The policy is asked once in an event that goes on and defers no end, and never on a last token or when the tree ends. */
  lemma AskedOnce(c: Config, ph: Phase, e: EngineEvent)
    requires WellFormed(ph.s.tree) && ConfigOk(c) && ForksWhenAsked(c.policy)
    requires e.TokenSampled? && e.entropy.Some? ==> e.entropy.value.Finite?
    requires FinishEvent(c, ph, e).Ok?
    ensures var silent := ph.exhausted || (e.TokenSampled? && e.eos) || (exists b :: b in ph.s.terminals && ph.s.tree.LiveAt(b));
            FinishEvent(c, ph, e).value.calls == ph.s.calls + if silent then 0 else 1
    ensures !ph.exhausted && e.TokenSampled? && e.eos ==> FinishEvent(c, ph, e).value.tree == ph.s.tree
  {
    hide WellFormed, TerminateTree, SpeculativePrune, PolicyPhase, Enqueue, ForksWhenAsked;
    if ph.exhausted {
      var ended := TerminateTree(ph.s.tree, TreeBudgetExhausted).value;
      TerminateTreeSpec(ph.s.tree, TreeBudgetExhausted);
      EnqueueKeepsTree(ph.s.(tree := ended.tree, pending := map[], terminals := map[], adaptivePending := {}),
                       ph.emitted + ended.commands);
    } else if e.TokenSampled? && e.eos {
      EnqueueKeepsTree(RetainLive(ph.s), ph.emitted);
    } else {
      var pruned, d := FinishContinuingForm(c, ph, e);
      EnqueueKeepsTree(RetainLive(d.s), ph.emitted + pruned.commands + d.commands);
      var s2 := RetainLive(ph.s).(tree := pruned.tree);
      NoTerminals(ph.s);
      if s2.terminals == map[] { OnlyPlannedForks(c, s2, e); }
    }
  }

  /** After an event the follow-ups still awaited are those of live branches, but for the one that the policy has just been
      asked for; none is left when the tree ends. */
  lemma FollowUpsAwaited(c: Config, ph: Phase, e: EngineEvent)
    requires WellFormed(ph.s.tree) && ConfigOk(c)
    requires e.TokenSampled? && e.entropy.Some? ==> e.entropy.value.Finite?
    requires FinishEvent(c, ph, e).Ok?
    ensures var r := FinishEvent(c, ph, e).value; var asked := r.calls != ph.s.calls && e.ValueScored?;
            forall b :: b in r.adaptivePending <==>
              !ph.exhausted && b in ph.s.adaptivePending && ph.s.tree.LiveAt(b) && r.tree.LiveAt(b) && !(asked && b == e.branch)
  {
    hide WellFormed, TerminateTree, SpeculativePrune, PolicyPhase, Enqueue;
    if ph.exhausted {
      var ended := TerminateTree(ph.s.tree, TreeBudgetExhausted).value;
      TerminateTreeSpec(ph.s.tree, TreeBudgetExhausted);
      EnqueueKeepsTree(ph.s.(tree := ended.tree, pending := map[], terminals := map[], adaptivePending := {}),
                       ph.emitted + ended.commands);
    } else if e.TokenSampled? && e.eos {
      EnqueueKeepsTree(RetainLive(ph.s), ph.emitted);
    } else {
      var pruned, d := FinishContinuingForm(c, ph, e);
      EnqueueKeepsTree(RetainLive(d.s), ph.emitted + pruned.commands + d.commands);
      var s2 := RetainLive(ph.s).(tree := pruned.tree);
      if s2.terminals == map[] {
        PhaseIsPolicy(c, s2, e);
        PolicyIsAsked(c, s2, e, e.ValueScored? && e.branch in s2.adaptivePending);
      }
    }
  }

  lemma NoTerminals(s: State)
    ensures RetainLive(s).terminals == map[] <==> forall b :: b in s.terminals ==> !s.tree.LiveAt(b)
  {
    var kept := RetainLive(s).terminals;
    assert forall b :: b in kept <==> b in s.terminals && s.tree.LiveAt(b);
    if forall b :: b in s.terminals ==> !s.tree.LiveAt(b) { assert kept.Keys == {}; }
  }

  /** A Continue is queued exactly if its branch is active, below its limit, awaits no score and holds no other Continue,
      and a token of the budget is unreserved. */
  lemma ContinueIsQueued(s: State, b: nat)
    requires WellFormed(s.tree)
    ensures EnqueueOne(s, Continue(b)) ==
              if s.tree.ActiveAt(b) && s.tree.nodes[b].tokens < s.budget.branchLimit && b !in s.pending && b !in s.outstanding
                 && s.budget.consumed + |s.outstanding| < s.budget.totalLimit
              then s.(outstanding := s.outstanding + {b}, queue := s.queue + [Continue(b)]) else s
  {
    if b < |s.tree.nodes| { assert NodeOk(s.tree, b); }
  }
}
