/** The scheduler with its mutable state (scheduler/src/scheduler.rs), each method proved against the
    function on the whole state. */
module SchedulerObject {
  import opened Common
  import opened Arena
  import opened Commands
  import CS = CommandStream
  import opened Ranking
  import opened Termination
  import opened Adaptive
  import opened Policies
  import L = Lifecycle
  import S = Scheduler
  import opened Samples
  import opened BranchArena
  import opened PolicyObjects

  /** The policy's part of an event left the state and the commands the function gives. */
  ghost predicate Decides(expected: Result<S.Decision>, r: Result<seq<Command>>, after: S.State) {
    match expected
    case Ok(d) => r == Ok(d.commands) && after == d.s
    case Err(error) => r == Err(error)
  }

  /** The first half of an event left the state, the commands and the exhaustion flag the function gives. */
  ghost predicate Reaches(expected: Result<S.Phase>, r: Result<(seq<Command>, bool)>, after: S.State) {
    match expected
    case Ok(ph) => r == Ok((ph.emitted, ph.exhausted)) && after == ph.s
    case Err(error) => r == Err(error)
  }

  ghost predicate Becomes(expected: Result<S.State>, r: Result<()>, after: S.State) {
    match expected
    case Ok(s) => r == Ok(()) && after == s
    case Err(error) => r == Err(error)
  }

  /** One turn of the walk up the ancestors. */
  lemma ReclaimStep(t: Tree, b: nat)
    requires WellFormed(t) && b < |t.nodes|
    ensures t.nodes[b].parent.None? ==> L.Reclaim(t, b) == L.Effect(t, [])
    ensures t.nodes[b].parent.Some? ==>
              var p := t.nodes[b].parent.value;
              && p < b
              && (t.nodes[p].state.IsTerminal() ==> L.Reclaim(t, b) == L.Reclaim(t, p))
              && (!t.nodes[p].state.IsTerminal() && !t.AllChildrenTerminal(p) ==> L.Reclaim(t, b) == L.Effect(t, []))
              && (!t.nodes[p].state.IsTerminal() && t.AllChildrenTerminal(p) ==>
                    && Kill(t, p).Ok?
                    && WellFormed(Kill(t, p).value)
                    && |Kill(t, p).value.nodes| == |t.nodes|
                    && L.Reclaim(t, b) == L.Effect(L.Reclaim(Kill(t, p).value, p).tree,
                                                   [KillBranch(p, AncestorReclaimed)] + L.Reclaim(Kill(t, p).value, p).commands))
  {
    assert NodeOk(t, b);
    if t.nodes[b].parent.Some? {
      var p := t.nodes[b].parent.value;
      assert NodeOk(t, p);
      if !t.nodes[p].state.IsTerminal() && t.AllChildrenTerminal(p) {
        assert Kill(t, p) == Ok(t.WithState(p, Killed));
        KillKeepsWellFormed(t, p);
      }
    }
  }

  lemma TerminationSucceeds(t: Tree, reason: KillReason)
    requires WellFormed(t)
    ensures Termination.TerminateTree(t, reason).Ok?
  {
    TerminateTreeSpec(t, reason);
  }

  /** In the end the winner and whoever was finalized before are finalized, and all others killed. */
  lemma TerminatedStates(t: Tree, reason: KillReason)
    requires WellFormed(t)
    ensures Termination.TerminateTree(t, reason).Ok?
    ensures var after := Termination.TerminateTree(t, reason).value.tree;
            && |after.nodes| == |t.nodes|
            && forall i: nat :: i < |after.nodes| ==>
                 after.nodes[i].state == if t.nodes[i].state == Finalized || Wins(t, i) then Finalized else Killed
  {
    hide WellFormed, Wins, Termination.TerminateTree;
    TerminateTreeSpec(t, reason);
    var after := Termination.TerminateTree(t, reason).value.tree;
    forall i: nat | i < |after.nodes|
      ensures after.nodes[i].state == Killed || after.nodes[i].state == Finalized
    {
      assert after.TerminalAt(i);
    }
  }

  /** Termination is the crowning of the best branch followed by the closing rounds. */
  lemma TerminateParts(t: Tree, reason: KillReason)
    requires WellFormed(t)
    ensures var ranked := Sort(t, ByTier, t.ActiveFrontier());
            && (ranked == [] ==> Termination.TerminateTree(t, reason) == Prepended([], CloseRounds(t, reason)))
            && (ranked != [] ==>
                  && KillEach(t, Sort(t, ById, ranked[1..]), reason).Ok?
                  && var kills := KillEach(t, Sort(t, ById, ranked[1..]), reason).value;
                  && Finalize(kills.tree, ranked[0]).Ok?
                  && WellFormed(Finalize(kills.tree, ranked[0]).value)
                  && Termination.TerminateTree(t, reason)
                     == Prepended(kills.commands + [FinalizeBranch(ranked[0])], CloseRounds(Finalize(kills.tree, ranked[0]).value, reason)))
  {
    hide WellFormed, CloseRounds, KillEach, Sort, Kill, Finalize;
    TerminationSucceeds(t, reason);
    var ranked := Sort(t, ByTier, t.ActiveFrontier());
    PrependedThen([], [], CloseRounds(t, reason));
    if ranked != [] {
      KillEachWellFormed(t, Sort(t, ById, ranked[1..]), reason);
      FinalizeKeepsWellFormed(KillEach(t, Sort(t, ById, ranked[1..]), reason).value.tree, ranked[0]);
    }
  }

  lemma ActiveIsKnown(t: Tree, b: nat)
    requires WellFormed(t) && t.ActiveAt(b)
    ensures t.Has(b)
  {
    assert NodeOk(t, b);
  }

  /** Once a token projects, recording it and its value or its pending mark cannot fail. */
  lemma SampleRecords(t: Tree, b: nat, logprob: Float, score: Option<Float>)
    requires WellFormed(t) && ProjectedAfterToken(t, b, logprob).Ok? && (score.Some? ==> score.value.Finite?)
    ensures RecordToken(t, b, logprob).Ok?
    ensures var tokened := RecordToken(t, b, logprob).value;
            && WellFormed(tokened)
            && MarkValuePending(tokened, b).Ok? && WellFormed(MarkValuePending(tokened, b).value)
            && (score.Some? ==> RecordValue(tokened, b, score.value).Ok? && WellFormed(RecordValue(tokened, b, score.value).value))
  {
    RecordTokenKeepsWellFormed(t, b, logprob);
    var tokened := RecordToken(t, b, logprob).value;
    SameStructureWellFormed(tokened, MarkValuePending(tokened, b).value);
    if score.Some? { SameStructureWellFormed(tokened, RecordValue(tokened, b, score.value).value); }
  }

  class Scheduler {
    const config: S.Config
    const rollbackCustomPolicyErrors: bool
    const tree: BranchTree
    const budget: BudgetController
    const adaptiveFork: AdaptiveForkController
    var commandQueue: seq<Command>
    var outstandingContinuations: set<nat>
    var pendingExternalValues: map<nat, nat>
    var pendingBudgetTerminals: map<nat, S.PendingBudgetTerminal>
    var acceptedEventCount: nat
    var adaptiveScorePending: set<nat>
    var policyCalls: nat

    function State(): S.State
      reads this, tree, budget, adaptiveFork
    {
      S.State(tree.Model(), budget.Model(), commandQueue, outstandingContinuations, pendingExternalValues,
              pendingBudgetTerminals, acceptedEventCount, adaptiveScorePending, adaptiveFork.lastForkTokenByBranch,
              policyCalls)
    }

    ghost predicate Valid()
      reads this, tree, budget, adaptiveFork
    {
      && WellFormed(tree.Model())
      && S.ConfigOk(config)
      && budget.totalLimit <= U64_MAX
      && budget.perBranchLimit <= U64_MAX
    }

    constructor (config: S.Config, rollback: bool, totalLimit: nat, branchLimit: nat, cap: nat)
      requires S.ConfigOk(config) && cap > 0 && totalLimit <= U64_MAX && branchLimit <= U64_MAX
      ensures Valid() && State() == S.Initial(totalLimit, branchLimit, cap)
      ensures this.config == config && rollbackCustomPolicyErrors == rollback
      ensures fresh(tree) && fresh(budget) && fresh(adaptiveFork)
    {
      this.config := config;
      rollbackCustomPolicyErrors := rollback;
      tree := new BranchTree(cap);
      budget := new BudgetController(totalLimit, branchLimit);
      adaptiveFork := new AdaptiveForkController();
      commandQueue := [];
      outstandingContinuations := {};
      pendingExternalValues := map[];
      pendingBudgetTerminals := map[];
      acceptedEventCount := 0;
      adaptiveScorePending := {};
      policyCalls := 0;
      new;
      FreshTreeWellFormed(cap);
    }

    // -------------------------------------------------------------------------
    // The command queue
    // -------------------------------------------------------------------------

    method RemoveQueuedContinue(b: nat)
      modifies this`outstandingContinuations, this`commandQueue
      ensures State() == S.RemoveQueuedContinue(old(State()), b)
    {
      outstandingContinuations := outstandingContinuations - {b};
      var queue := commandQueue;
      var kept := [];
      for i := 0 to |queue|
        invariant DropContinue(queue, b) == kept + DropContinue(queue[i..], b)
      {
        assert queue[i..][0] == queue[i] && queue[i..][1..] == queue[i + 1..];
        if queue[i] != Continue(b) { kept := kept + [queue[i]]; }
      }
      assert kept + [] == kept;
      commandQueue := kept;
    }

    method EnqueueCommands(commands: seq<Command>)
      modifies this`outstandingContinuations, this`commandQueue
      ensures State() == S.Enqueue(old(State()), commands)
    {
      for i := 0 to |commands|
        invariant S.Enqueue(old(State()), commands) == S.Enqueue(State(), commands[i..])
      {
        assert commands[i..][0] == commands[i] && commands[i..][1..] == commands[i + 1..];
        EnqueueCommand(commands[i]);
      }
    }

    method EnqueueCommand(command: Command)
      modifies this`outstandingContinuations, this`commandQueue
      ensures State() == S.EnqueueOne(old(State()), command)
    {
      if command.Continue? {
        var branch := command.branch;
        var branchCanAdvance := tree.Model().Has(branch) && tree.nodes[branch].state == Active
                                && tree.nodes[branch].tokens < budget.perBranchLimit;
        if branchCanAdvance && branch !in pendingExternalValues && branch !in outstandingContinuations
           && |outstandingContinuations| < budget.Model().Remaining() {
          outstandingContinuations := outstandingContinuations + {branch};
          commandQueue := commandQueue + [command];
        }
      } else {
        RemoveQueuedContinue(command.branch);
        commandQueue := commandQueue + [command];
      }
    }

    method RetainLivePendingScores()
      modifies this`pendingExternalValues, this`pendingBudgetTerminals, this`adaptiveScorePending
      ensures State() == S.RetainLive(old(State()))
    {
      pendingExternalValues := map b | b in pendingExternalValues && tree.Model().LiveAt(b) :: pendingExternalValues[b];
      pendingBudgetTerminals := map b | b in pendingBudgetTerminals && tree.Model().LiveAt(b) :: pendingBudgetTerminals[b];
      adaptiveScorePending := set b | b in adaptiveScorePending && tree.Model().LiveAt(b);
    }

    // -------------------------------------------------------------------------
    // Ending branches
    // -------------------------------------------------------------------------

    /** Walks up from an ended branch and kills the ancestors it leaves without a live child. */
    method ReclaimCompletedAncestors(b: nat) returns (commands: seq<Command>)
      requires WellFormed(tree.Model()) && b < |tree.nodes|
      modifies tree
      ensures WellFormed(tree.Model()) && |tree.nodes| == |old(tree.nodes)|
      ensures L.Effect(tree.Model(), commands) == L.Reclaim(old(tree.Model()), b)
    {
      hide WellFormed, L.Reclaim;
      ghost var t := tree.Model();
      commands := [];
      var at: nat := b;
      while tree.nodes[at].parent.Some?
        invariant WellFormed(tree.Model()) && at < |tree.nodes| && |tree.nodes| == |t.nodes|
        invariant Prepended([], Ok(L.Reclaim(t, b))) == Prepended(commands, Ok(L.Reclaim(tree.Model(), at)))
        decreases at
      {
        var parent := tree.nodes[at].parent.value;
        ghost var now := tree.Model();
        ReclaimStep(now, at);
        if !tree.nodes[parent].state.IsTerminal() {
          if !tree.Model().AllChildrenTerminal(parent) { break; }
          var killed := tree.Kill(parent);
          assert killed.Ok?;
          PrependedThen(commands, [KillBranch(parent, AncestorReclaimed)], Ok(L.Reclaim(tree.Model(), parent)));
          commands := commands + [KillBranch(parent, AncestorReclaimed)];
        }
        at := parent;
      }
      ReclaimStep(tree.Model(), at);
      PrependedThen([], [], Ok(L.Reclaim(t, b)));
      assert commands + [] == commands;
    }

    /** Kills the scored branches that trail the best by more than the margin. */
    method SpeculativePrune() returns (r: Result<seq<Command>>)
      requires WellFormed(tree.Model())
      modifies tree
      ensures Carries(L.SpeculativePrune(old(tree.Model()), config.margin), r, tree.Model())
      ensures r.Ok? ==> WellFormed(tree.Model())
    {
      hide WellFormed, L.Reclaim, L.Victims, L.KillAndReclaim;
      if config.margin.None? { return Ok([]); }
      ghost var t := tree.Model();
      var victims := L.Victims(tree.Model(), config.margin.value);
      var commands := [];
      PrependedThen([], [], L.PruneEach(t, victims));
      for i := 0 to |victims|
        invariant WellFormed(tree.Model())
        invariant L.PruneEach(t, victims) == Prepended(commands, L.PruneEach(tree.Model(), victims[i..]))
      {
        assert victims[i..][0] == victims[i] && victims[i..][1..] == victims[i + 1..];
        var step := KillAndReclaim(victims[i], SpeculativeKill);
        if step.Err? { return Err(step.error); }
        PrependedThen(commands, step.value, L.PruneEach(tree.Model(), victims[i + 1..]));
        commands := commands + step.value;
      }
      assert commands + [] == commands;
      r := Ok(commands);
    }

    method KillAndReclaim(b: nat, reason: KillReason) returns (r: Result<seq<Command>>)
      requires WellFormed(tree.Model())
      modifies tree
      ensures Carries(L.KillAndReclaim(old(tree.Model()), b, reason), r, tree.Model())
      ensures r.Ok? ==> WellFormed(tree.Model())
    {
      ghost var t := tree.Model();
      if Kill(t, b).Ok? { KillKeepsWellFormed(t, b); }
      hide WellFormed, L.Reclaim;
      var killed := tree.Kill(b);
      if killed.Err? { return Err(killed.error); }
      var reclaimed := ReclaimCompletedAncestors(b);
      r := Ok([KillBranch(b, reason)] + reclaimed);
    }

    /** Finalizes the branch and reclaims what it leaves childless. */
    method FinalizeAndReclaim(b: nat) returns (r: Result<seq<Command>>)
      requires WellFormed(tree.Model())
      modifies tree
      ensures match S.FinalizeAndReclaim(old(State()), b)
              case Ok(ph) => r == Ok(ph.emitted) && State() == ph.s && !ph.exhausted && WellFormed(tree.Model())
              case Err(error) => r == Err(error)
    {
      ghost var t := tree.Model();
      if Finalize(t, b).Ok? { FinalizeKeepsWellFormed(t, b); }
      hide WellFormed, L.Reclaim;
      var done := tree.Finalize(b);
      if done.Err? { return Err(done.error); }
      var reclaimed := ReclaimCompletedAncestors(b);
      r := Ok([FinalizeBranch(b)] + reclaimed);
    }

    /** One branch wins, the others are killed, and then the expanded nodes in rounds, deepest first. */
    method TerminateTree(reason: KillReason) returns (commands: seq<Command>)
      requires WellFormed(tree.Model())
      modifies tree
      ensures Termination.TerminateTree(old(tree.Model()), reason) == Ok(L.Effect(tree.Model(), commands))
      ensures WellFormed(tree.Model())
      ensures |tree.nodes| == |old(tree.nodes)| && forall i: nat :: i < |tree.nodes| ==>
                if old(tree.nodes)[i].state == Finalized || Wins(old(tree.Model()), i) then tree.nodes[i].state == Finalized
                else tree.nodes[i].state == Killed
    {
      hide WellFormed, CloseRounds, KillEach, Sort, Finalize, Termination.TerminateTree, Wins;
      ghost var t := tree.Model();
      TerminatedStates(t, reason);
      TerminateParts(t, reason);
      var active := Sort(tree.Model(), ByTier, tree.Model().ActiveFrontier());
      commands := [];
      if active != [] {
        var killed := KillAll(tree, Sort(tree.Model(), ById, active[1..]), reason);
        var won := tree.Finalize(active[0]);
        commands := killed.value + [FinalizeBranch(active[0])];
      }
      ghost var crowned := tree.Model();
      var closed := CloseAll(reason);
      PrependedThen([], [], CloseRounds(crowned, reason));
      commands := commands + closed;
    }

    /** Rounds of reclamation until nothing is left to reclaim. Each round has fewer expanded nodes. */
    method CloseAll(reason: KillReason) returns (commands: seq<Command>)
      requires WellFormed(tree.Model())
      modifies tree
      ensures CloseRounds(old(tree.Model()), reason) == Ok(L.Effect(tree.Model(), commands))
      ensures WellFormed(tree.Model())
    {
      hide WellFormed, KillExpanded, Reclaimable, L.EndsBy, KillsOnly;
      ghost var t := tree.Model();
      commands := [];
      PrependedThen([], [], CloseRounds(t, reason));
      var reclaimable := Reclaimable(tree.Model());
      while reclaimable != []
        invariant WellFormed(tree.Model()) && reclaimable == Reclaimable(tree.Model())
        invariant CloseRounds(t, reason) == Prepended(commands, CloseRounds(tree.Model(), reason))
        decreases ExpandedBelow(tree.Model(), |tree.nodes|)
      {
        ghost var now := tree.Model();
        RoundSpec(now, reason);
        var round := KillReclaimable(reclaimable, reason);
        assert round.Ok?;
        PrependedThen(commands, round.value, CloseRounds(tree.Model(), reason));
        commands := commands + round.value;
        reclaimable := Reclaimable(tree.Model());
      }
      assert commands + [] == commands;
    }

    method KillReclaimable(ids: seq<nat>, reason: KillReason) returns (r: Result<seq<Command>>)
      modifies tree
      ensures Carries(KillExpanded(old(tree.Model()), ids, reason), r, tree.Model())
    {
      hide Kill;
      ghost var t := tree.Model();
      var commands := [];
      PrependedThen([], [], KillExpanded(t, ids, reason));
      for i := 0 to |ids|
        invariant KillExpanded(t, ids, reason) == Prepended(commands, KillExpanded(tree.Model(), ids[i..], reason))
      {
        assert ids[i..][0] == ids[i] && ids[i..][1..] == ids[i + 1..];
        if ids[i] < |tree.nodes| && tree.nodes[ids[i]].state == Expanded {
          var killed := tree.Kill(ids[i]);
          if killed.Err? { return Err(killed.error); }
          PrependedThen(commands, [KillBranch(ids[i], reason)], KillExpanded(tree.Model(), ids[i + 1..], reason));
          commands := commands + [KillBranch(ids[i], reason)];
        }
      }
      assert commands + [] == commands;
      r := Ok(commands);
    }

    // -------------------------------------------------------------------------
    // The policy
    // -------------------------------------------------------------------------

    /** Replays the policy's commands on a clone of the arena from before the call. */
    method ValidatePolicyCommands(before: Tree, commands: seq<Command>) returns (r: Result<()>)
      ensures r == S.ValidatePolicyCommands(before, tree.Model(), commands)
    {
      hide CS.Apply;
      var expected := new BranchTree.Clone(before);
      for i := 0 to |commands|
        invariant CS.Replay(before, commands) == CS.Replay(expected.Model(), commands[i..])
      {
        assert commands[i..][0] == commands[i] && commands[i..][1..] == commands[i + 1..];
        var applied := ApplyTo(expected, commands[i]);
        if applied.Err? { return Err(applied.error); }
      }
      r := if SameStructure(expected.Model(), tree.Model()) then Ok(()) else Err(PolicyCommandTreeMismatch);
    }

    static method ApplyTo(expected: BranchTree, command: Command) returns (r: Result<()>)
      modifies expected
      ensures match CS.Apply(old(expected.Model()), command)
              case Ok(t) => r == Ok(()) && expected.Model() == t
              case Err(error) => r == Err(error)
    {
      hide Fork, Kill, Finalize;
      match command {
        case ForkAt(b, width) =>
          var forked := expected.Fork(b, width);
          r := if forked.Ok? then Ok(()) else Err(forked.error);
        case KillBranch(b, _) => r := expected.Kill(b);
        case FinalizeBranch(b) => r := expected.Finalize(b);
        case Continue(b) =>
          if !expected.Model().Has(b) { return Err(UnknownBranch(b)); }
          if expected.nodes[b].state != Active { return Err(BranchNotActive(b)); }
          r := Ok(());
      }
    }

    /** The policy works on the arena itself. */
    method AskPolicy(hook: PolicyCall, e: EngineEvent) returns (r: Result<seq<Command>>)
      requires WellFormed(tree.Model())
      modifies tree, this`policyCalls
      ensures Decides(S.AskPolicy(config, old(State()), hook, e), r, State())
    {
      var answer := config.policy(policyCalls, hook, e, tree.Model());
      if answer.Err? { return Err(answer.error); }
      tree.nodes := answer.value.nodes;
      policyCalls := policyCalls + 1;
      r := Ok(answer.value.commands);
    }

    method PolicyCommands(e: EngineEvent, followup: bool) returns (r: Result<seq<Command>>)
      requires Valid()
      requires e.TokenSampled? && e.entropy.Some? ==> e.entropy.value.Finite?
      modifies tree, adaptiveFork, this`policyCalls
      ensures Decides(S.PolicyCommands(config, old(State()), e, followup), r, State())
    {
      hide WellFormed, Fork, PlannedWidth, S.AskPolicy, S.RecordFork;
      if e.TokenSampled? && e.entropy.Some? && config.adaptive.Some? {
        var width := PlanFork(e);
        if width.Err? { return Err(width.error); }
        if width.value.Some? {
          ghost var before := tree.Model();
          if Fork(before, e.branch, width.value.value).Ok? { ForkKeepsWellFormed(before, e.branch, width.value.value); }
          ActiveIsKnown(before, e.branch);
          var parentTokens := tree.nodes[e.branch].tokens;
          var children := tree.Fork(e.branch, width.value.value);
          if children.Err? { return Err(children.error); }
          adaptiveFork.RecordFork(children.value, parentTokens);
          var answer := AskPolicy(AfterAdaptiveFork(children.value), e);
          if answer.Err? { return answer; }
          return Ok([ForkAt(e.branch, width.value.value)] + answer.value);
        }
        r := AskPolicy(WithoutForking, e);
      } else if followup {
        r := AskPolicy(WithoutForking, e);
      } else {
        r := AskPolicy(OnEvent, e);
      }
    }

    method PlanFork(e: EngineEvent) returns (width: Result<Option<nat>>)
      requires Valid() && config.adaptive.Some?
      requires e.TokenSampled? && e.entropy.Some? && e.entropy.value.Finite?
      ensures width == S.AdaptiveWidth(config, State(), e)
    {
      if !tree.Model().ActiveAt(e.branch) { return Ok(None); }
      width := PlannedWidth(config.adaptive.value, adaptiveFork.lastForkTokenByBranch, e.branch, e.entropy.value.value,
                            tree.Model(), budget.Model(), |outstandingContinuations|);
    }

    /** The branches that the policy's commands ended are reclaimed from, in order. */
    method ReclaimAfter(branches: seq<nat>) returns (commands: seq<Command>)
      requires WellFormed(tree.Model()) && InTree(tree.Model(), branches)
      modifies tree
      ensures L.Effect(tree.Model(), commands) == L.ReclaimEach(old(tree.Model()), branches)
      ensures WellFormed(tree.Model())
    {
      hide WellFormed, L.Reclaim;
      ghost var t := tree.Model();
      commands := [];
      PrependedThen([], [], Ok(L.ReclaimEach(t, branches)));
      for i := 0 to |branches|
        invariant WellFormed(tree.Model()) && |tree.nodes| == |t.nodes| && InTree(tree.Model(), branches[i..])
        invariant Prepended([], Ok(L.ReclaimEach(t, branches)))
               == Prepended(commands, Ok(L.ReclaimEach(tree.Model(), branches[i..])))
      {
        assert branches[i..][0] == branches[i] && branches[i..][1..] == branches[i + 1..];
        var step := ReclaimCompletedAncestors(branches[i]);
        PrependedThen(commands, step, Ok(L.ReclaimEach(tree.Model(), branches[i + 1..])));
        commands := commands + step;
      }
      assert commands + [] == commands;
    }

    method PolicyPhase(e: EngineEvent) returns (r: Result<seq<Command>>)
      requires Valid()
      requires e.TokenSampled? && e.entropy.Some? ==> e.entropy.value.Finite?
      modifies tree, adaptiveFork, this`policyCalls, this`adaptiveScorePending
      ensures Decides(S.PolicyPhase(config, old(State()), e), r, State())
      ensures r.Ok? ==> WellFormed(tree.Model())
    {
      hide WellFormed, S.PolicyCommands, L.ReclaimEach, S.ValidatePolicyCommands, InTree;
      var treeBeforePolicy := tree.Model();
      var followup := e.ValueScored? && e.branch in adaptiveScorePending;
      if e.ValueScored? { adaptiveScorePending := adaptiveScorePending - {e.branch}; }
      var policyCommands := PolicyCommands(e, followup);
      if policyCommands.Err? { return policyCommands; }
      var validated := ValidatePolicyCommands(treeBeforePolicy, policyCommands.value);
      if validated.Err? { return Err(validated.error); }
      S.ValidatedTree(treeBeforePolicy, tree.Model(), policyCommands.value);
      var reclaimed := ReclaimAfter(TerminatedBy(policyCommands.value));
      r := Ok(policyCommands.value + reclaimed);
    }

    // -------------------------------------------------------------------------
    // Events
    // -------------------------------------------------------------------------

    /** Spends the budget, records the token with its value or its deadline, and drops queued Continues. */
    method RecordSample(e: EngineEvent) returns (r: Result<BudgetOutcome>)
      requires Valid() && e.TokenSampled?
      modifies this`pendingExternalValues, this`outstandingContinuations, this`commandQueue, tree, budget
      ensures match S.RecordSample(config, old(State()), e)
              case Ok((s, outcome)) => r == Ok(outcome) && State() == s && WellFormed(tree.Model())
              case Err(error) => r == Err(error)
      ensures r.Ok? <==> Recordable(config, old(State()), e)
      ensures r.Ok? ==> Recorded(config, old(State()), e, State(), r.value)
    {
      hide Recordable, Recorded, WellFormed, RecordToken, RecordValue, MarkValuePending, Consume, DropContinue;
      TokenIsRecorded(config, State(), e);
      var projected := ProjectedAfterToken(tree.Model(), e.branch, e.logprob);
      if projected.Err? { return Err(projected.error); }
      var score := S.ScoreOf(config, projected.value);
      if score.Some? && score.value.NonFinite? { return Err(InvalidNumber); }
      var branchTokens := tree.nodes[e.branch].tokens;
      var deadline := 0;
      var external := config.scorer.None? && !e.eos;
      if external {
        var computed := S.Deadline(config, State());
        if computed.Err? { return Err(computed.error); }
        deadline := computed.value;
      }
      SampleRecords(tree.Model(), e.branch, e.logprob, score);
      var outcome := budget.Consume(e.branch, branchTokens);
      if outcome.Err? { return outcome; }
      var recorded := tree.RecordToken(e.branch, e.logprob);
      assert recorded.Ok?;
      if score.Some? {
        var valued := tree.RecordValue(e.branch, score.value);
        assert valued.Ok?;
      } else if external {
        var marked := tree.MarkValuePending(e.branch);
        assert marked.Ok?;
        pendingExternalValues := pendingExternalValues[e.branch := deadline];
      }
      RemoveQueuedContinue(e.branch);
      r := outcome;
    }

    method ApplyToken(e: EngineEvent) returns (r: Result<(seq<Command>, bool)>)
      requires Valid() && e.TokenSampled?
      modifies this`pendingExternalValues, this`outstandingContinuations, this`commandQueue, this`pendingBudgetTerminals,
               this`adaptiveScorePending, tree, budget
      ensures Reaches(S.ApplyToken(config, old(State()), e), r, State())
      ensures r.Ok? ==> WellFormed(tree.Model())
    {
      hide WellFormed, S.RecordSample, S.FinalizeAndReclaim;
      var branch := e.branch;
      var sampled := RecordSample(e);
      if sampled.Err? { return Err(sampled.error); }
      var outcome := sampled.value;
      var external := config.scorer.None? && !e.eos;
      if external && e.entropy.Some? && config.adaptive.Some? {
        adaptiveScorePending := adaptiveScorePending + {branch};
      }
      if e.eos {
        var ended := FinalizeAndReclaim(branch);
        if ended.Err? { return Err(ended.error); }
        return Ok((ended.value, outcome.treeExhausted));
      }
      if outcome.treeExhausted && external {
        pendingBudgetTerminals := pendingBudgetTerminals[branch := S.TreeTerminal];
        return Ok(([], false));
      }
      if outcome.branchExhausted && external {
        pendingBudgetTerminals := pendingBudgetTerminals[branch := S.BranchTerminal];
        return Ok(([], false));
      }
      if outcome.branchExhausted && !outcome.treeExhausted {
        var ended := FinalizeAndReclaim(branch);
        if ended.Err? { return Err(ended.error); }
        return Ok((ended.value, false));
      }
      r := Ok(([], outcome.treeExhausted && !external));
    }

    method ApplyExhausted(branch: nat) returns (r: Result<(seq<Command>, bool)>)
      requires Valid()
      modifies this`pendingExternalValues, this`outstandingContinuations, this`commandQueue, this`pendingBudgetTerminals,
               this`adaptiveScorePending, tree
      ensures Reaches(S.ApplyExhausted(old(State()), branch), r, State())
      ensures r.Ok? ==> WellFormed(tree.Model())
    {
      hide WellFormed, S.FinalizeAndReclaim;
      RemoveQueuedContinue(branch);
      pendingExternalValues := pendingExternalValues - {branch};
      pendingBudgetTerminals := pendingBudgetTerminals - {branch};
      adaptiveScorePending := adaptiveScorePending - {branch};
      var ended := FinalizeAndReclaim(branch);
      if ended.Err? { return Err(ended.error); }
      r := Ok((ended.value, false));
    }

    method ApplyScore(branch: nat, score: Float) returns (r: Result<(seq<Command>, bool)>)
      requires Valid()
      modifies this`pendingExternalValues, this`pendingBudgetTerminals, tree
      ensures Reaches(S.ApplyScore(config, old(State()), branch, score), r, State())
      ensures r.Ok? ==> WellFormed(tree.Model())
    {
      if config.scorer.Some? || branch !in pendingExternalValues { return Err(UnexpectedValueScore(branch)); }
      ghost var before := tree.Model();
      if RecordValue(before, branch, score).Ok? {
        SameStructureWellFormed(before, RecordValue(before, branch, score).value);
      }
      hide WellFormed, S.FinalizeAndReclaim;
      var valued := tree.RecordValue(branch, score);
      if valued.Err? { return Err(valued.error); }
      pendingExternalValues := pendingExternalValues - {branch};
      var terminal := if branch in pendingBudgetTerminals then Some(pendingBudgetTerminals[branch]) else None;
      pendingBudgetTerminals := pendingBudgetTerminals - {branch};
      match terminal {
        case None => r := Ok(([], false));
        case Some(TreeTerminal) => r := Ok(([], true));
        case Some(BranchTerminal) =>
          var ended := FinalizeAndReclaim(branch);
          if ended.Err? { return Err(ended.error); }
          r := Ok((ended.value, false));
      }
    }

    method CheckEvent(e: EngineEvent) returns (r: Result<()>)
      ensures r == S.CheckEvent(config, State(), e)
    {
      if e.TokenSampled? && e.entropy.Some? && (e.entropy.value.NonFinite? || e.entropy.value.value < 0.0) {
        return Err(InvalidNumber);
      }
      if !tree.Model().Has(e.branch) { return Err(UnknownBranch(e.branch)); }
      var state := tree.nodes[e.branch].state;
      var accepts := if e.ValueScored? then state.IsLive() else state == Active;
      if !accepts { return Err(BranchNotActive(e.branch)); }
      if e.TokenSampled? && config.scorer.None? && e.branch in pendingExternalValues {
        return Err(ValueScorePending(e.branch));
      }
      r := Ok(());
    }

    method ApplyEvent(e: EngineEvent) returns (r: Result<(seq<Command>, bool)>)
      requires Valid()
      modifies this`pendingExternalValues, this`outstandingContinuations, this`commandQueue, this`pendingBudgetTerminals,
               this`adaptiveScorePending, tree, budget
      ensures Reaches(S.ApplyEvent(config, old(State()), e), r, State())
      ensures r.Ok? ==> WellFormed(tree.Model())
    {
      hide WellFormed, S.ApplyToken, S.ApplyScore, S.ApplyExhausted;
      match e {
        case TokenSampled(_, _, _, _, _) => r := ApplyToken(e);
        case BranchExhausted(b) => r := ApplyExhausted(b);
        case ValueScored(score, b) => r := ApplyScore(b, score);
      }
    }

    /** The second half: the tree ends, or the frontier is pruned and the policy asked; then the commands
        go to the queue. */
    method FinishEvent(e: EngineEvent, applied: seq<Command>, exhausted: bool) returns (r: Result<()>)
      requires Valid()
      requires e.TokenSampled? && e.entropy.Some? ==> e.entropy.value.Finite?
      modifies this, tree, adaptiveFork
      ensures Becomes(S.FinishEvent(config, S.Phase(old(State()), applied, exhausted), e), r, State())
      ensures r.Ok? ==> WellFormed(tree.Model())
    {
      hide WellFormed, S.PolicyPhase, L.SpeculativePrune, Termination.TerminateTree, S.Enqueue;
      var emitted := applied;
      if exhausted {
        var ended := TerminateTree(TreeBudgetExhausted);
        emitted := emitted + ended;
        pendingExternalValues := map[];
        pendingBudgetTerminals := map[];
        adaptiveScorePending := {};
        EnqueueCommands(emitted);
        return Ok(());
      }
      RetainLivePendingScores();
      if e.TokenSampled? && e.eos {
        EnqueueCommands(emitted);
        return Ok(());
      }
      var pruned := SpeculativePrune();
      if pruned.Err? { return Err(pruned.error); }
      emitted := emitted + pruned.value;
      if pendingBudgetTerminals == map[] {
        var policy := PolicyPhase(e);
        if policy.Err? { return Err(policy.error); }
        emitted := emitted + policy.value;
      }
      assert applied + pruned.value + [] == applied + pruned.value;
      RetainLivePendingScores();
      EnqueueCommands(emitted);
      r := Ok(());
    }

    /** One event. A refusal by the opening checks changes nothing, with or without rollback. */
    method ProcessEvent(e: EngineEvent) returns (r: Result<()>)
      requires Valid()
      modifies this, tree, budget, adaptiveFork
      ensures Becomes(S.ProcessEvent(config, old(State()), e), r, State())
      ensures r.Ok? ==> Valid()
      ensures S.CheckEvent(config, old(State()), e).Err? ==> State() == old(State())
    {
      hide WellFormed, S.ApplyEvent, S.FinishEvent;
      var checked := CheckEvent(e);
      if checked.Err? { return checked; }
      var applied := ApplyEvent(e);
      if applied.Err? { return Err(applied.error); }
      r := FinishEvent(e, applied.value.0, applied.value.1);
    }

    /** Scores whose deadline has passed are answered with the cumulative logprob. */
    method ResolveExpiredPendingScores() returns (r: Result<()>)
      requires Valid()
      modifies this, tree, budget, adaptiveFork
      ensures Becomes(S.ResolveEach(config, old(State()), S.ExpiredBelow(old(State()), |old(tree.nodes)|)), r, State())
      ensures r.Ok? ==> Valid()
    {
      hide WellFormed, S.ProcessEvent;
      var expired := S.ExpiredBelow(State(), |tree.nodes|);
      ghost var s := State();
      for i := 0 to |expired|
        invariant Valid()
        invariant S.ResolveEach(config, s, expired) == S.ResolveEach(config, State(), expired[i..])
      {
        assert expired[i..][0] == expired[i] && expired[i..][1..] == expired[i + 1..];
        var branch := expired[i];
        if branch in pendingExternalValues {
          if !tree.Model().Has(branch) { return Err(UnknownBranch(branch)); }
          var answered := ProcessEvent(ValueScored(Finite(tree.nodes[branch].logprob), branch));
          if answered.Err? { return answered; }
        }
      }
      r := Ok(());
    }

    method FeedEventInner(e: EngineEvent) returns (r: Result<()>)
      requires Valid()
      modifies this, tree, budget, adaptiveFork
      ensures Becomes(S.FeedEvent(config, old(State()), e), r, State())
      ensures r.Ok? ==> Valid()
    {
      hide WellFormed, S.ProcessEvent, S.ResolveEach, S.ExpiredBelow;
      if acceptedEventCount + 1 > U64_MAX { return Err(CounterOverflow); }
      var accepted := acceptedEventCount + 1;
      var processed := ProcessEvent(e);
      if processed.Err? { return processed; }
      acceptedEventCount := accepted;
      r := ResolveExpiredPendingScores();
    }

    /** With rollback a refused event changes nothing but the policy object itself, whose calls are not
        taken back. */
    method FeedEvent(e: EngineEvent) returns (r: Result<()>)
      requires Valid()
      modifies this, tree, budget, adaptiveFork
      ensures Becomes(S.FeedEvent(config, old(State()), e), r, State())
      ensures r.Ok? || rollbackCustomPolicyErrors ==> Valid()
      ensures r.Err? && rollbackCustomPolicyErrors ==> State() == old(State()).(calls := policyCalls)
    {
      hide WellFormed, S.FeedEvent;
      var nodes, consumed, queue, outstanding := tree.nodes, budget.totalConsumed, commandQueue, outstandingContinuations;
      var pending, terminals, accepted := pendingExternalValues, pendingBudgetTerminals, acceptedEventCount;
      var adaptivePending, lastFork := adaptiveScorePending, adaptiveFork.lastForkTokenByBranch;
      r := FeedEventInner(e);
      if r.Err? && rollbackCustomPolicyErrors {
        tree.nodes := nodes;
        budget.totalConsumed := consumed;
        commandQueue := queue;
        outstandingContinuations := outstanding;
        pendingExternalValues := pending;
        pendingBudgetTerminals := terminals;
        adaptiveFork.lastForkTokenByBranch := lastFork;
        adaptiveScorePending := adaptivePending;
        acceptedEventCount := accepted;
      }
    }

    /** Hands the queue out. */
    method PollCommands(ghost polled: seq<Command>) returns (commands: seq<Command>)
      modifies this`commandQueue
      ensures S.Run(State(), polled + commands) == S.Poll(S.Run(old(State()), polled))
    {
      commands := commandQueue;
      commandQueue := [];
    }

    method Drain()
      requires Valid()
      modifies this, tree
      ensures S.Drain(old(State())) == Ok(State()) && Valid()
    {
      hide WellFormed, Termination.TerminateTree, S.Enqueue;
      var commands := TerminateTree(Drained);
      outstandingContinuations := {};
      pendingExternalValues := map[];
      pendingBudgetTerminals := map[];
      adaptiveScorePending := {};
      EnqueueCommands(commands);
    }
  }
}
