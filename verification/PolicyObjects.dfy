/** The built-in policies working on a borrowed arena (scheduler/src/policies), each hook proved against
    the policy function. */
module PolicyObjects {
  import opened Common
  import opened Arena
  import opened Commands
  import opened Ranking
  import opened Termination
  import opened Policies
  import opened Choices
  import M = Mcts
  import T = TreeSearch
  import L = Lifecycle
  import opened BranchArena

  /** The hook did to the arena what the policy function answers, and returned its commands. */
  ghost predicate Answers(expected: Result<PolicyAnswer>, r: Result<seq<Command>>, after: Tree) {
    match expected
    case Ok(a) => r == Ok(a.commands) && after.nodes == a.nodes
    case Err(error) => r == Err(error)
  }

  ghost predicate Carries(expected: Result<L.Effect>, r: Result<seq<Command>>, after: Tree) {
    match expected
    case Ok(e) => r == Ok(e.commands) && after == e.tree
    case Err(error) => r == Err(error)
  }

  /** The effect with commands put in front: a loop's results so far before those still to come. */
  function Prepended(commands: seq<Command>, e: Result<L.Effect>): Result<L.Effect> {
    match e
    case Ok(effect) => Ok(L.Effect(effect.tree, commands + effect.commands))
    case Err(error) => Err(error)
  }

  lemma PrependedThen(xs: seq<Command>, ys: seq<Command>, e: Result<L.Effect>)
    ensures Prepended([], e) == e
    ensures Prepended(xs, Prepended(ys, e)) == Prepended(xs + ys, e)
  {
    if e.Ok? {
      assert [] + e.value.commands == e.value.commands;
      assert xs + (ys + e.value.commands) == xs + ys + e.value.commands;
    }
  }

  method KillAll(tree: BranchTree, victims: seq<nat>, reason: KillReason) returns (r: Result<seq<Command>>)
    modifies tree
    ensures Carries(KillEach(old(tree.Model()), victims, reason), r, tree.Model())
  {
    ghost var t := tree.Model();
    var commands := [];
    PrependedThen([], [], KillEach(t, victims, reason));
    hide Kill;
    for i := 0 to |victims|
      invariant KillEach(t, victims, reason) == Prepended(commands, KillEach(tree.Model(), victims[i..], reason))
    {
      assert victims[i..][0] == victims[i] && victims[i..][1..] == victims[i + 1..];
      var killed := tree.Kill(victims[i]);
      if killed.Err? { return Err(killed.error); }
      PrependedThen(commands, [KillBranch(victims[i], reason)], KillEach(tree.Model(), victims[i + 1..], reason));
      commands := commands + [KillBranch(victims[i], reason)];
    }
    assert commands + [] == commands;
    r := Ok(commands);
  }

  method ForkAll(tree: BranchTree, branches: seq<nat>, width: nat) returns (r: Result<seq<Command>>)
    modifies tree
    ensures Carries(ForkEach(old(tree.Model()), branches, width), r, tree.Model())
  {
    ghost var t := tree.Model();
    var commands := [];
    PrependedThen([], [], ForkEach(t, branches, width));
    hide Fork;
    for i := 0 to |branches|
      invariant ForkEach(t, branches, width) == Prepended(commands, ForkEach(tree.Model(), branches[i..], width))
    {
      assert branches[i..][0] == branches[i] && branches[i..][1..] == branches[i + 1..];
      var forked := tree.Fork(branches[i], width);
      if forked.Err? { return Err(forked.error); }
      PrependedThen(commands, [ForkAt(branches[i], width)], ForkEach(tree.Model(), branches[i + 1..], width));
      commands := commands + [ForkAt(branches[i], width)];
    }
    assert commands + [] == commands;
    r := Ok(commands);
  }

  class BeamPolicy {
    const config: BeamConfig

    constructor (config: BeamConfig)
      ensures this.config == config
    {
      this.config := config;
    }

    method PruneAndContinue(tree: BranchTree) returns (r: Result<seq<Command>>)
      modifies tree
      ensures Carries(BeamPruneAndContinue(config.width, old(tree.Model())), r, tree.Model())
      ensures WellFormed(old(tree.Model())) ==> r.Ok? && KeepsBest(config.width, old(tree.Model()), tree.Model())
    {
      hide KeepsBest, WellFormed, Honours, BeamVictims, BeamContinues, KillEach;
      if WellFormed(tree.Model()) { BeamPruneSpec(config.width, tree.Model()); }
      var killed := KillAll(tree, BeamVictims(config.width, tree.Model()), BeamPruned);
      if killed.Err? { return killed; }
      r := Ok(killed.value + BeamContinues(tree.Model()));
    }

    method OnEvent(event: EngineEvent, tree: BranchTree) returns (r: Result<seq<Command>>)
      modifies tree
      ensures Answers(BeamStep(config, PolicyCall.OnEvent, event, old(tree.Model())), r, tree.Model())
    {
      hide BeamPruneAndContinue, ForkEach;
      var commands := [];
      if event.TokenSampled? {
        var frontier := tree.Model().ActiveFrontier();
        var commonTokens := CommonTokens(tree.Model());
        if commonTokens.Some? && commonTokens.value in config.forkAtTokens {
          var forked := ForkAll(tree, frontier, config.forkWidth);
          if forked.Err? { return forked; }
          commands := forked.value;
        }
      }
      var pruned := PruneAndContinue(tree);
      if pruned.Err? { return pruned; }
      r := Ok(commands + pruned.value);
    }

    method OnEventWithoutForking(event: EngineEvent, tree: BranchTree) returns (r: Result<seq<Command>>)
      modifies tree
      ensures Answers(BeamStep(config, WithoutForking, event, old(tree.Model())), r, tree.Model())
    {
      r := PruneAndContinue(tree);
    }

    method OnAdaptiveFork(event: EngineEvent, tree: BranchTree, children: seq<nat>) returns (r: Result<seq<Command>>)
      modifies tree
      ensures Answers(BeamStep(config, AfterAdaptiveFork(children), event, old(tree.Model())), r, tree.Model())
    {
      r := PruneAndContinue(tree);
    }
  }

  class BestFirstPolicy {
    const config: BestFirstConfig

    constructor (config: BestFirstConfig)
      ensures this.config == config
    {
      this.config := config;
    }

    method OnEvent(event: EngineEvent, tree: BranchTree) returns (r: Result<seq<Command>>)
      modifies tree
      ensures Answers(BestFirstStep(config, PolicyCall.OnEvent, old(tree.Model())), r, tree.Model())
      ensures r.Ok? && r.value != [] ==> Promising(old(tree.Model()), r.value[0].branch)
    {
      hide Fork, Sort, Promising;
      ghost var scored := ScoredFrontier(tree.Model());
      var ranked := Scored(tree.Model(), Sort(tree.Model(), ByValue, tree.Model().ActiveFrontier()));
      if ranked == [] { return Ok([]); }
      var selected := ranked[0];
      assert selected in ranked;
      if tree.nodes[selected].depth >= config.maxDepth { return Ok([Continue(selected)]); }
      var children := tree.Fork(selected, config.expansionWidth);
      if children.Err? { return Err(children.error); }
      r := Ok([ForkAt(selected, config.expansionWidth)] + ContinueEach(children.value));
    }

    method OnEventWithoutForking(event: EngineEvent, tree: BranchTree) returns (r: Result<seq<Command>>)
      ensures Answers(BestFirstStep(config, WithoutForking, tree.Model()), r, tree.Model())
    {
      r := Ok(BestFirstWithoutForking(tree.Model()).commands);
    }

    method OnAdaptiveFork(event: EngineEvent, tree: BranchTree, children: seq<nat>) returns (r: Result<seq<Command>>)
      ensures Answers(BestFirstStep(config, AfterAdaptiveFork(children), tree.Model()), r, tree.Model())
    {
      r := Ok(ContinueEach(children));
    }
  }

  class MctsPolicy {
    const config: M.MctsConfig

    constructor (config: M.MctsConfig)
      ensures this.config == config
    {
      this.config := config;
    }

    /** The child to descend into, and the number of random draws used so far. */
    method ChooseChild(tree: BranchTree, parent: nat, call: nat, draw: nat) returns (chosen: Option<nat>, drawn: nat)
      requires parent < |tree.nodes|
      ensures (chosen, drawn - draw) == M.ChooseChild(config, tree.Model(), parent, call, draw)
      ensures T.Explored(tree.Model(), parent) ==>
                chosen.Some? && drawn == draw && T.ChosenWell(config, tree.Model(), parent, chosen.value)
    {
      hide Sort, M.LiveOf, M.Unvisited, M.UctScan, M.Visits, T.Explored, T.ChosenWell;
      drawn := draw;
      var t := tree.Model();
      if T.Explored(t, parent) { T.ChoiceIsBest(config, t, parent, call, draw); }
      var children := Sort(t, ById, M.LiveOf(t, tree.nodes[parent].children));
      if children == [] { return None, drawn; }
      assert forall k :: 0 <= k < |children| ==> children[k] in children;
      var unvisited := M.Unvisited(t, children);
      if unvisited != [] {
        return Some(unvisited[config.sample(call, draw) % |unvisited|]), draw + 1;
      }
      assert forall k :: 0 <= k < |children| ==> children[k] !in unvisited && t.nodes[children[k]].visits > 0;
      var best := BestChild(tree, M.Visits(t, parent), children);
      chosen := Some(best);
    }

    /** The scan over visited children. */
    method BestChild(tree: BranchTree, parentVisits: nat, children: seq<nat>) returns (best: nat)
      requires children != [] && InTree(tree.Model(), children)
      requires forall k :: 0 <= k < |children| ==> tree.nodes[children[k]].visits > 0
      ensures best == M.UctScan(config, tree.Model(), parentVisits, children[1..], children[0])
    {
      hide M.ScoresNearlyEqual, M.UctScore;
      var t := tree.Model();
      best := children[0];
      for i := 1 to |children|
        invariant best < |t.nodes| && t.nodes[best].visits > 0
        invariant M.UctScan(config, t, parentVisits, children[1..], children[0])
               == M.UctScan(config, t, parentVisits, children[i..], best)
      {
        var child := children[i];
        assert children[i..][0] == child && children[i..][1..] == children[i + 1..];
        var score := M.UctScore(config, parentVisits, tree.nodes[child]);
        var bestScore := M.UctScore(config, parentVisits, tree.nodes[best]);
        if !M.ScoresNearlyEqual(score, bestScore) && score > bestScore {
          best := child;
        } else if M.ScoresNearlyEqual(score, bestScore) && child < best {
          best := child;
        }
      }
    }

    /** Descends from the root to an active branch and expands it. */
    method Select(tree: BranchTree, call: nat) returns (r: Result<seq<Command>>)
      requires WellFormed(tree.Model())
      modifies tree
      ensures Carries(M.Select(config, old(tree.Model()), 0, call, 0), r, tree.Model())
    {
      hide WellFormed, Fork, M.ChooseChild;
      ghost var t := tree.Model();
      RootExists(t);
      var current, draw := 0, 0;
      while tree.nodes[current].state == Expanded
        invariant tree.Model() == t && current < |tree.nodes|
        invariant M.Select(config, t, 0, call, 0) == M.Select(config, t, current, call, draw)
        decreases |tree.nodes| - current
      {
        var child, drawn := ChooseChild(tree, current, call, draw);
        if child.None? { return Ok([]); }
        M.ChildIsNewer(t, current, child.value);
        current, draw := child.value, drawn;
      }
      if tree.nodes[current].state != Active { return Ok([]); }
      if tree.nodes[current].depth >= config.maxDepth { return Ok([Continue(current)]); }
      var children := tree.Fork(current, config.expansionWidth);
      if children.Err? { return Err(children.error); }
      ForkedWidth(t, current, config.expansionWidth);
      var selected := children.value[config.sample(call, draw) % |children.value|];
      r := Ok([ForkAt(current, config.expansionWidth), Continue(selected)]);
      assert [ForkAt(current, config.expansionWidth)] + ContinueEach([selected]) == r.value;
    }

    method SelectWithoutForking(tree: BranchTree, call: nat) returns (chosen: Option<nat>)
      requires WellFormed(tree.Model())
      ensures chosen == M.SelectWithoutForking(config, tree.Model(), 0, call, 0)
    {
      hide WellFormed, M.ChooseChild;
      ghost var t := tree.Model();
      RootExists(t);
      var current, draw := 0, 0;
      while tree.nodes[current].state == Expanded
        invariant tree.Model() == t && current < |tree.nodes|
        invariant M.SelectWithoutForking(config, t, 0, call, 0) == M.SelectWithoutForking(config, t, current, call, draw)
        decreases |tree.nodes| - current
      {
        var child, drawn := ChooseChild(tree, current, call, draw);
        if child.None? { return None; }
        M.ChildIsNewer(t, current, child.value);
        current, draw := child.value, drawn;
      }
      chosen := if tree.nodes[current].state == Active then Some(current) else None;
    }

    method RecordEventValue(event: EngineEvent, tree: BranchTree) returns (r: Result<()>)
      requires WellFormed(tree.Model())
      modifies tree
      ensures match M.RecordEventValue(event, old(tree.Model()))
              case Ok(after) => r == Ok(()) && tree.Model() == after && WellFormed(after)
              case Err(error) => r == Err(error)
    {
      ghost var t := tree.Model();
      if M.RecordEventValue(event, t).Ok? { M.RecordEventValueHonours(event, t); }
      if event.BranchExhausted? { return Ok(()); }
      if !tree.Model().Has(event.branch) { return Err(UnknownBranch(event.branch)); }
      if !tree.nodes[event.branch].hasValue { return Ok(()); }
      r := tree.Backpropagate(event.branch, Finite(tree.nodes[event.branch].value));
    }

    method OnEvent(event: EngineEvent, tree: BranchTree, call: nat) returns (r: Result<seq<Command>>)
      requires WellFormed(tree.Model())
      modifies tree
      ensures Answers(M.MctsStep(config, call, PolicyCall.OnEvent, event, old(tree.Model())), r, tree.Model())
    {
      hide WellFormed, M.RecordEventValue, M.Select;
      if !event.BranchExhausted? {
        if !tree.Model().Has(event.branch) { return Err(UnknownBranch(event.branch)); }
        if !tree.nodes[event.branch].hasValue { return Ok([]); }
      }
      var recorded := RecordEventValue(event, tree);
      if recorded.Err? { return Err(recorded.error); }
      r := Select(tree, call);
    }

    method OnEventWithoutForking(event: EngineEvent, tree: BranchTree, call: nat) returns (r: Result<seq<Command>>)
      requires WellFormed(tree.Model())
      modifies tree
      ensures Answers(M.MctsStep(config, call, WithoutForking, event, old(tree.Model())), r, tree.Model())
    {
      hide WellFormed, M.RecordEventValue, M.SelectWithoutForking;
      var recorded := RecordEventValue(event, tree);
      if recorded.Err? { return Err(recorded.error); }
      var branch := SelectWithoutForking(tree, call);
      r := Ok(if branch.Some? then [Continue(branch.value)] else []);
    }

    method OnAdaptiveFork(event: EngineEvent, tree: BranchTree, children: seq<nat>, call: nat) returns (r: Result<seq<Command>>)
      requires WellFormed(tree.Model())
      modifies tree
      ensures Answers(M.MctsStep(config, call, AfterAdaptiveFork(children), event, old(tree.Model())), r, tree.Model())
    {
      hide WellFormed, M.RecordEventValue;
      var recorded := RecordEventValue(event, tree);
      if recorded.Err? { return Err(recorded.error); }
      if children == [] { return Ok([]); }
      r := Ok([Continue(children[config.sample(call, 0) % |children|])]);
    }
  }

  lemma ForkedWidth(t: Tree, b: nat, width: nat)
    requires Fork(t, b, width).Ok?
    ensures width > 0
  {
  }

  lemma RootExists(t: Tree)
    requires WellFormed(t)
    ensures |t.nodes| > 0
  {
  }
}
