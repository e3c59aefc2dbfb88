/** What never empties the frontier: pruning, and the built-in policies (scheduler/src/scheduler.rs,
    scheduler/src/policies). */
module Frontier {
  import opened Common
  import opened Arena
  import opened Commands
  import opened CommandStream
  import opened Ranking
  import opened Lifecycle
  import opened Termination
  import opened Policies
  import opened Mcts
  import opened Scheduler
  import opened Runs
  import opened Limits
  import Lockstep

  ghost predicate AnyActive(t: Tree) {
    exists i: nat :: t.ActiveAt(i)
  }

  /** Such a policy may end branches, but never all of them. */
  ghost predicate KeepsSome(p: PolicyFn) {
    forall n: nat, h: PolicyCall, e: EngineEvent, t: GoodTree ::
      p(n, h, e, t).Ok? && AnyActive(t) ==> AnyActive(AnswerTree(t, p(n, h, e, t).value))
  }

  /** With no node active, every node is terminal; that is the only way for a frontier to be empty. */
  lemma NobodyActiveMeansEnded(t: Tree)
    requires WellFormed(t) && NoOrphans(t)
    ensures AllTerminal(t) <==> !AnyActive(t)
  {
    if AnyActive(t) {
      var i: nat :| t.ActiveAt(i);
      assert !t.TerminalAt(i);
    } else {
      forall i: nat | i < |t.nodes|
        ensures t.TerminalAt(i)
      {
        if t.LiveAt(i) { LiveNodeHasFrontier(t, i); }
      }
    }
  }

  // ---------------------------------------------------------------------------
  // The built-in policies
  // ---------------------------------------------------------------------------

  lemma ForkKeepsSome(t: Tree, b: nat, width: nat)
    requires WellFormed(t) && Fork(t, b, width).Ok?
    ensures AnyActive(Fork(t, b, width).value)
  {
    ForkHonours(t, b, width);
    assert |t.nodes| in IdsFrom(|t.nodes|, width);
  }

  lemma {:induction false} ForkEachKeepsSome(t: Tree, ids: seq<nat>, width: nat)
    requires WellFormed(t) && AnyActive(t) && ForkEach(t, ids, width).Ok?
    ensures AnyActive(ForkEach(t, ids, width).value.tree)
    decreases |ids|
  {
    if ids != [] {
      ForkKeepsSome(t, ids[0], width);
      ForkKeepsWellFormed(t, ids[0], width);
      ForkEachKeepsSome(Fork(t, ids[0], width).value, ids[1..], width);
    }
  }

  lemma BeamPruneKeepsSome(width: nat, t: Tree)
    requires WellFormed(t) && AnyActive(t) && width > 0
    ensures BeamPruneAndContinue(width, t).Ok? && AnyActive(BeamPruneAndContinue(width, t).value.tree)
  {
    BeamPruneSpec(width, t);
    var pruned := BeamPruneAndContinue(width, t).value.tree;
    var i: nat :| t.ActiveAt(i);
    assert i in t.ActiveFrontier() && |t.ActiveFrontier()| > 0;
    assert pruned.ActiveAt(pruned.ActiveFrontier()[0]);
  }

  lemma BeamStepKeepsSome(c: BeamConfig, h: PolicyCall, e: EngineEvent, t: Tree)
    requires WellFormed(t) && AnyActive(t) && BeamConfigOk(c) && BeamStep(c, h, e, t).Ok?
    ensures AnyActive(AnswerTree(t, BeamStep(c, h, e, t).value))
  {
    hide WellFormed, BeamPruneAndContinue, AnyActive;
    if h == OnEvent {
      var forks := BeamForks(c, e, t).value;
      BeamForksHonour(c, e, t);
      if forks != Effect(t, []) { ForkEachKeepsSome(t, t.ActiveFrontier(), c.forkWidth); }
      BeamPruneKeepsSome(c.width, forks.tree);
      SameNodesSameFrontier(BeamPruneAndContinue(c.width, forks.tree).value.tree, t.cap);
    } else {
      BeamPruneKeepsSome(c.width, t);
      SameNodesSameFrontier(BeamPruneAndContinue(c.width, t).value.tree, t.cap);
    }
  }

  lemma SameNodesSameFrontier(t: Tree, cap: nat)
    requires AnyActive(t)
    ensures AnyActive(Tree(t.nodes, cap))
  {
    var i: nat :| t.ActiveAt(i);
    assert Tree(t.nodes, cap).ActiveAt(i);
  }

  lemma BestFirstStepKeepsSome(c: BestFirstConfig, h: PolicyCall, t: Tree)
    requires WellFormed(t) && AnyActive(t) && BestFirstStep(c, h, t).Ok?
    ensures AnyActive(AnswerTree(t, BestFirstStep(c, h, t).value))
  {
    hide WellFormed, AnyActive;
    var ranked := Scored(t, Sort(t, ByValue, t.ActiveFrontier()));
    if h.OnEvent? && ranked != [] && t.nodes[ranked[0]].depth < c.maxDepth {
      ForkKeepsSome(t, ranked[0], c.expansionWidth);
      SameNodesSameFrontier(Fork(t, ranked[0], c.expansionWidth).value, t.cap);
    } else {
      SameNodesSameFrontier(t, t.cap);
    }
  }

  lemma {:induction false} SelectKeepsSome(c: MctsConfig, t: Tree, current: nat, call: nat, draw: nat)
    requires WellFormed(t) && AnyActive(t) && current < |t.nodes| && Select(c, t, current, call, draw).Ok?
    ensures AnyActive(Select(c, t, current, call, draw).value.tree)
    decreases |t.nodes| - current
  {
    hide WellFormed, AnyActive, ChooseChild, Fork;
    match t.nodes[current].state {
      case Active =>
        if t.nodes[current].depth < c.maxDepth { ForkKeepsSome(t, current, c.expansionWidth); }
      case Expanded =>
        var (child, draws) := ChooseChild(c, t, current, call, draw);
        if child.Some? {
          ChildIsNewer(t, current, child.value);
          SelectKeepsSome(c, t, child.value, call, draw + draws);
        }
      case _ =>
    }
  }

  lemma MctsStepKeepsSome(c: MctsConfig, n: nat, h: PolicyCall, e: EngineEvent, t: Tree)
    requires WellFormed(t) && AnyActive(t) && MctsStep(c, n, h, e, t).Ok?
    ensures AnyActive(AnswerTree(t, MctsStep(c, n, h, e, t).value))
  {
    hide WellFormed, Select, SelectWithoutForking, RecordEventValue;
    if RecordEventValue(e, t).Ok? {
      RecordEventValueHonours(e, t);
      var recorded := RecordEventValue(e, t).value;
      var i: nat :| t.ActiveAt(i);
      assert recorded.ActiveAt(i);
      SameNodesSameFrontier(recorded, t.cap);
      if Select(c, recorded, 0, n, 0).Ok? {
        SelectFromRoot(c, recorded, n);
        SameNodesSameFrontier(Select(c, recorded, 0, n, 0).value.tree, t.cap);
      }
    }
    SameNodesSameFrontier(t, t.cap);
  }

  lemma SelectFromRoot(c: MctsConfig, t: Tree, n: nat)
    requires WellFormed(t) && AnyActive(t) && Select(c, t, 0, n, 0).Ok?
    ensures AnyActive(Select(c, t, 0, n, 0).value.tree)
  {
    SelectKeepsSome(c, t, 0, n, 0);
  }

  /** No built-in policy ends the last active branch. */
  lemma BeamKeepsSome(c: BeamConfig)
    requires BeamConfigOk(c)
    ensures KeepsSome(BeamPolicy(c))
  {
    hide AnyActive, BeamStep, WellFormed;
    var p := BeamPolicy(c);
    forall n: nat, h: PolicyCall, e: EngineEvent, t: GoodTree | p(n, h, e, t).Ok? && AnyActive(t)
      ensures AnyActive(AnswerTree(t, p(n, h, e, t).value))
    {
      BeamStepKeepsSome(c, h, e, t);
    }
  }

  lemma BestFirstKeepsSome(c: BestFirstConfig)
    ensures KeepsSome(BestFirstPolicy(c))
  {
    hide AnyActive, BestFirstStep, WellFormed;
    var p := BestFirstPolicy(c);
    forall n: nat, h: PolicyCall, e: EngineEvent, t: GoodTree | p(n, h, e, t).Ok? && AnyActive(t)
      ensures AnyActive(AnswerTree(t, p(n, h, e, t).value))
    {
      BestFirstStepKeepsSome(c, h, t);
    }
  }

  lemma MctsKeepsSome(c: MctsConfig)
    ensures KeepsSome(MctsPolicy(c))
  {
    hide AnyActive, MctsStep, WellFormed;
    var p := MctsPolicy(c);
    forall n: nat, h: PolicyCall, e: EngineEvent, t: GoodTree | p(n, h, e, t).Ok? && AnyActive(t)
      ensures AnyActive(AnswerTree(t, p(n, h, e, t).value))
    {
      MctsStepKeepsSome(c, n, h, e, t);
    }
  }

  // ---------------------------------------------------------------------------
  // Pruning and the policy phase
  // ---------------------------------------------------------------------------

  /** The best scored branch is no victim. */
  lemma BestIsNoVictim(t: Tree, margin: real, victim: nat)
    requires margin >= 0.0 && IsVictim(t, margin, victim)
    ensures exists i: nat :: t.ActiveAt(i) && t.nodes[i].hasValue && !IsVictim(t, margin, i)
  {
    var scored := Scored(t, t.ActiveFrontier());
    assert victim in scored;
    var best := BestScored(t, scored);
    forall j: nat | t.ActiveAt(j) && t.nodes[j].hasValue
      ensures t.nodes[j].value <= t.nodes[best].value
    {
      assert j in scored;
    }
    assert !IsVictim(t, margin, best);
  }

  lemma PolicyPhaseKeepsSome(c: Config, s: State, e: EngineEvent)
    requires WellFormed(s.tree) && NoOrphans(s.tree) && ConfigOk(c) && KeepsSome(c.policy)
    requires e.TokenSampled? && e.entropy.Some? ==> e.entropy.value.Finite?
    requires PolicyPhase(c, s, e).Ok? && AnyActive(s.tree)
    ensures AnyActive(PolicyPhase(c, s, e).value.s.tree)
  {
    var s1 := if e.ValueScored? then s.(adaptivePending := s.adaptivePending - {e.branch}) else s;
    var followup := e.ValueScored? && e.branch in s.adaptivePending;
    PolicyCommandsKeepSome(c, s1, e, followup);
    var d := PolicyCommands(c, s1, e, followup).value;
    Lockstep.PolicyCommandsKeepQueue(c, s1, e, followup);
    ValidatedTree(s.tree, d.s.tree, d.commands);
    ReclaimEachSpec(d.s.tree, TerminatedBy(d.commands));
    hide PolicyCommands, WellFormed, ReclaimEach;
    var i: nat :| d.s.tree.ActiveAt(i);
    assert ReclaimEach(d.s.tree, TerminatedBy(d.commands)).tree.ActiveAt(i);
  }

  lemma PolicyCommandsKeepSome(c: Config, s: State, e: EngineEvent, followup: bool)
    requires WellFormed(s.tree) && ConfigOk(c) && KeepsSome(c.policy)
    requires e.TokenSampled? && e.entropy.Some? ==> e.entropy.value.Finite?
    requires PolicyCommands(c, s, e, followup).Ok? && AnyActive(s.tree)
    ensures AnyActive(PolicyCommands(c, s, e, followup).value.s.tree)
  {
    hide AnyActive;
    if e.TokenSampled? && e.entropy.Some? && c.adaptive.Some? && AdaptiveWidth(c, s, e).value.Some? {
      var width := AdaptiveWidth(c, s, e).value.value;
      ForkKeepsSome(s.tree, e.branch, width);
      ForkKeepsWellFormed(s.tree, e.branch, width);
    }
  }

  /** Nothing active in, nothing active out. */
  lemma PolicyPhaseRevivesNone(c: Config, s: State, e: EngineEvent)
    requires WellFormed(s.tree) && NoOrphans(s.tree) && ConfigOk(c)
    requires e.TokenSampled? && e.entropy.Some? ==> e.entropy.value.Finite?
    requires PolicyPhase(c, s, e).Ok? && AnyActive(PolicyPhase(c, s, e).value.s.tree)
    ensures AnyActive(s.tree)
  {
    hide WellFormed, NoOrphans, PolicyPhase;
    Lockstep.PolicyPhaseInStep(c, s, e);
    var d := PolicyPhase(c, s, e).value;
    ReplayGrowsFromActive(s.tree, d.commands);
    ReplayKeepsWellFormed(s.tree, d.commands);
    var r := Replay(s.tree, d.commands).value;
    var i: nat :| d.s.tree.ActiveAt(i);
    assert SameShape(r.nodes[i], d.s.tree.nodes[i]);
    assert r.ActiveAt(i);
    if i >= |s.tree.nodes| {
      GrownFromActive(s.tree, r, i);
    }
  }

  lemma {:induction false} GrownFromActive(t: Tree, r: Tree, i: nat)
    requires WellFormed(r) && |t.nodes| <= i < |r.nodes|
    requires forall x: nat :: |t.nodes| <= x < |r.nodes| ==> NewFrom(t, r.nodes[x].parent)
    ensures AnyActive(t)
    decreases i
  {
    assert NodeOk(r, i) && NewFrom(t, r.nodes[i].parent);
    var p := r.nodes[i].parent.value;
    if p >= |t.nodes| {
      GrownFromActive(t, r, p);
    }
  }
}
