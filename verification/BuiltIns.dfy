/** The built-in policies keep their side of the contract. */
module BuiltIns {
  import opened Common
  import opened Arena
  import opened Commands
  import opened CommandStream
  import opened Lifecycle
  import opened Policies
  import opened Mcts
  import opened Scheduler
  import opened Accounts

  /** Whatever such a policy answers, its commands account for every structural change it made. */
  ghost predicate Faithful(p: PolicyFn) {
    forall n: nat, h: PolicyCall, e: EngineEvent, t: GoodTree ::
      p(n, h, e, t).Ok? && ChildrenActive(t, h) ==>
        Honours(t, AnswerTree(t, p(n, h, e, t).value), p(n, h, e, t).value.commands)
  }

  ghost predicate ChildrenActive(t: Tree, h: PolicyCall) {
    h.AfterAdaptiveFork? ==> forall k :: 0 <= k < |h.children| ==> t.ActiveAt(h.children[k])
  }

  lemma BeamStepHonours(c: BeamConfig, h: PolicyCall, e: EngineEvent, t: Tree)
    requires WellFormed(t) && BeamStep(c, h, e, t).Ok?
    ensures Honours(t, AnswerTree(t, BeamStep(c, h, e, t).value), BeamStep(c, h, e, t).value.commands)
  {
    hide BeamOnEvent, BeamPruneAndContinue, WellFormed;
    if h == OnEvent {
      BeamOnEventHonours(c, e, t);
    } else {
      BeamPruneSpec(c.width, t);
    }
  }

  lemma BeamIsFaithful(c: BeamConfig)
    ensures Faithful(BeamPolicy(c)) && Honest(BeamPolicy(c))
  {
    var p := BeamPolicy(c);
    forall n: nat, h: PolicyCall, e: EngineEvent, t: GoodTree | p(n, h, e, t).Ok?
      ensures Honours(t, AnswerTree(t, p(n, h, e, t).value), p(n, h, e, t).value.commands)
    {
      BeamStepHonours(c, h, e, t);
    }
  }

  lemma BestFirstIsFaithful(c: BestFirstConfig)
    ensures Faithful(BestFirstPolicy(c)) && Honest(BestFirstPolicy(c))
  {
    var p := BestFirstPolicy(c);
    forall n: nat, h: PolicyCall, e: EngineEvent, t: GoodTree | p(n, h, e, t).Ok?
      ensures ChildrenActive(t, h) ==> Honours(t, AnswerTree(t, p(n, h, e, t).value), p(n, h, e, t).value.commands)
      ensures KeepsCounts(t, AnswerTree(t, p(n, h, e, t).value))
    {
      if ChildrenActive(t, h) {
        BestFirstHonours(c, h, t);
      }
    }
  }

  lemma MctsIsFaithful(c: MctsConfig)
    ensures Faithful(MctsPolicy(c)) && Honest(MctsPolicy(c))
  {
    var p := MctsPolicy(c);
    forall n: nat, h: PolicyCall, e: EngineEvent, t: GoodTree | p(n, h, e, t).Ok?
      ensures ChildrenActive(t, h) ==> Honours(t, AnswerTree(t, p(n, h, e, t).value), p(n, h, e, t).value.commands)
      ensures KeepsCounts(t, AnswerTree(t, p(n, h, e, t).value))
    {
      if ChildrenActive(t, h) {
        MctsHonours(c, n, h, e, t);
      } else {
        RecordEventValueHonours(e, t);
      }
    }
  }

  /** A faithful policy never trips the command check: no event fails with a command-tree mismatch. */
  lemma FaithfulNeverMismatches(c: Config, s: State, e: EngineEvent)
    requires WellFormed(s.tree) && ConfigOk(c) && Faithful(c.policy)
    requires e.TokenSampled? && e.entropy.Some? ==> e.entropy.value.Finite?
    requires PolicyCommands(c, s, e, e.ValueScored? && e.branch in s.adaptivePending).Ok?
    ensures var d := PolicyCommands(c, s, e, e.ValueScored? && e.branch in s.adaptivePending).value;
            ValidatePolicyCommands(s.tree, d.s.tree, d.commands).Ok?
  {
    if e.TokenSampled? && e.entropy.Some? && c.adaptive.Some? && AdaptiveWidth(c, s, e).value.Some? {
      AdaptiveForkIsAccounted(c, s, e);
    }
  }

  lemma AdaptiveForkIsAccounted(c: Config, s: State, e: EngineEvent)
    requires WellFormed(s.tree) && ConfigOk(c) && Faithful(c.policy) && c.adaptive.Some?
    requires e.TokenSampled? && e.entropy.Some? && e.entropy.value.Finite?
    requires AdaptiveWidth(c, s, e).Ok? && AdaptiveWidth(c, s, e).value.Some?
    requires PolicyCommands(c, s, e, false).Ok?
    ensures var d := PolicyCommands(c, s, e, false).value; Replays(s.tree, d.commands, d.s.tree)
  {
    var width := AdaptiveWidth(c, s, e).value.value;
    var forked := Fork(s.tree, e.branch, width).value;
    var children := IdsFrom(|s.tree.nodes|, width);
    ForkHonours(s.tree, e.branch, width);
    assert forall k :: 0 <= k < |children| ==> children[k] in children;
    assert ChildrenActive(forked, AfterAdaptiveFork(children));
    var answer := c.policy(s.calls, AfterAdaptiveFork(children), e, forked).value;
    hide WellFormed, Replays;
    ReplaysTransitive(s.tree, [ForkAt(e.branch, width)], forked, answer.commands, AnswerTree(forked, answer));
  }
}
