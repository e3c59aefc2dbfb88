/** Three short runs from a fresh scheduler, event by event: one that forgets the end of a spent tree, one whose
    round of scores is in time, one whose round is late (scheduler/src/scheduler.rs). */
module ShortRuns {
  import opened Common
  import opened Arena
  import opened Commands
  import opened CommandStream
  import opened Lifecycle
  import opened Adaptive
  import opened Policies
  import opened Scheduler
  import opened Runs
  import opened Limits
  import opened Answers
  import opened ConsensusRound
  import opened RoundTiming
  import C = Consensus
  import Lockstep

  function TokenEvent(b: nat): EngineEvent {
    TokenSampled(7, Finite(0.0), false, None, b)
  }

  function ScoreEvent(b: nat, score: real): EngineEvent {
    ValueScored(Finite(score), b)
  }

  /** Everything but the queue and the number of policy calls. */
  ghost predicate Alike(s: State, r: State) {
    r == s.(queue := r.queue, outstanding := r.outstanding, calls := r.calls)
  }

  // ---------------------------------------------------------------------------
  // Events that end no branch
  // ---------------------------------------------------------------------------

  /** Nobody to prune, nobody beyond the beam: the event only forks as planned and queues continues. */
  ghost predicate Peaceful(c: Config, beam: BeamConfig, s: State, e: EngineEvent, forks: Effect) {
    && ConfigOk(c) && c.adaptive.None? && c.policy == BeamPolicy(beam)
    && WellFormed(s.tree)
    && s.terminals == map[] && s.adaptivePending == {}
    && (c.margin.Some? ==> forall i: nat :: !IsVictim(s.tree, c.margin.value, i))
    && (e.TokenSampled? ==> e.entropy.None? && !e.eos)
    && BeamForks(beam, e, s.tree) == Ok(forks)
    && (forall x :: x in forks.commands ==> x.ForkAt?)
    && |forks.tree.ActiveFrontier()| <= beam.width
    && (forall b :: b in s.pending ==> s.tree.LiveAt(b) && forks.tree.LiveAt(b))
  }

  lemma NobodyPruned(t: Tree, margin: Option<real>)
    requires WellFormed(t) && (margin.Some? ==> margin.value >= 0.0 && forall i: nat :: !IsVictim(t, margin.value, i))
    ensures SpeculativePrune(t, margin) == Ok(Effect(t, []))
  {
    if margin.Some? {
      VictimsSpec(t, margin.value);
      var vs := Victims(t, margin.value);
      FirstIsIn(vs);
    }
  }

  lemma PeacefulPolicy(c: Config, beam: BeamConfig, s: State, e: EngineEvent, forks: Effect)
    requires Peaceful(c, beam, s, e, forks)
    ensures PolicyPhase(c, s, e).Ok?
    ensures Alike(s.(tree := forks.tree), PolicyPhase(c, s, e).value.s)
  {
    BeamForksHonour(beam, e, s.tree);
    ForksKeepCap(beam, e, s.tree, forks);
    hide WellFormed, BeamContinues, BeamForks, Replays, KeepsCounts;
    WideBeamContinues(beam.width, forks.tree);
    var answer := PolicyAnswer(forks.tree.nodes, forks.commands + BeamContinues(forks.tree));
    BeamSteps(beam, e, s.tree, forks);
    BeamAnswer(c, beam, s, e, forks);
    assert s.(adaptivePending := s.adaptivePending - {e.branch}) == s;
    var d := PolicyCommands(c, s, e, false).value;
    HonoursThen(s.tree, forks.commands, forks.tree, BeamContinues(forks.tree), forks.tree);
    OnlyContinues(forks.tree);
    NothingTerminated(d.commands);
    QuietCommandsPass(s.tree, d.s.tree, d.commands);
  }

  lemma OnlyContinues(t: Tree)
    ensures forall x :: x in BeamContinues(t) ==> x.Continue?
  {
  }

  lemma ForksKeepCap(beam: BeamConfig, e: EngineEvent, t: Tree, forks: Effect)
    requires WellFormed(t) && BeamForks(beam, e, t) == Ok(forks)
    ensures forks.tree.cap == t.cap
  {
    BeamForksHonour(beam, e, t);
  }

  lemma BeamSteps(beam: BeamConfig, e: EngineEvent, t: Tree, forks: Effect)
    requires BeamForks(beam, e, t) == Ok(forks)
    requires BeamPruneAndContinue(beam.width, forks.tree) == Ok(Effect(forks.tree, BeamContinues(forks.tree)))
    ensures BeamStep(beam, OnEvent, e, t) == Ok(PolicyAnswer(forks.tree.nodes, forks.commands + BeamContinues(forks.tree)))
  {
    hide BeamPruneAndContinue, BeamContinues, BeamForks;
  }

  lemma BeamAnswer(c: Config, beam: BeamConfig, s: State, e: EngineEvent, forks: Effect)
    requires WellFormed(s.tree) && ConfigOk(c) && c.adaptive.None? && c.policy == BeamPolicy(beam)
    requires e.TokenSampled? ==> e.entropy.None?
    requires forks.tree.cap == s.tree.cap
    requires BeamStep(beam, OnEvent, e, s.tree) == Ok(PolicyAnswer(forks.tree.nodes, forks.commands + BeamContinues(forks.tree)))
    ensures PolicyCommands(c, s, e, false)
         == Ok(Decision(s.(tree := forks.tree, calls := s.calls + 1), forks.commands + BeamContinues(forks.tree)))
  {
    hide BeamStep, BeamContinues, WellFormed;
  }

  lemma PeacefulFinish(c: Config, beam: BeamConfig, s: State, emitted: seq<Command>, e: EngineEvent, forks: Effect)
    requires Peaceful(c, beam, s, e, forks)
    ensures FinishEvent(c, Phase(s, emitted, false), e).Ok?
    ensures Alike(s.(tree := forks.tree), FinishEvent(c, Phase(s, emitted, false), e).value)
  {
    NobodyPruned(s.tree, c.margin);
    PeacefulPolicy(c, beam, s, e, forks);
    RetainsAll(s);
    hide WellFormed, PolicyPhase, SpeculativePrune, Enqueue, BeamForks, IsVictim;
    var d := PolicyPhase(c, s, e).value;
    RetainsAll(d.s);
    EnqueueKeepsTree(d.s, emitted + [] + d.commands);
  }

  lemma RetainsAll(s: State)
    requires s.terminals == map[] && s.adaptivePending == {} && forall b :: b in s.pending ==> s.tree.LiveAt(b)
    ensures RetainLive(s) == s
  {
    assert RetainLive(s).pending == s.pending;
    assert RetainLive(s).terminals == s.terminals;
  }

  lemma PeacefulProcess(c: Config, beam: BeamConfig, s: State, e: EngineEvent, sampled: State, emitted: seq<Command>, forks: Effect)
    requires WellFormed(s.tree) && CheckEvent(c, s, e).Ok? && ApplyEvent(c, s, e) == Ok(Phase(sampled, emitted, false))
    requires Peaceful(c, beam, sampled, e, forks)
    ensures ConfigOk(c) && ProcessEvent(c, s, e).Ok?
    ensures Alike(sampled.(tree := forks.tree), ProcessEvent(c, s, e).value)
  {
    PeacefulFinish(c, beam, sampled, emitted, e, forks);
    hide WellFormed, ApplyEvent, FinishEvent, BeamForks, IsVictim, CheckEvent, Alike;
  }

  lemma PeacefulFeed(c: Config, beam: BeamConfig, s: State, e: EngineEvent, sampled: State, emitted: seq<Command>, forks: Effect)
    requires WellFormed(s.tree) && CheckEvent(c, s, e).Ok? && ApplyEvent(c, s, e) == Ok(Phase(sampled, emitted, false))
    requires Peaceful(c, beam, sampled, e, forks) && s.accepted + 1 <= U64_MAX
    requires forall b :: b in sampled.pending ==> sampled.pending[b] > s.accepted + 1
    ensures ConfigOk(c) && FeedEvent(c, s, e).Ok?
    ensures Alike(sampled.(tree := forks.tree, accepted := s.accepted + 1), FeedEvent(c, s, e).value)
  {
    hide *;
    PeacefulProcess(c, beam, s, e, sampled, emitted, forks);
    CountingExpiresNobody(c, s, e, sampled.(tree := forks.tree));
  }

  lemma CountingExpiresNobody(c: Config, s: State, e: EngineEvent, next: State)
    requires WellFormed(s.tree) && ConfigOk(c) && ProcessEvent(c, s, e).Ok? && s.accepted + 1 <= U64_MAX
    requires Alike(next, ProcessEvent(c, s, e).value)
    requires forall b :: b in next.pending ==> next.pending[b] > s.accepted + 1
    ensures FeedEvent(c, s, e).Ok? && Alike(next.(accepted := s.accepted + 1), FeedEvent(c, s, e).value)
  {
    hide WellFormed, ProcessEvent, ResolveEach, ExpiredBelow;
    NobodyExpires(c, ProcessEvent(c, s, e).value.(accepted := s.accepted + 1));
  }

  /** Several events in a row, as a run. */
  lemma RunFeeds(c: Config, r: Run, e: EngineEvent, ops: seq<Op>)
    requires WellFormed(r.s.tree) && ConfigOk(c) && FeedEvent(c, r.s, e).Ok?
    ensures Execute(c, false, r, [Feed(e, 0)] + ops) == Execute(c, false, Run(FeedEvent(c, r.s, e).value, r.polled), ops)
  {
    hide FeedEvent, WellFormed;
    assert ([Feed(e, 0)] + ops)[1..] == ops;
  }

  // ---------------------------------------------------------------------------
  // The root's token forks
  // ---------------------------------------------------------------------------

  function Root(width: nat, value: real, hasValue: bool): BranchNode {
    BranchNode(0, None, IdsFrom(1, width), 0, 1, 0.0, value, hasValue, Expanded, 0, 0.0)
  }

  function Child(id: nat, tokens: nat, hasValue: bool): BranchNode {
    BranchNode(id, Some(0), [], 1, tokens, 0.0, 0.0, hasValue, Active, 0, 0.0)
  }

  function SampledRoot(cap: nat): Tree {
    Tree([RootNode().(tokens := 1)], cap)
  }

  lemma RootForks(beam: BeamConfig, e: EngineEvent, cap: nat)
    requires e.TokenSampled? && beam.forkAtTokens == {1} && 1 <= beam.forkWidth <= 1024 && 1 + beam.forkWidth <= cap
    ensures WellFormed(SampledRoot(cap))
    ensures BeamForks(beam, e, SampledRoot(cap)).Ok?
    ensures var forks := BeamForks(beam, e, SampledRoot(cap)).value;
            && forks.commands == [ForkAt(0, beam.forkWidth)]
            && forks.tree.cap == cap
            && |forks.tree.nodes| == 1 + beam.forkWidth
            && forks.tree.nodes[0] == Root(beam.forkWidth, 0.0, false)
            && forall i :: 1 <= i <= beam.forkWidth ==> forks.tree.nodes[i] == Child(i, 1, false)
  {
    var t := SampledRoot(cap);
    assert NodeOk(t, 0);
    assert t.ActiveBelow(0) == [];
    assert t.ActiveFrontier() == [0];
    var forked := Fork(t, 0, beam.forkWidth).value;
    assert ForkEach(forked, [], beam.forkWidth) == Ok(Effect(forked, []));
    assert [ForkAt(0, beam.forkWidth)] + [] == [ForkAt(0, beam.forkWidth)];
    assert ForkEach(t, [0], beam.forkWidth) == Ok(Effect(forked, [ForkAt(0, beam.forkWidth)]));
    assert IdsFrom(|t.nodes|, beam.forkWidth) == IdsFrom(1, beam.forkWidth);
    forall i | 1 <= i <= beam.forkWidth
      ensures forked.nodes[i] == Child(i, 1, false)
    {
      assert forked.nodes[i] == ChildOf(t.nodes[0], i);
    }
  }

  lemma SampledRootApplies(c: Config, s: State, e: EngineEvent, cap: nat, totalLimit: nat, branchLimit: nat)
    requires s == Initial(totalLimit, branchLimit, cap) && e == TokenEvent(0) && c.scorer.None? && c.adaptive.None?
    requires totalLimit > 1 && branchLimit > 1 && cap >= 1 && 1 + c.maxPendingEvents <= U64_MAX
    ensures WellFormed(s.tree) && CheckEvent(c, s, e).Ok?
    ensures ApplyEvent(c, s, e) == Ok(Phase(RootSampled(c, totalLimit, branchLimit, cap), [], false))
  {
    FreshTreeWellFormed(cap);
    assert ProjectedAfterToken(s.tree, 0, Finite(0.0)) == Ok(RootNode().(tokens := 1));
    var r, outcome := RootSampled(c, totalLimit, branchLimit, cap), BudgetOutcome(false, false);
    assert [RootNode()][0 := RootNode().(tokens := 1)] == r.tree.nodes;
    assert r.tree.nodes[0 := r.tree.nodes[0].(hasValue := false)] == r.tree.nodes;
    assert s.pending[0 := 1 + c.maxPendingEvents] == r.pending;
    assert RecordToken(s.tree, 0, Finite(0.0)) == Ok(r.tree);
    assert MarkValuePending(r.tree, 0) == Ok(r.tree);
    assert s.outstanding - {0} == {} && DropContinue(s.queue, 0) == [];
    assert Consume(s.budget, 0, 0) == Ok((r.budget, outcome));
    assert RecordSample(c, s, e) == Ok((r, outcome));
  }

  function RootSampled(c: Config, totalLimit: nat, branchLimit: nat, cap: nat): State {
    Initial(totalLimit, branchLimit, cap).(
      tree := SampledRoot(cap),
      budget := Budget(totalLimit, branchLimit, 1),
      pending := map[0 := 1 + c.maxPendingEvents])
  }

  /** The frontier is no wider than a list that covers it. */
  lemma Covered(t: Tree, all: seq<nat>)
    requires Distinct(all) && forall b: nat :: t.ActiveAt(b) ==> b in all
    ensures |t.ActiveFrontier()| <= |all|
  {
    FrontierFits(t, all);
  }

  // ---------------------------------------------------------------------------
  // A forgotten end
  // ---------------------------------------------------------------------------

  /** Two tokens for the tree and for each branch, a beam of two, a fork after the first token. */
  const PAIR: BeamConfig := BeamConfig(2, 2, {1})

  function PairConfig(): Config {
    Config(None, None, 64, None, BeamPolicy(PAIR))
  }

  function PairTree(tokens1: nat, state1: BranchState): Tree {
    Tree([Root(2, 0.0, false), Child(1, tokens1, false).(state := state1), Child(2, 1, false)], 3)
  }

  function PairForked(): State {
    Initial(2, 2, 3).(tree := PairTree(1, Active), budget := Budget(2, 2, 1), pending := map[0 := 65], accepted := 1)
  }

  function PairSpent(): State {
    PairForked().(tree := PairTree(2, Active), budget := Budget(2, 2, 2), pending := map[0 := 65, 1 := 66],
                  terminals := map[1 := TreeTerminal], accepted := 2)
  }

  function PairForgotten(): State {
    PairSpent().(tree := PairTree(2, Finalized), pending := map[0 := 65], terminals := map[], accepted := 3)
  }

  lemma PairForks()
    ensures BeamForks(PAIR, TokenEvent(0), SampledRoot(3)) == Ok(Effect(PairTree(1, Active), [ForkAt(0, 2)]))
    ensures WellFormed(SampledRoot(3)) && SampledRoot(3).LiveAt(0)
  {
    hide BeamForks, WellFormed;
    RootForks(PAIR, TokenEvent(0), 3);
    assert BeamForks(PAIR, TokenEvent(0), SampledRoot(3)).value.tree.nodes == PairTree(1, Active).nodes;
  }

  lemma PairFrontier()
    ensures var t := PairTree(1, Active); t.LiveAt(0) && |t.ActiveFrontier()| <= 2
  {
    Covered(PairTree(1, Active), [1, 2]);
  }

  lemma PairFirst()
    ensures WellFormed(Initial(2, 2, 3).tree) && ConfigOk(PairConfig())
    ensures FeedEvent(PairConfig(), Initial(2, 2, 3), TokenEvent(0)).Ok?
    ensures Alike(PairForked(), FeedEvent(PairConfig(), Initial(2, 2, 3), TokenEvent(0)).value)
  {
    hide WellFormed, BeamForks, ApplyEvent, FeedEvent, CheckEvent, PairTree, SampledRoot;
    var c, e, s := PairConfig(), TokenEvent(0), Initial(2, 2, 3);
    SampledRootApplies(c, s, e, 3, 2, 2);
    PairForks();
    PairFrontier();
    PeacefulFeed(c, PAIR, s, e, RootSampled(c, 2, 2, 3), [], Effect(PairTree(1, Active), [ForkAt(0, 2)]));
  }

  lemma PairWellFormed(tokens1: nat, state1: BranchState)
    requires state1 == Active || state1 == Finalized
    ensures WellFormed(PairTree(tokens1, state1))
  {
    var t := PairTree(tokens1, state1);
    assert NodeOk(t, 0) && NodeOk(t, 1) && NodeOk(t, 2);
  }

  /** The second token spends the tree's budget, and the end waits for the score of branch 1. */
  lemma PairSecondApplies(s: State)
    requires Alike(PairForked(), s)
    ensures WellFormed(s.tree) && CheckEvent(PairConfig(), s, TokenEvent(1)).Ok?
    ensures ApplyEvent(PairConfig(), s, TokenEvent(1)).Ok?
    ensures var ph := ApplyEvent(PairConfig(), s, TokenEvent(1)).value;
            ph.emitted == [] && !ph.exhausted && Alike(PairSpent().(accepted := 1), ph.s)
  {
    var c, e, r := PairConfig(), TokenEvent(1), PairSpent().(accepted := 1);
    PairWellFormed(1, Active);
    var tokened := s.tree.nodes[1].(tokens := 2);
    assert ProjectedAfterToken(s.tree, 1, Finite(0.0)) == Ok(tokened);
    assert s.tree.nodes[1 := tokened] == r.tree.nodes;
    assert RecordToken(s.tree, 1, Finite(0.0)) == Ok(r.tree);
    assert r.tree.nodes[1 := r.tree.nodes[1].(hasValue := false)] == r.tree.nodes;
    assert MarkValuePending(r.tree, 1) == Ok(r.tree);
    assert s.pending[1 := 66] == r.pending;
    assert Consume(s.budget, 1, 1) == Ok((r.budget, BudgetOutcome(true, true)));
    assert s.terminals[1 := TreeTerminal] == r.terminals;
  }

  /** While a terminal is deferred neither prune nor policy touches anything. */
  lemma DeferringFinish(c: Config, s: State, e: EngineEvent)
    requires WellFormed(s.tree) && ConfigOk(c) && c.margin.None? && e.TokenSampled? && !e.eos && e.entropy.None?
    requires s.terminals != map[] && s.adaptivePending == {}
    requires forall b :: b in s.pending || b in s.terminals ==> s.tree.LiveAt(b)
    ensures FinishEvent(c, Phase(s, [], false), e) == Ok(s)
  {
    hide WellFormed, PolicyPhase;
    assert RetainLive(s).pending == s.pending && RetainLive(s).terminals == s.terminals;
    assert RetainLive(s).adaptivePending == s.adaptivePending;
  }

  lemma PairSpentFields(s: State)
    requires Alike(PairSpent().(accepted := 1), s)
    ensures WellFormed(s.tree) && s.terminals != map[] && s.adaptivePending == {} && s.accepted == 1
    ensures forall b :: b in s.pending || b in s.terminals ==> s.tree.LiveAt(b)
    ensures forall b :: b in s.pending ==> s.pending[b] > 2
  {
    PairWellFormed(2, Active);
    assert 1 in s.terminals;
  }

  lemma PairSecond(s: State)
    requires Alike(PairForked(), s)
    ensures WellFormed(s.tree) && ConfigOk(PairConfig())
    ensures FeedEvent(PairConfig(), s, TokenEvent(1)).Ok? && Alike(PairSpent(), FeedEvent(PairConfig(), s, TokenEvent(1)).value)
  {
    hide WellFormed, ApplyEvent, CheckEvent, FeedEvent, FinishEvent, PairTree;
    var c, e := PairConfig(), TokenEvent(1);
    PairSecondApplies(s);
    var sampled := ApplyEvent(c, s, e).value.s;
    PairSpentFields(sampled);
    DeferringFinish(c, sampled, e);
    CountingExpiresNobody(c, s, e, sampled);
  }

  lemma PairThirdApplies(s: State)
    requires Alike(PairSpent(), s)
    ensures WellFormed(s.tree) && CheckEvent(PairConfig(), s, BranchExhausted(1)).Ok?
    ensures ApplyEvent(PairConfig(), s, BranchExhausted(1)).Ok?
    ensures var ph := ApplyEvent(PairConfig(), s, BranchExhausted(1)).value;
            ph.emitted == [FinalizeBranch(1)] && !ph.exhausted && Alike(PairForgotten().(accepted := 2), ph.s)
  {
    var c, r := PairConfig(), PairForgotten().(accepted := 2);
    PairWellFormed(2, Active);
    PairWellFormed(2, Finalized);
    assert s.tree.WithState(1, Finalized).nodes == r.tree.nodes;
    assert Finalize(s.tree, 1) == Ok(r.tree);
    assert r.tree.ActiveAt(2) && 2 in r.tree.nodes[0].children && !r.tree.AllChildrenTerminal(0);
    assert Reclaim(r.tree, 1) == Effect(r.tree, []);
    assert s.pending - {1} == r.pending && s.terminals - {1} == r.terminals;
    assert [FinalizeBranch(1)] + [] == [FinalizeBranch(1)];
  }

  lemma PairThird(s: State)
    requires Alike(PairSpent(), s)
    ensures WellFormed(s.tree) && ConfigOk(PairConfig())
    ensures FeedEvent(PairConfig(), s, BranchExhausted(1)).Ok?
    ensures Alike(PairForgotten(), FeedEvent(PairConfig(), s, BranchExhausted(1)).value)
  {
    var c, e := PairConfig(), BranchExhausted(1);
    PairThirdApplies(s);
    PairWellFormed(2, Finalized);
    var sampled := ApplyEvent(c, s, e).value.s;
    hide WellFormed, ApplyEvent, CheckEvent, FeedEvent;
    Covered(sampled.tree, [2]);
    PeacefulFeed(c, PAIR, s, e, sampled, [FinalizeBranch(1)], Effect(sampled.tree, []));
  }

  /** Three events from a fresh scheduler: the root's token, the token of branch 1, and then branch 1 exhausted
      instead of its score. The budget is spent, branch 2 stays active, and no end is deferred any more. */
  lemma ForgottenEnd()
    ensures WellFormed(Start(2, 2, 3).s.tree) && ConfigOk(PairConfig())
    ensures var run := Execute(PairConfig(), false, Start(2, 2, 3),
                               [Feed(TokenEvent(0), 0), Feed(TokenEvent(1), 0), Feed(BranchExhausted(1), 0)]);
            && run.Ok?
            && Spent(run.value.s) && !EndsWhenSpent(run.value.s)
            && run.value.s.tree.ActiveAt(2) && run.value.s.terminals == map[]
  {
    hide WellFormed, ConfigOk, FeedEvent, Execute, Alike, PairConfig, Spent, EndsWhenSpent;
    var c, r := PairConfig(), Start(2, 2, 3);
    PairFirst();
    var s1 := FeedEvent(c, r.s, TokenEvent(0)).value;
    PairSecond(s1);
    var s2 := FeedEvent(c, s1, TokenEvent(1)).value;
    PairThird(s2);
    var s3 := FeedEvent(c, s2, BranchExhausted(1)).value;
    RunFeeds(c, r, TokenEvent(0), [Feed(TokenEvent(1), 0)] + [Feed(BranchExhausted(1), 0)]);
    RunFeeds(c, Run(s1, []), TokenEvent(1), [Feed(BranchExhausted(1), 0)]);
    RunFeedsLast(c, Run(s2, []), BranchExhausted(1));
    PairInTurn();
    ForgottenFields(s3);
  }

  lemma PairInTurn()
    ensures [Feed(TokenEvent(0), 0), Feed(TokenEvent(1), 0), Feed(BranchExhausted(1), 0)]
         == [Feed(TokenEvent(0), 0)] + ([Feed(TokenEvent(1), 0)] + [Feed(BranchExhausted(1), 0)])
  {
  }

  lemma ForgottenFields(s: State)
    requires Alike(PairForgotten(), s)
    ensures Spent(s) && !EndsWhenSpent(s) && s.tree.ActiveAt(2) && s.terminals == map[]
  {
    assert !s.tree.TerminalAt(2);
  }

  lemma RunEnds(c: Config, r: Run)
    requires WellFormed(r.s.tree) && ConfigOk(c)
    ensures Execute(c, false, r, []) == Ok(r)
  {
  }

  // ---------------------------------------------------------------------------
  // A round of three
  // ---------------------------------------------------------------------------

  /** A beam of three with margin zero and scores from outside, as for agreement scores; three branches after the
      root's first token. */
  const TRIO: BeamConfig := BeamConfig(3, 3, {1})

  const BATCH: seq<nat> := [1, 2, 3]

  function TrioConfig(maxPendingEvents: nat): Config {
    Config(Some(0.0), None, maxPendingEvents, None, BeamPolicy(TRIO))
  }

  function TrioTree(rootScored: bool, n1: nat, n2: nat, n3: nat): Tree {
    Tree([Root(3, if rootScored then 1.0 else 0.0, rootScored), Child(1, n1, false), Child(2, n2, false), Child(3, n3, false)], 4)
  }

  function TrioState(tree: Tree, consumed: nat, pending: map<nat, nat>, accepted: nat): State {
    Initial(10, 10, 4).(tree := tree, budget := Budget(10, 10, consumed), pending := pending, accepted := accepted)
  }

  /** After the root's token, after its score, and after each token of the batch. */
  function Trio(max: nat, events: nat): State {
    match events
    case 1 => TrioState(TrioTree(false, 1, 1, 1), 1, map[0 := 1 + max], 1)
    case 2 => TrioState(TrioTree(true, 1, 1, 1), 1, map[], 2)
    case 3 => TrioState(TrioTree(true, 2, 1, 1), 2, map[1 := 3 + max], 3)
    case 4 => TrioState(TrioTree(true, 2, 2, 1), 3, map[1 := 3 + max, 2 := 4 + max], 4)
    case _ => TrioState(TrioTree(true, 2, 2, 2), 4, map[1 := 3 + max, 2 := 4 + max, 3 := 5 + max], 5)
  }

  /** Branch 1 has been answered with its logprob. */
  function TrioLate(): State {
    var t := TrioTree(true, 2, 2, 2);
    TrioState(t.(nodes := t.nodes[1 := Child(1, 2, true)]), 4, map[2 := 6, 3 := 7], 5)
  }

  lemma TrioNodes(rootScored: bool, n1: nat, n2: nat, n3: nat)
    ensures var t := TrioTree(rootScored, n1, n2, n3);
            && !Orphan(t, 0) && t.LiveAt(0) && t.LiveAt(1) && t.LiveAt(2) && t.LiveAt(3)
            && (forall b: nat :: t.ActiveAt(b) <==> b in BATCH)
            && |t.nodes| == 4 == t.cap && forall b: nat :: 1 <= b < 4 ==> t.ActiveAt(b)
  {
    var t := TrioTree(rootScored, n1, n2, n3);
    assert t.LiveAt(1) && 1 in t.nodes[0].children;
  }

  lemma TrioNodesOk(rootScored: bool, n1: nat, n2: nat, n3: nat)
    ensures var t := TrioTree(rootScored, n1, n2, n3);
            NodeOk(t, 0) && NodeOk(t, 1) && NodeOk(t, 2) && NodeOk(t, 3)
  {
  }

  lemma TrioWellFormed(rootScored: bool, n1: nat, n2: nat, n3: nat)
    ensures var t := TrioTree(rootScored, n1, n2, n3);
            && WellFormed(t) && NoOrphans(t)
            && |t.ActiveFrontier()| <= 3
            && forall i: nat :: !IsVictim(t, 0.0, i)
  {
    hide NodeOk, IsVictim, NoOrphans, WellFormed, TrioTree;
    var t := TrioTree(rootScored, n1, n2, n3);
    TrioNodes(rootScored, n1, n2, n3);
    TrioNodesOk(rootScored, n1, n2, n3);
    TrioUnscored(rootScored, n1, n2, n3);
    NobodyScored(t);
    Covered(t, BATCH);
    AllNodesOk(t);
  }

  lemma AllNodesOk(t: Tree)
    requires |t.nodes| == 4 == t.cap && NodeOk(t, 0) && NodeOk(t, 1) && NodeOk(t, 2) && NodeOk(t, 3)
    requires !Orphan(t, 0) && forall i: nat :: 1 <= i < 4 ==> t.ActiveAt(i)
    ensures WellFormed(t) && NoOrphans(t)
  {
    hide NodeOk;
    forall i: nat
      ensures !Orphan(t, i)
    {
      if 1 <= i < 4 { assert t.ActiveAt(i); }
    }
    forall i | 0 <= i < |t.nodes|
      ensures NodeOk(t, i)
    {
      assert i == 0 || i == 1 || i == 2 || i == 3;
    }
  }

  /** Nothing disturbs the three branches: they are unscored, fit the beam and fork no further. */
  lemma TrioPeaceful(max: nat, s: State, e: EngineEvent, n1: nat, n2: nat, n3: nat)
    requires max > 0 && s.tree == TrioTree(true, n1, n2, n3) && s.terminals == map[] && s.adaptivePending == {}
    requires forall b :: b in s.pending ==> 1 <= b <= 3
    requires e.TokenSampled? ==> e.entropy.None? && !e.eos && n1 == 2
    ensures Peaceful(TrioConfig(max), TRIO, s, e, Effect(s.tree, []))
  {
    hide WellFormed, NoOrphans, IsVictim, BeamForks, TrioTree;
    TrioLive(true, n1, n2, n3);
    TrioWellFormed(true, n1, n2, n3);
    if e.TokenSampled? {
      NoFurtherFork(s.tree, e, 1);
    } else {
      OnlyTokensFork(s.tree, e);
    }
  }

  lemma OnlyTokensFork(t: Tree, e: EngineEvent)
    requires !e.TokenSampled?
    ensures BeamForks(TRIO, e, t) == Ok(Effect(t, []))
  {
  }

  lemma TrioLive(rootScored: bool, n1: nat, n2: nat, n3: nat)
    ensures var t := TrioTree(rootScored, n1, n2, n3);
            && t.ActiveAt(1) && t.nodes[1].tokens == n1
            && forall b: nat :: b <= 3 ==> t.LiveAt(b)
  {
  }

  lemma TrioFirst(max: nat)
    requires 0 < max <= U64_MAX - 10
    ensures var c, s, e := TrioConfig(max), Initial(10, 10, 4), TokenEvent(0);
            WellFormed(s.tree) && ConfigOk(c) && FeedEvent(c, s, e).Ok? && Alike(Trio(max, 1), FeedEvent(c, s, e).value)
  {
    hide WellFormed, NoOrphans, BeamForks, ApplyEvent, FeedEvent, CheckEvent, IsVictim;
    var c, s, e := TrioConfig(max), Initial(10, 10, 4), TokenEvent(0);
    var t := TrioTree(false, 1, 1, 1);
    SampledRootApplies(c, s, e, 4, 10, 10);
    RootForks(TRIO, e, 4);
    assert BeamForks(TRIO, e, SampledRoot(4)).value.tree.nodes == t.nodes;
    TrioWellFormed(false, 1, 1, 1);
    assert t.LiveAt(0) && SampledRoot(4).LiveAt(0);
    NobodyScored(SampledRoot(4));
    PeacefulFeed(c, TRIO, s, e, RootSampled(c, 10, 10, 4), [], Effect(t, [ForkAt(0, 3)]));
  }

  lemma NobodyScored(t: Tree)
    requires forall i: nat :: t.ActiveAt(i) ==> !t.nodes[i].hasValue
    ensures forall i: nat :: !IsVictim(t, 0.0, i)
  {
  }

  function AfterScore(s: State, b: nat, score: real): State
    requires s.tree.LiveAt(b)
  {
    s.(tree := s.tree.(nodes := s.tree.nodes[b := s.tree.nodes[b].(value := score, hasValue := true)]),
       pending := s.pending - {b},
       terminals := s.terminals - {b})
  }

  /** An awaited score to which no terminal was deferred is recorded. */
  lemma ScoreApplies(c: Config, s: State, b: nat, score: real)
    requires WellFormed(s.tree) && s.tree.LiveAt(b) && b in s.pending && b !in s.terminals && c.scorer.None?
    ensures CheckEvent(c, s, ScoreEvent(b, score)).Ok?
    ensures ApplyEvent(c, s, ScoreEvent(b, score)) == Ok(Phase(AfterScore(s, b, score), [], false))
  {
    assert NodeOk(s.tree, b);
    hide WellFormed, NodeOk;
    assert RecordValue(s.tree, b, Finite(score)) == Ok(AfterScore(s, b, score).tree);
  }

  lemma TrioScoreApplies(max: nat, s: State)
    requires Alike(Trio(max, 1), s)
    ensures s.tree == TrioTree(false, 1, 1, 1)
    ensures s.tree.LiveAt(0) && 0 in s.pending && 0 !in s.terminals
    ensures Alike(Trio(max, 2).(accepted := 1), AfterScore(s, 0, 1.0))
    ensures AfterScore(s, 0, 1.0).tree == TrioTree(true, 1, 1, 1)
  {
    var r, after := Trio(max, 2), AfterScore(s, 0, 1.0);
    assert after.tree.nodes == r.tree.nodes;
    assert after.pending == r.pending && after.terminals == r.terminals;
  }

  lemma TrioSecond(max: nat, s: State)
    requires 0 < max <= U64_MAX - 10 && Alike(Trio(max, 1), s)
    ensures var c, e := TrioConfig(max), ScoreEvent(0, 1.0);
            WellFormed(s.tree) && ConfigOk(c) && FeedEvent(c, s, e).Ok? && Alike(Trio(max, 2), FeedEvent(c, s, e).value)
  {
    hide WellFormed, NoOrphans, ApplyEvent, CheckEvent, FeedEvent, IsVictim, Peaceful, TrioTree, AfterScore;
    var c, e := TrioConfig(max), ScoreEvent(0, 1.0);
    TrioScoreApplies(max, s);
    TrioWellFormed(false, 1, 1, 1);
    ScoreApplies(c, s, 0, 1.0);
    var sampled := AfterScore(s, 0, 1.0);
    TrioPeaceful(max, sampled, e, 1, 1, 1);
    PeacefulFeed(c, TRIO, s, e, sampled, [], Effect(sampled.tree, []));
  }

  function AfterToken(c: Config, s: State, b: nat): State
    requires s.tree.ActiveAt(b)
  {
    s.(tree := s.tree.(nodes := s.tree.nodes[b := s.tree.nodes[b].(tokens := s.tree.nodes[b].tokens + 1)]),
       budget := s.budget.(consumed := s.budget.consumed + 1),
       pending := s.pending[b := s.accepted + 1 + c.maxPendingEvents],
       outstanding := s.outstanding - {b},
       queue := DropContinue(s.queue, b))
  }

  /** A token that reaches no limit is recorded and its score awaited. */
  lemma TokenApplies(c: Config, s: State, b: nat)
    requires WellFormed(s.tree) && s.tree.ActiveAt(b) && !s.tree.nodes[b].hasValue && b !in s.pending
    requires c.scorer.None? && s.budget.consumed + 1 < s.budget.totalLimit && s.tree.nodes[b].tokens + 1 < s.budget.branchLimit
    requires s.budget.branchLimit <= U64_MAX && s.budget.totalLimit <= U64_MAX && s.accepted + 1 + c.maxPendingEvents <= U64_MAX
    ensures CheckEvent(c, s, TokenEvent(b)).Ok?
    ensures ApplyEvent(c, s, TokenEvent(b)) == Ok(Phase(AfterToken(c, s, b), [], false))
  {
    var r := AfterToken(c, s, b);
    assert NodeOk(s.tree, b);
    hide WellFormed, NodeOk;
    var tokened := s.tree.nodes[b].(tokens := s.tree.nodes[b].tokens + 1);
    assert ProjectedAfterToken(s.tree, b, Finite(0.0)) == Ok(tokened);
    assert RecordToken(s.tree, b, Finite(0.0)) == Ok(r.tree);
    assert r.tree.nodes[b := r.tree.nodes[b].(hasValue := false)] == r.tree.nodes;
    assert MarkValuePending(r.tree, b) == Ok(r.tree);
    assert Consume(s.budget, b, s.tree.nodes[b].tokens) == Ok((r.budget, BudgetOutcome(false, false)));
  }

  /** The tokens of the batch come as events 3, 4 and 5, of branches 1, 2 and 3. */
  lemma TrioNext(max: nat, events: nat, s: State) returns (n1: nat, n2: nat, n3: nat)
    requires 2 <= events <= 4 && Alike(Trio(max, events), s)
    ensures s.tree == TrioTree(true, n1, n2, n3)
    ensures s.tree.ActiveAt(events - 1) && !s.tree.nodes[events - 1].hasValue && events - 1 !in s.pending
    ensures s.tree.nodes[events - 1].tokens == 1 && s.budget == Budget(10, 10, events - 1) && s.accepted == events
  {
    n1, n2, n3 := s.tree.nodes[1].tokens, s.tree.nodes[2].tokens, s.tree.nodes[3].tokens;
  }

  lemma TrioAfter(max: nat, events: nat, s: State) returns (n2: nat, n3: nat)
    requires 2 <= events <= 4 && Alike(Trio(max, events), s) && s.tree.ActiveAt(events - 1)
    ensures var after := AfterToken(TrioConfig(max), s, events - 1);
            && Alike(Trio(max, events + 1).(accepted := events), after)
            && after.tree == TrioTree(true, 2, n2, n3)
            && after.terminals == map[] && after.adaptivePending == {}
            && forall b :: b in after.pending ==> 1 <= b <= 3
  {
    TrioAfterNodes(max, events, s);
    var r := Trio(max, events + 1);
    n2, n3 := r.tree.nodes[2].tokens, r.tree.nodes[3].tokens;
  }

  lemma TrioAfterNodes(max: nat, events: nat, s: State)
    requires 2 <= events <= 4 && Alike(Trio(max, events), s) && s.tree.ActiveAt(events - 1)
    ensures AfterToken(TrioConfig(max), s, events - 1).tree.nodes == Trio(max, events + 1).tree.nodes
    ensures AfterToken(TrioConfig(max), s, events - 1).pending == Trio(max, events + 1).pending
  {
  }

  lemma NoFurtherFork(t: Tree, e: EngineEvent, b: nat)
    requires t.ActiveAt(b) && t.nodes[b].tokens != 1
    ensures BeamForks(TRIO, e, t) == Ok(Effect(t, []))
  {
    assert b in t.ActiveFrontier();
  }

  lemma TrioToken(max: nat, events: nat, s: State)
    requires 0 < max <= U64_MAX - 10 && 2 <= events <= 4 && Alike(Trio(max, events), s)
    ensures var c, e := TrioConfig(max), TokenEvent(events - 1);
            && WellFormed(s.tree) && ConfigOk(c) && ProcessEvent(c, s, e).Ok?
            && Alike(Trio(max, events + 1).(accepted := events), ProcessEvent(c, s, e).value)
  {
    hide WellFormed, NoOrphans, ApplyEvent, CheckEvent, ProcessEvent, IsVictim, Peaceful, TrioTree, AfterToken, Trio, Alike;
    var c, e := TrioConfig(max), TokenEvent(events - 1);
    var n1, n2, n3 := TrioNext(max, events, s);
    TrioWellFormed(true, n1, n2, n3);
    TokenApplies(c, s, events - 1);
    var sampled := AfterToken(c, s, events - 1);
    var m2, m3 := TrioAfter(max, events, s);
    TrioPeaceful(max, sampled, e, 2, m2, m3);
    PeacefulProcess(c, TRIO, s, e, sampled, [], Effect(sampled.tree, []));
    StillAlike(Trio(max, events + 1).(accepted := events), sampled, ProcessEvent(c, s, e).value);
  }

  /** A token with which nobody becomes due. */
  lemma TrioTokenFeeds(max: nat, events: nat, s: State)
    requires 2 <= max <= U64_MAX - 10 && 2 <= events <= 4 && Alike(Trio(max, events), s) && (events == 4 ==> max > 2)
    ensures var c, e := TrioConfig(max), TokenEvent(events - 1);
            WellFormed(s.tree) && ConfigOk(c) && FeedEvent(c, s, e).Ok? && Alike(Trio(max, events + 1), FeedEvent(c, s, e).value)
  {
    hide WellFormed, ProcessEvent, FeedEvent;
    TrioToken(max, events, s);
    CountingExpiresNobody(TrioConfig(max), s, TokenEvent(events - 1), Trio(max, events + 1).(accepted := events));
  }

  lemma LateApplies(s: State)
    requires Alike(Trio(2, 5), s)
    ensures s.tree.LiveAt(1) && 1 in s.pending && 1 !in s.terminals
    ensures Alike(TrioLate(), AfterScore(s, 1, 0.0))
  {
    var r, after := TrioLate(), AfterScore(s, 1, 0.0);
    assert after.tree.nodes == r.tree.nodes;
    assert after.pending == r.pending && after.terminals == r.terminals;
  }

  /** The logprob of branch 1 as its score. */
  lemma LateAnswer(s: State)
    requires Alike(Trio(2, 5), s)
    ensures var c, e := TrioConfig(2), ScoreEvent(1, 0.0);
            && WellFormed(s.tree) && ConfigOk(c) && ProcessEvent(c, s, e).Ok? && Alike(TrioLate(), ProcessEvent(c, s, e).value)
  {
    hide WellFormed, NoOrphans, ApplyEvent, CheckEvent, ProcessEvent, IsVictim, Peaceful, Trio, Alike, AfterScore;
    var c, e := TrioConfig(2), ScoreEvent(1, 0.0);
    TrioFields(2, s);
    TrioWellFormed(true, 2, 2, 2);
    LateApplies(s);
    ScoreApplies(c, s, 1, 0.0);
    var sampled := AfterScore(s, 1, 0.0);
    LateIsPeaceful(sampled, e);
    PeacefulProcess(c, TRIO, s, e, sampled, [], Effect(sampled.tree, []));
    StillAlike(TrioLate(), sampled, ProcessEvent(c, s, e).value);
  }

  lemma StillAlike(a: State, b: State, r: State)
    requires Alike(a, b) && Alike(b.(tree := b.tree), r)
    ensures Alike(a, r)
  {
  }

  lemma LateNodes()
    ensures var t := TrioLate().tree;
            && SameStructure(TrioTree(true, 2, 2, 2), t) && TrioTree(true, 2, 2, 2).cap == t.cap
            && (forall b: nat :: t.ActiveAt(b) <==> b in BATCH)
            && t.LiveAt(1) && t.LiveAt(2) && t.LiveAt(3)
            && forall b: nat :: t.ActiveAt(b) && t.nodes[b].hasValue ==> b == 1
  {
  }

  lemma OneScored(t: Tree, b: nat)
    requires forall i: nat :: t.ActiveAt(i) && t.nodes[i].hasValue ==> i == b
    ensures forall i: nat :: !IsVictim(t, 0.0, i)
  {
  }

  lemma LateTree()
    ensures var t := TrioLate().tree;
            && WellFormed(t) && NoOrphans(t)
            && |t.ActiveFrontier()| <= 3
            && (forall b: nat :: t.ActiveAt(b) <==> b in BATCH)
            && t.LiveAt(1) && t.LiveAt(2) && t.LiveAt(3)
            && forall i: nat :: !IsVictim(t, 0.0, i)
  {
    hide TrioLate, TrioTree, WellFormed, Orphan, SameStructure, IsVictim, Tree.ActiveFrontier;
    var before, t := TrioTree(true, 2, 2, 2), TrioLate().tree;
    LateNodes();
    TrioWellFormed(true, 2, 2, 2);
    SameStructureWellFormed(before, t);
    OneScored(t, 1);
    Covered(t, BATCH);
  }

  lemma LateFields(s: State)
    requires Alike(TrioLate(), s)
    ensures s.tree == TrioLate().tree && s.pending == map[2 := 6, 3 := 7]
    ensures s.terminals == map[] && s.adaptivePending == {} && s.accepted == 5
    ensures forall b: nat :: s.tree.ActiveAt(b) && b in s.pending ==> !s.tree.nodes[b].hasValue
    ensures forall b :: b in s.pending ==> s.tree.LiveAt(b)
  {
  }

  lemma CalmIsPeaceful(max: nat, s: State, e: EngineEvent)
    requires max > 0 && !e.TokenSampled? && WellFormed(s.tree) && s.terminals == map[] && s.adaptivePending == {}
    requires |s.tree.ActiveFrontier()| <= 3 && forall i: nat :: !IsVictim(s.tree, 0.0, i)
    requires forall b :: b in s.pending ==> s.tree.LiveAt(b)
    ensures Peaceful(TrioConfig(max), TRIO, s, e, Effect(s.tree, []))
  {
    hide WellFormed, IsVictim;
  }

  lemma LateIsPeaceful(s: State, e: EngineEvent)
    requires Alike(TrioLate(), s) && !e.TokenSampled?
    ensures Peaceful(TrioConfig(2), TRIO, s, e, Effect(s.tree, []))
  {
    hide *;
    LateFields(s);
    LateTree();
    CalmIsPeaceful(2, s, e);
  }

  /** With the last token of the batch branch 1 becomes due and is answered. */
  lemma TrioLastIsLate(s: State)
    requires Alike(Trio(2, 4), s)
    ensures var c, e := TrioConfig(2), TokenEvent(3);
            WellFormed(s.tree) && ConfigOk(c) && FeedEvent(c, s, e).Ok? && Alike(TrioLate(), FeedEvent(c, s, e).value)
  {
    var c, e := TrioConfig(2), TokenEvent(3);
    TrioToken(2, 4, s);
    var counted := ProcessEvent(c, s, e).value.(accepted := 5);
    hide WellFormed, ProcessEvent, Alike;
    CountedAlike(ProcessEvent(c, s, e).value, counted);
    OneIsDue(counted);
    LateAnswer(counted);
    ResolveOne(c, counted, 1);
  }

  lemma CountedAlike(s: State, counted: State)
    requires Alike(Trio(2, 5).(accepted := 4), s) && counted == s.(accepted := 5)
    ensures Alike(Trio(2, 5), counted)
  {
  }

  lemma OneIsDue(s: State)
    requires Alike(Trio(2, 5), s)
    ensures ExpiredBelow(s, |s.tree.nodes|) == [1]
    ensures 1 in s.pending && s.tree.Has(1) && s.tree.nodes[1].logprob == 0.0
  {
    assert ExpiredBelow(s, 0) == [];
    assert ExpiredBelow(s, 1) == [];
    assert ExpiredBelow(s, 2) == [1];
    assert ExpiredBelow(s, 3) == [1];
  }

  lemma ResolveOne(c: Config, s: State, b: nat)
    requires WellFormed(s.tree) && ConfigOk(c) && b in s.pending && s.tree.Has(b)
    requires ProcessEvent(c, s, ValueScored(Finite(s.tree.nodes[b].logprob), b)).Ok?
    ensures ResolveEach(c, s, [b]) == ProcessEvent(c, s, ValueScored(Finite(s.tree.nodes[b].logprob), b))
  {
    hide ProcessEvent, WellFormed;
  }

  /** The five events before the scores of the batch. */
  function TrioOps(): seq<Op> {
    [Feed(TokenEvent(0), 0), Feed(ScoreEvent(0, 1.0), 0), Feed(TokenEvent(1), 0), Feed(TokenEvent(2), 0), Feed(TokenEvent(3), 0)]
  }

  lemma OpsInTurn()
    ensures TrioOps() == [Feed(TokenEvent(0), 0)] + ([Feed(ScoreEvent(0, 1.0), 0)] + ([Feed(TokenEvent(1), 0)]
                         + ([Feed(TokenEvent(2), 0)] + [Feed(TokenEvent(3), 0)])))
  {
  }

  /** Up to the last token of the batch. */
  lemma TrioRun(max: nat) returns (s: State)
    requires 2 <= max <= U64_MAX - 10
    ensures Alike(Trio(max, 4), s) && WellFormed(Start(10, 10, 4).s.tree) && WellFormed(s.tree) && ConfigOk(TrioConfig(max))
    ensures Execute(TrioConfig(max), false, Start(10, 10, 4), TrioOps())
         == Execute(TrioConfig(max), false, Run(s, []), [Feed(TokenEvent(3), 0)])
  {
    hide WellFormed, ConfigOk, FeedEvent, Execute, Alike, Trio, TrioOps, TrioConfig;
    var c, r := TrioConfig(max), Start(10, 10, 4);
    OpsInTurn();
    var last := [Feed(TokenEvent(3), 0)];
    var third := [Feed(TokenEvent(2), 0)] + last;
    var second := [Feed(TokenEvent(1), 0)] + third;
    TrioFirst(max);
    var s1 := FeedEvent(c, r.s, TokenEvent(0)).value;
    RunFeeds(c, r, TokenEvent(0), [Feed(ScoreEvent(0, 1.0), 0)] + second);
    TrioSecond(max, s1);
    var s2 := FeedEvent(c, s1, ScoreEvent(0, 1.0)).value;
    RunFeeds(c, Run(s1, []), ScoreEvent(0, 1.0), second);
    TrioTokenFeeds(max, 2, s2);
    var s3 := FeedEvent(c, s2, TokenEvent(1)).value;
    RunFeeds(c, Run(s2, []), TokenEvent(1), third);
    TrioTokenFeeds(max, 3, s3);
    s := FeedEvent(c, s3, TokenEvent(2)).value;
    RunFeeds(c, Run(s3, []), TokenEvent(2), last);
    TrioWellFormedAt(max, s);
  }

  lemma TrioWellFormedAt(max: nat, s: State)
    requires Alike(Trio(max, 4), s)
    ensures WellFormed(s.tree)
  {
    TrioWellFormed(true, 2, 2, 1);
  }

  lemma RunFeedsLast(c: Config, r: Run, e: EngineEvent)
    requires WellFormed(r.s.tree) && ConfigOk(c) && FeedEvent(c, r.s, e).Ok?
    ensures Execute(c, false, r, [Feed(e, 0)]) == Ok(Run(FeedEvent(c, r.s, e).value, r.polled))
  {
    hide FeedEvent, WellFormed;
    RunFeeds(c, r, e, []);
    assert [Feed(e, 0)] + [] == [Feed(e, 0)];
    RunEnds(c, Run(FeedEvent(c, r.s, e).value, r.polled));
  }

  lemma Starts(s: State, scores: C.Scores)
    requires WellFormed(s.tree) && NoOrphans(s.tree) && s.terminals == map[] && s.accepted == 5 && scores.Keys == {1, 2, 3}
    requires forall b: nat :: s.tree.ActiveAt(b) <==> b in BATCH
    requires forall b :: b in s.pending ==> b in BATCH && (s.tree.ActiveAt(b) ==> !s.tree.nodes[b].hasValue)
    ensures RoundStart(s, scores, BATCH)
  {
    hide WellFormed, NoOrphans;
  }

  lemma TrioStarts(max: nat, s: State, scores: C.Scores)
    requires max >= 3 && Alike(Trio(max, 5), s) && scores.Keys == {1, 2, 3}
    ensures RoundStart(s, scores, BATCH) && InTime(s, BATCH)
  {
    TrioFields(max, s);
    hide *;
    TrioWellFormed(true, 2, 2, 2);
    TrioUnscored(true, 2, 2, 2);
    Starts(s, scores);
    TrioInTime(max, s);
  }

  lemma TrioFields(max: nat, s: State)
    requires Alike(Trio(max, 5), s)
    ensures s.tree == TrioTree(true, 2, 2, 2) && s.pending == map[1 := 3 + max, 2 := 4 + max, 3 := 5 + max]
    ensures s.terminals == map[] && s.accepted == 5
    ensures forall b :: b in s.pending ==> b in BATCH
  {
  }

  lemma TrioUnscored(rootScored: bool, n1: nat, n2: nat, n3: nat)
    ensures var t := TrioTree(rootScored, n1, n2, n3);
            && (forall b: nat :: t.ActiveAt(b) <==> b in BATCH)
            && forall b: nat :: t.ActiveAt(b) ==> !t.nodes[b].hasValue
  {
  }

  lemma TrioInTime(max: nat, s: State)
    requires max >= 3 && s.accepted == 5 && s.pending == map[1 := 3 + max, 2 := 4 + max, 3 := 5 + max]
    ensures InTime(s, BATCH)
  {
  }

  lemma LateStarts(s: State, scores: C.Scores)
    requires Alike(TrioLate(), s) && scores.Keys == {1, 2, 3}
    ensures RoundStart(s, scores, BATCH) && !InTime(s, BATCH)
  {
    LateFields(s);
    hide WellFormed, NoOrphans, IsVictim, RoundStart, TrioLate, TrioTree, Alike;
    LateTree();
    Starts(s, scores);
    assert BATCH[0] !in s.pending;
  }

  /** Three tokens and then their scores, with three or more events allowed to pend: the round is taken. */
  lemma TimelyRound(max: nat, scores: C.Scores)
    requires 3 <= max <= U64_MAX - 10 && scores.Keys == {1, 2, 3}
    ensures var c := TrioConfig(max);
            && WellFormed(Start(10, 10, 4).s.tree) && ConfigOk(c)
            && var run := Execute(c, false, Start(10, 10, 4), TrioOps());
            && run.Ok? && RoundConfig(c, TRIO, |BATCH|) && RoundStart(run.value.s, scores, BATCH)
            && FeedScores(c, run.value.s, BATCH, scores).Ok?
            && forall b: nat :: FeedScores(c, run.value.s, BATCH, scores).value.tree.ActiveAt(b) <==> C.IsTop(scores, b)
  {
    var c := TrioConfig(max);
    hide WellFormed, FeedEvent, Execute, FeedScores, Alike, Trio, RoundStart, InTime, TrioOps, C.IsTop;
    var s := TrioRun(max);
    TrioTokenFeeds(max, 4, s);
    RunFeedsLast(c, Run(s, []), TokenEvent(3));
    var end := FeedEvent(c, s, TokenEvent(3)).value;
    TrioStarts(max, end, scores);
    TimelyRoundKeepsTop(c, TRIO, end, scores, BATCH);
  }

  /** The same events with only two allowed to pend: branch 1 is answered with its logprob as soon as the last
      token is counted, and the engine's own score for it is refused. */
  lemma LateRound(scores: C.Scores)
    requires scores.Keys == {1, 2, 3}
    ensures var c := TrioConfig(2);
            && WellFormed(Start(10, 10, 4).s.tree) && ConfigOk(c)
            && var run := Execute(c, false, Start(10, 10, 4), TrioOps());
            && run.Ok? && RoundConfig(c, TRIO, |BATCH|) && RoundStart(run.value.s, scores, BATCH)
            && FeedScores(c, run.value.s, BATCH, scores) == Err(UnexpectedValueScore(1))
  {
    var c := TrioConfig(2);
    hide WellFormed, FeedEvent, Execute, FeedScores, Alike, Trio, RoundStart, InTime, TrioOps;
    var s := TrioRun(2);
    TrioLastIsLate(s);
    RunFeedsLast(c, Run(s, []), TokenEvent(3));
    var end := FeedEvent(c, s, TokenEvent(3)).value;
    LateStarts(end, scores);
    LateScoreRefused(end, scores);
  }

  lemma LateScoreRefused(s: State, scores: C.Scores)
    requires Alike(TrioLate(), s) && scores.Keys == {1, 2, 3}
    ensures WellFormed(s.tree) && ConfigOk(TrioConfig(2)) && forall k :: 0 <= k < |BATCH| ==> BATCH[k] in scores
    ensures FeedScores(TrioConfig(2), s, BATCH, scores) == Err(UnexpectedValueScore(1))
  {
    hide *;
    LateFields(s);
    LateTree();
    LateConfigOk();
    BatchScored(scores);
    LateIsLive(s);
    LateScoreIsRefused(TrioConfig(2), s, 1, scores[1]);
    AnswerIsScore(1, scores[1]);
    FirstRefused(TrioConfig(2), s, scores, UnexpectedValueScore(1));
  }

  lemma LateIsLive(s: State)
    requires s.tree.LiveAt(1)
    ensures 1 < |s.tree.nodes|
  {
  }

  lemma LateConfigOk()
    ensures ConfigOk(TrioConfig(2)) && TrioConfig(2).scorer.None? && 6 <= U64_MAX
  {
  }

  lemma BatchScored(scores: C.Scores)
    requires scores.Keys == {1, 2, 3}
    ensures 1 in scores && forall k :: 0 <= k < |BATCH| ==> BATCH[k] in scores
    ensures Score(scores, 1) == ValueScored(Finite(scores[1]), 1)
  {
  }

  lemma FirstRefused(c: Config, s: State, scores: C.Scores, error: SchedulerError)
    requires WellFormed(s.tree) && ConfigOk(c) && forall k :: 0 <= k < |BATCH| ==> BATCH[k] in scores
    requires 1 in scores && FeedEvent(c, s, Score(scores, 1)) == Err(error)
    ensures FeedScores(c, s, BATCH, scores) == Err(error)
  {
    hide FeedEvent, WellFormed;
  }

  // ---------------------------------------------------------------------------
  // The round as an instance of the theorem on rounds
  // ---------------------------------------------------------------------------

  /** After the root's token and its score. */
  lemma RootScored(max: nat) returns (s: State)
    requires 2 <= max <= U64_MAX - 10
    ensures WellFormed(Start(10, 10, 4).s.tree) && ConfigOk(TrioConfig(max))
    ensures Execute(TrioConfig(max), false, Start(10, 10, 4), [Feed(TokenEvent(0), 0), Feed(ScoreEvent(0, 1.0), 0)]) == Ok(Run(s, []))
    ensures Alike(Trio(max, 2), s) && RunInvariant(TrioConfig(max), Run(s, []))
  {
    hide WellFormed, ConfigOk, FeedEvent, Execute, Alike, Trio, TrioConfig, RunInvariant;
    var c, r := TrioConfig(max), Start(10, 10, 4);
    TrioFirst(max);
    var s1 := FeedEvent(c, r.s, TokenEvent(0)).value;
    TrioSecond(max, s1);
    s := FeedEvent(c, s1, ScoreEvent(0, 1.0)).value;
    var ops := [Feed(TokenEvent(0), 0), Feed(ScoreEvent(0, 1.0), 0)];
    assert ops == [Feed(TokenEvent(0), 0)] + [Feed(ScoreEvent(0, 1.0), 0)];
    RunFeeds(c, r, TokenEvent(0), [Feed(ScoreEvent(0, 1.0), 0)]);
    RunFeedsLast(c, Run(s1, []), ScoreEvent(0, 1.0));
    StartInvariant(c, 10, 10, 4);
    EveryRun(c, false, r, ops);
  }

  function TrioTokens(): seq<EngineEvent> {
    [TokenEvent(1), TokenEvent(2), TokenEvent(3)]
  }

  lemma TrioBatch(max: nat, s: State, scores: C.Scores) returns (end: State)
    requires 2 <= max <= U64_MAX - 10 && Alike(Trio(max, 2), s) && WellFormed(s.tree) && ConfigOk(TrioConfig(max))
    requires scores.Keys == {1, 2, 3}
    ensures FeedTokens(TrioConfig(max), s, TrioTokens()) == Ok(end) && RoundStart(end, scores, BATCH)
  {
    hide WellFormed, ConfigOk, FeedEvent, Alike, Trio, TrioConfig, RoundStart, FeedTokens;
    var c := TrioConfig(max);
    TrioTokenFeeds(max, 2, s);
    var s3 := FeedEvent(c, s, TokenEvent(1)).value;
    TrioTokenFeeds(max, 3, s3);
    var s4 := FeedEvent(c, s3, TokenEvent(2)).value;
    if max > 2 {
      TrioTokenFeeds(max, 4, s4);
      end := FeedEvent(c, s4, TokenEvent(3)).value;
      TrioStarts(max, end, scores);
    } else {
      TrioLastIsLate(s4);
      end := FeedEvent(c, s4, TokenEvent(3)).value;
      LateStarts(end, scores);
    }
    TokensInTurn(c, s, s3, s4, end);
  }

  lemma TokensInTurn(c: Config, s: State, s3: State, s4: State, end: State)
    requires WellFormed(s.tree) && ConfigOk(c) && FeedEvent(c, s, TokenEvent(1)) == Ok(s3)
    requires WellFormed(s3.tree) && FeedEvent(c, s3, TokenEvent(2)) == Ok(s4)
    requires WellFormed(s4.tree) && FeedEvent(c, s4, TokenEvent(3)) == Ok(end)
    ensures FeedTokens(c, s, TrioTokens()) == Ok(end)
  {
    hide WellFormed, FeedEvent;
    assert TrioTokens()[1..] == [TokenEvent(2), TokenEvent(3)] && [TokenEvent(2), TokenEvent(3)][1..] == [TokenEvent(3)];
    assert FeedTokens(c, s4, [TokenEvent(3)]) == Ok(end);
    assert FeedTokens(c, s3, [TokenEvent(2), TokenEvent(3)]) == Ok(end);
  }

  lemma TrioIsBatch()
    ensures |TrioTokens()| == 3 && Batch(TrioTokens())
    ensures forall i :: 0 <= i < |BATCH| ==> BATCH[i] == TrioTokens()[i].branch && Sampled(TrioTokens(), BATCH[i])
  {
    forall i | 0 <= i < |BATCH| ensures BATCH[i] == TrioTokens()[i].branch {}
  }

  /** A reachable state from which a batch of three tokens and their scores in the same order are all taken exactly
      if three events may pend. */
  lemma RoundOfThree(max: nat, scores: C.Scores) returns (r: Run, s: State)
    requires 2 <= max <= U64_MAX - 10 && scores.Keys == {1, 2, 3}
    ensures WellFormed(Start(10, 10, 4).s.tree) && WellFormed(r.s.tree) && ConfigOk(TrioConfig(max))
    ensures Execute(TrioConfig(max), false, Start(10, 10, 4), [Feed(TokenEvent(0), 0), Feed(ScoreEvent(0, 1.0), 0)]) == Ok(r)
    ensures FeedTokens(TrioConfig(max), r.s, TrioTokens()) == Ok(s) && WellFormed(s.tree)
    ensures forall k :: 0 <= k < |BATCH| ==> BATCH[k] in scores
    ensures FeedScores(TrioConfig(max), s, BATCH, scores).Ok? <==> 3 <= max
  {
    hide WellFormed, ConfigOk, FeedEvent, Execute, Alike, Trio, RunInvariant, RoundStart, FeedTokens, FeedScores, TrioTokens;
    hide Batch, Sampled, Prompt;
    var first := RootScored(max);
    r := Run(first, []);
    RunWaits(TrioConfig(max), r);
    Lockstep.StepsToFacts(FreshTree(first.tree.cap), [], first);
    s := TrioBatch(max, first, scores);
    TrioIsBatch();
    RoundAfterBatch(TrioConfig(max), TRIO, r, TrioTokens(), s, scores, BATCH);
    SameOrderIsPrompt(TrioTokens(), BATCH, max);
  }
}
