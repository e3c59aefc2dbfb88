/** The event-driven scheduler as a function of its whole state (scheduler/src/scheduler.rs). */
module Scheduler {
  import opened Common
  import opened Arena
  import opened Commands
  import opened CommandStream
  import opened Ranking
  import opened Lifecycle
  import opened Termination
  import opened Adaptive
  import opened Policies

  datatype PendingBudgetTerminal = BranchTerminal | TreeTerminal

  /** What a scheduler is built with. `scorer` is absent when the engine supplies the values. */
  datatype Config = Config(
    margin: Option<real>,
    scorer: Option<BranchNode -> Float>,
    maxPendingEvents: nat,
    adaptive: Option<AdaptiveForkConfig>,
    policy: PolicyFn)

  ghost predicate ConfigOk(c: Config) {
    && (c.margin.Some? ==> c.margin.value >= 0.0)
    && (c.scorer.None? ==> c.maxPendingEvents > 0)
    && (c.adaptive.Some? ==> AdaptiveConfigOk(c.adaptive.value))
  }

  datatype State = State(
    tree: Tree,
    budget: Budget,
    queue: seq<Command>,
    outstanding: set<nat>,
    pending: map<nat, nat>,
    terminals: map<nat, PendingBudgetTerminal>,
    accepted: nat,
    adaptivePending: set<nat>,
    lastFork: map<nat, nat>,
    calls: nat)

  function Initial(totalLimit: nat, branchLimit: nat, cap: nat): State {
    State(FreshTree(cap), Budget(totalLimit, branchLimit, 0), [], {}, map[], map[], 0, {}, map[], 0)
  }

  // ---------------------------------------------------------------------------
  // The command queue
  // ---------------------------------------------------------------------------

  function RemoveQueuedContinue(s: State, b: nat): State {
    s.(outstanding := s.outstanding - {b}, queue := DropContinue(s.queue, b))
  }

  predicate CanContinue(s: State, b: nat) {
    && s.tree.Has(b)
    && s.tree.nodes[b].state == Active
    && s.tree.nodes[b].tokens < s.budget.branchLimit
    && b !in s.pending
    && b !in s.outstanding
    && |s.outstanding| < s.budget.Remaining()
  }

  function EnqueueOne(s: State, c: Command): State {
    match c
    case Continue(b) =>
      if CanContinue(s, b) then s.(outstanding := s.outstanding + {b}, queue := s.queue + [c]) else s
    case _ =>
      var cleared := RemoveQueuedContinue(s, c.branch);
      cleared.(queue := cleared.queue + [c])
  }

  function Enqueue(s: State, commands: seq<Command>): State
    decreases |commands|
  {
    if commands == [] then s else Enqueue(EnqueueOne(s, commands[0]), commands[1..])
  }

  // ---------------------------------------------------------------------------
  // One event
  // ---------------------------------------------------------------------------

  function RetainLive(s: State): State {
    s.(pending := map b | b in s.pending && s.tree.LiveAt(b) :: s.pending[b],
       terminals := map b | b in s.terminals && s.tree.LiveAt(b) :: s.terminals[b],
       adaptivePending := set b | b in s.adaptivePending && s.tree.LiveAt(b))
  }

  /** The state part-way through an event, the commands not yet enqueued, and whether the tree must end. */
  datatype Phase = Phase(s: State, emitted: seq<Command>, exhausted: bool)

  /** The refusals that come before anything is changed. */
  function CheckEvent(c: Config, s: State, e: EngineEvent): Result<()> {
    if e.TokenSampled? && e.entropy.Some? && (e.entropy.value.NonFinite? || e.entropy.value.value < 0.0) then
      Err(InvalidNumber)
    else if !s.tree.Has(e.branch) then Err(UnknownBranch(e.branch))
    else if !(if e.ValueScored? then s.tree.nodes[e.branch].state.IsLive() else s.tree.nodes[e.branch].state == Active) then
      Err(BranchNotActive(e.branch))
    else if e.TokenSampled? && c.scorer.None? && e.branch in s.pending then Err(ValueScorePending(e.branch))
    else Ok(())
  }

  function FinalizeAndReclaim(s: State, b: nat): (r: Result<Phase>)
    requires WellFormed(s.tree)
    ensures r.Ok? ==> WellFormed(r.value.s.tree)
  {
    var done :- Finalize(s.tree, b);
    FinalizeKeepsWellFormed(s.tree, b);
    ReclaimSpec(done, b);
    var up := Reclaim(done, b);
    Ok(Phase(s.(tree := up.tree), [FinalizeBranch(b)] + up.commands, false))
  }

  function Deadline(c: Config, s: State): Result<nat> {
    if s.accepted + 1 + c.maxPendingEvents > U64_MAX then Err(CounterOverflow)
    else Ok(s.accepted + 1 + c.maxPendingEvents)
  }

  function ScoreOf(c: Config, n: BranchNode): Option<Float> {
    match c.scorer
    case None => None
    case Some(scorer) => Some(scorer(n))
  }

  /** Spending the budget and recording the token with its value or its pending deadline. */
  function RecordSample(c: Config, s: State, e: EngineEvent): (r: Result<(State, BudgetOutcome)>)
    requires WellFormed(s.tree) && e.TokenSampled?
    ensures r.Ok? ==> WellFormed(r.value.0.tree)
  {
    var projected :- ProjectedAfterToken(s.tree, e.branch, e.logprob);
    var score := ScoreOf(c, projected);
    if score.Some? && score.value.NonFinite? then Err(InvalidNumber)
    else
      var deadline :- if c.scorer.None? && !e.eos then Deadline(c, s) else Ok(0);
      var (budget, outcome) :- Consume(s.budget, e.branch, s.tree.nodes[e.branch].tokens);
      var tokened := RecordToken(s.tree, e.branch, e.logprob).value;
      RecordTokenKeepsWellFormed(s.tree, e.branch, e.logprob);
      var valued :-
        if score.Some? then RecordValue(tokened, e.branch, score.value)
        else if !e.eos then MarkValuePending(tokened, e.branch)
        else Ok(tokened);
      SameStructureWellFormed(tokened, valued);
      var s1 := s.(budget := budget,
                   tree := valued,
                   pending := if c.scorer.None? && !e.eos then s.pending[e.branch := deadline] else s.pending);
      Ok((RemoveQueuedContinue(s1, e.branch), outcome))
  }

  function ApplyToken(c: Config, s: State, e: EngineEvent): (r: Result<Phase>)
    requires WellFormed(s.tree) && e.TokenSampled?
    ensures r.Ok? ==> WellFormed(r.value.s.tree)
  {
    var b := e.branch;
    var external := c.scorer.None? && !e.eos;
    var (s1, outcome) :- RecordSample(c, s, e);
    var s2 := if external && e.entropy.Some? && c.adaptive.Some?
      then s1.(adaptivePending := s1.adaptivePending + {b}) else s1;
    if e.eos then
      var done :- FinalizeAndReclaim(s2, b);
      Ok(done.(exhausted := outcome.treeExhausted))
    else if outcome.treeExhausted && external then
      Ok(Phase(s2.(terminals := s2.terminals[b := TreeTerminal]), [], false))
    else if outcome.branchExhausted && external then
      Ok(Phase(s2.(terminals := s2.terminals[b := BranchTerminal]), [], false))
    else if outcome.branchExhausted && !outcome.treeExhausted then
      FinalizeAndReclaim(s2, b)
    else
      Ok(Phase(s2, [], outcome.treeExhausted && !external))
  }

  function ApplyExhausted(s: State, b: nat): (r: Result<Phase>)
    requires WellFormed(s.tree)
    ensures r.Ok? ==> WellFormed(r.value.s.tree)
  {
    var s1 := RemoveQueuedContinue(s, b);
    FinalizeAndReclaim(s1.(pending := s1.pending - {b}, terminals := s1.terminals - {b},
                           adaptivePending := s1.adaptivePending - {b}), b)
  }

  function ApplyScore(c: Config, s: State, b: nat, score: Float): (r: Result<Phase>)
    requires WellFormed(s.tree)
    ensures r.Ok? ==> WellFormed(r.value.s.tree)
  {
    if c.scorer.Some? || b !in s.pending then Err(UnexpectedValueScore(b))
    else
      var valued :- RecordValue(s.tree, b, score);
      SameStructureWellFormed(s.tree, valued);
      var s1 := s.(tree := valued, pending := s.pending - {b}, terminals := s.terminals - {b});
      if b !in s.terminals then Ok(Phase(s1, [], false))
      else if s.terminals[b] == TreeTerminal then Ok(Phase(s1, [], true))
      else FinalizeAndReclaim(s1, b)
  }

  function ApplyEvent(c: Config, s: State, e: EngineEvent): (r: Result<Phase>)
    requires WellFormed(s.tree)
    ensures r.Ok? ==> WellFormed(r.value.s.tree)
  {
    match e
    case TokenSampled(_, _, _, _, _) => ApplyToken(c, s, e)
    case BranchExhausted(b) => ApplyExhausted(s, b)
    case ValueScored(score, b) => ApplyScore(c, s, b, score)
  }

  /** A state whose policy has answered, and the answer's commands. */
  datatype Decision = Decision(s: State, commands: seq<Command>)

  /** The policy works on the arena directly. */
  function AskPolicy(c: Config, s: State, hook: PolicyCall, e: EngineEvent): Result<Decision>
    requires WellFormed(s.tree)
  {
    var answer :- c.policy(s.calls, hook, e, s.tree);
    Ok(Decision(s.(tree := Tree(answer.nodes, s.tree.cap), calls := s.calls + 1), answer.commands))
  }

  function RecordFork(lastFork: map<nat, nat>, children: seq<nat>, tokens: nat): map<nat, nat> {
    map b | b in lastFork.Keys + (set x | x in children) :: if b in children then tokens else lastFork[b]
  }

  function AdaptiveWidth(c: Config, s: State, e: EngineEvent): Result<Option<nat>>
    requires c.adaptive.Some? && AdaptiveConfigOk(c.adaptive.value)
    requires e.TokenSampled? && e.entropy.Some? && e.entropy.value.Finite?
  {
    if s.tree.ActiveAt(e.branch) then
      PlannedWidth(c.adaptive.value, s.lastFork, e.branch, e.entropy.value.value, s.tree, s.budget, |s.outstanding|)
    else Ok(None)
  }

  function PolicyCommands(c: Config, s: State, e: EngineEvent, followup: bool): Result<Decision>
    requires WellFormed(s.tree) && ConfigOk(c)
    requires e.TokenSampled? && e.entropy.Some? ==> e.entropy.value.Finite?
  {
    if e.TokenSampled? && e.entropy.Some? && c.adaptive.Some? then
      var width :- AdaptiveWidth(c, s, e);
      if width.Some? then
        var forked :- Fork(s.tree, e.branch, width.value);
        ForkKeepsWellFormed(s.tree, e.branch, width.value);
        var children := IdsFrom(|s.tree.nodes|, width.value);
        var s1 := s.(tree := forked, lastFork := RecordFork(s.lastFork, children, s.tree.nodes[e.branch].tokens));
        var d :- AskPolicy(c, s1, AfterAdaptiveFork(children), e);
        Ok(d.(commands := [ForkAt(e.branch, width.value)] + d.commands))
      else AskPolicy(c, s, WithoutForking, e)
    else if followup then AskPolicy(c, s, WithoutForking, e)
    else AskPolicy(c, s, OnEvent, e)
  }

  /** The policy's commands must account for every change the policy made to the tree. */
  function ValidatePolicyCommands(before: Tree, after: Tree, commands: seq<Command>): Result<()> {
    var expected :- Replay(before, commands);
    if SameStructure(expected, after) then Ok(()) else Err(PolicyCommandTreeMismatch)
  }

  lemma ValidatedTree(before: Tree, after: Tree, commands: seq<Command>)
    requires WellFormed(before) && before.cap == after.cap && ValidatePolicyCommands(before, after, commands).Ok?
    ensures Replays(before, commands, after)
    ensures WellFormed(after)
    ensures InTree(after, TerminatedBy(commands))
  {
    var expected := Replay(before, commands).value;
    ReplayKeepsCap(before, commands);
    ReplayKeepsWellFormed(before, commands);
    SameStructureWellFormed(expected, after);
    ReplayKnowsTerminated(before, commands);
    var bs := TerminatedBy(commands);
    forall k | 0 <= k < |bs| ensures bs[k] < |after.nodes| { assert bs[k] in bs; }
  }

  function PolicyPhase(c: Config, s: State, e: EngineEvent): (r: Result<Decision>)
    requires WellFormed(s.tree) && ConfigOk(c)
    requires e.TokenSampled? && e.entropy.Some? ==> e.entropy.value.Finite?
    ensures r.Ok? ==> WellFormed(r.value.s.tree)
  {
    var followup := e.ValueScored? && e.branch in s.adaptivePending;
    var s1 := if e.ValueScored? then s.(adaptivePending := s.adaptivePending - {e.branch}) else s;
    var d :- PolicyCommands(c, s1, e, followup);
    var _ :- ValidatePolicyCommands(s.tree, d.s.tree, d.commands);
    ValidatedTree(s.tree, d.s.tree, d.commands);
    ReclaimEachSpec(d.s.tree, TerminatedBy(d.commands));
    var up := ReclaimEach(d.s.tree, TerminatedBy(d.commands));
    Ok(Decision(d.s.(tree := up.tree), d.commands + up.commands))
  }

  function FinishEvent(c: Config, ph: Phase, e: EngineEvent): (r: Result<State>)
    requires WellFormed(ph.s.tree) && ConfigOk(c)
    requires e.TokenSampled? && e.entropy.Some? ==> e.entropy.value.Finite?
    ensures r.Ok? ==> WellFormed(r.value.tree)
  {
    if ph.exhausted then
      var ended :- TerminateTree(ph.s.tree, TreeBudgetExhausted);
      TerminateTreeSpec(ph.s.tree, TreeBudgetExhausted);
      EnqueueKeepsTree(ph.s.(tree := ended.tree, pending := map[], terminals := map[], adaptivePending := {}),
                       ph.emitted + ended.commands);
      Ok(Enqueue(ph.s.(tree := ended.tree, pending := map[], terminals := map[], adaptivePending := {}),
                 ph.emitted + ended.commands))
    else
      var s1 := RetainLive(ph.s);
      if e.TokenSampled? && e.eos then
        EnqueueKeepsTree(s1, ph.emitted);
        Ok(Enqueue(s1, ph.emitted))
      else
        var pruned :- SpeculativePrune(s1.tree, c.margin);
        SpeculativePruneWellFormed(s1.tree, c.margin);
        var s2 := s1.(tree := pruned.tree);
        var d :- if s2.terminals == map[] then PolicyPhase(c, s2, e) else Ok(Decision(s2, []));
        EnqueueKeepsTree(RetainLive(d.s), ph.emitted + pruned.commands + d.commands);
        Ok(Enqueue(RetainLive(d.s), ph.emitted + pruned.commands + d.commands))
  }

  /** The parts an event that goes on is made of. */
  lemma FinishContinuingForm(c: Config, ph: Phase, e: EngineEvent) returns (pruned: Effect, d: Decision)
    requires WellFormed(ph.s.tree) && ConfigOk(c)
    requires e.TokenSampled? && e.entropy.Some? ==> e.entropy.value.Finite?
    requires !ph.exhausted && !(e.TokenSampled? && e.eos) && FinishEvent(c, ph, e).Ok?
    ensures SpeculativePrune(ph.s.tree, c.margin) == Ok(pruned) && WellFormed(pruned.tree)
    ensures var s2 := RetainLive(ph.s).(tree := pruned.tree);
            if s2.terminals == map[] then PolicyPhase(c, s2, e) == Ok(d) else d == Decision(s2, [])
    ensures FinishEvent(c, ph, e) == Ok(Enqueue(RetainLive(d.s), ph.emitted + pruned.commands + d.commands))
  {
    SpeculativePruneWellFormed(ph.s.tree, c.margin);
    hide PolicyPhase, SpeculativePrune, WellFormed, Enqueue;
    pruned := SpeculativePrune(ph.s.tree, c.margin).value;
    var s2 := RetainLive(ph.s).(tree := pruned.tree);
    d := if s2.terminals == map[] then PolicyPhase(c, s2, e).value else Decision(s2, []);
  }

  function ProcessEvent(c: Config, s: State, e: EngineEvent): (r: Result<State>)
    requires WellFormed(s.tree) && ConfigOk(c)
    ensures r.Ok? ==> WellFormed(r.value.tree)
  {
    var _ :- CheckEvent(c, s, e);
    var ph :- ApplyEvent(c, s, e);
    FinishEvent(c, ph, e)
  }

  lemma {:induction false} EnqueueKeepsTree(s: State, commands: seq<Command>)
    ensures Enqueue(s, commands) ==
            s.(queue := Enqueue(s, commands).queue, outstanding := Enqueue(s, commands).outstanding)
    decreases |commands|
  {
    if commands != [] { EnqueueKeepsTree(EnqueueOne(s, commands[0]), commands[1..]); }
  }

  lemma {:induction false} PruneEachWellFormed(t: Tree, victims: seq<nat>)
    requires WellFormed(t) && PruneEach(t, victims).Ok?
    ensures WellFormed(PruneEach(t, victims).value.tree)
    decreases |victims|
  {
    if victims != [] {
      KillAndReclaimWellFormed(t, victims[0], SpeculativeKill);
      PruneEachWellFormed(KillAndReclaim(t, victims[0], SpeculativeKill).value.tree, victims[1..]);
    }
  }

  lemma SpeculativePruneWellFormed(t: Tree, margin: Option<real>)
    requires WellFormed(t) && SpeculativePrune(t, margin).Ok?
    ensures WellFormed(SpeculativePrune(t, margin).value.tree)
  {
    if margin.Some? { PruneEachWellFormed(t, Victims(t, margin.value)); }
  }

  // ---------------------------------------------------------------------------
  // Feeding, polling and draining
  // ---------------------------------------------------------------------------

  /** The branches below n whose deadline has passed, in id order. */
  function ExpiredBelow(s: State, n: nat): (r: seq<nat>)
    ensures forall b :: b in r <==> b < n && b in s.pending && s.pending[b] <= s.accepted
    ensures forall i, j :: 0 <= i < j < |r| ==> r[i] < r[j]
  {
    if n == 0 then []
    else
      var rest := ExpiredBelow(s, n - 1);
      assert forall k :: 0 <= k < |rest| ==> rest[k] in rest;
      if n - 1 in s.pending && s.pending[n - 1] <= s.accepted then rest + [n - 1] else rest
  }

  /** Each expired branch that still waits gets its cumulative logprob as its score. */
  function ResolveEach(c: Config, s: State, expired: seq<nat>): (r: Result<State>)
    requires WellFormed(s.tree) && ConfigOk(c)
    ensures r.Ok? ==> WellFormed(r.value.tree)
    decreases |expired|
  {
    if expired == [] then Ok(s)
    else if expired[0] !in s.pending then ResolveEach(c, s, expired[1..])
    else if !s.tree.Has(expired[0]) then Err(UnknownBranch(expired[0]))
    else
      var next :- ProcessEvent(c, s, ValueScored(Finite(s.tree.nodes[expired[0]].logprob), expired[0]));
      ResolveEach(c, next, expired[1..])
  }

  function FeedEvent(c: Config, s: State, e: EngineEvent): (r: Result<State>)
    requires WellFormed(s.tree) && ConfigOk(c)
    ensures r.Ok? ==> WellFormed(r.value.tree)
  {
    if s.accepted + 1 > U64_MAX then Err(CounterOverflow)
    else
      var next :- ProcessEvent(c, s, e);
      var counted := next.(accepted := s.accepted + 1);
      ResolveEach(c, counted, ExpiredBelow(counted, |counted.tree.nodes|))
  }

  lemma FeedEventForm(c: Config, s: State, e: EngineEvent)
    requires WellFormed(s.tree) && ConfigOk(c) && FeedEvent(c, s, e).Ok?
    ensures ProcessEvent(c, s, e).Ok?
    ensures var counted := ProcessEvent(c, s, e).value.(accepted := s.accepted + 1);
            FeedEvent(c, s, e) == ResolveEach(c, counted, ExpiredBelow(counted, |counted.tree.nodes|))
  {
    hide ProcessEvent, ResolveEach, ExpiredBelow, WellFormed;
  }

  function Drain(s: State): (r: Result<State>)
    requires WellFormed(s.tree)
    ensures r.Ok? ==> WellFormed(r.value.tree)
  {
    var ended :- TerminateTree(s.tree, Drained);
    TerminateTreeSpec(s.tree, Drained);
    var cleared := s.(tree := ended.tree, outstanding := {}, pending := map[], terminals := map[], adaptivePending := {});
    EnqueueKeepsTree(cleared, ended.commands);
    Ok(Enqueue(cleared, ended.commands))
  }

  /** A scheduler together with everything it has handed out so far. */
  datatype Run = Run(s: State, polled: seq<Command>) {
    function Log(): seq<Command> {
      polled + s.queue
    }
  }

  function Poll(r: Run): Run {
    Run(r.s.(queue := []), r.polled + r.s.queue)
  }
}
