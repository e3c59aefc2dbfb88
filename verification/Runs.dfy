/** Whole runs of the scheduler: every sequence of events, polls and drains. */
module Runs {
  import opened Common
  import opened Arena
  import opened Commands
  import opened CommandStream
  import opened Lifecycle
  import opened Termination
  import opened Scheduler
  import opened Lockstep
  import opened Accounts
  import opened Waiting
  import opened Reservations

  /** A call on the scheduler. A refused event may have used up policy calls that nothing gives back;
      `callsAfterRefusal` is how many the policy then counts. */
  datatype Op = Feed(event: EngineEvent, callsAfterRefusal: nat) | PollCommands | DrainTree

  /** One call on the scheduler. A refused event is undone when the policy is a custom one (`rollback`),
      except for what the policy itself remembers; with a built-in policy the run is over, because the
      source leaves its state half-changed. */
  function Step(c: Config, rollback: bool, r: Run, op: Op): Result<Run>
    requires WellFormed(r.s.tree) && ConfigOk(c)
  {
    match op
    case PollCommands => Ok(Poll(r))
    case DrainTree =>
      var drained :- Drain(r.s);
      Ok(Run(drained, r.polled))
    case Feed(e, calls) =>
      match FeedEvent(c, r.s, e)
      case Ok(next) => Ok(Run(next, r.polled))
      case Err(error) => if rollback then Ok(Run(r.s.(calls := calls), r.polled)) else Err(error)
  }

  /** No invariant of a run looks at the policy's call count. */
  lemma CallsKeepInvariant(c: Config, r: Run, calls: nat)
    requires RunInvariant(c, r)
    ensures RunInvariant(c, Run(r.s.(calls := calls), r.polled))
    ensures Reserved(r.s) ==> Reserved(r.s.(calls := calls))
  {
    var s := r.s.(calls := calls);
    hide Replays, WellFormed, NoOrphans, Honest, Accounted;
    SameWaits(c, r.s, s, s.accepted, s.accepted + c.maxPendingEvents);
    if Accounted(r.s) { SameTreeAccounted(r.s, s); }
  }

  lemma StepWellFormed(c: Config, rollback: bool, r: Run, op: Op)
    requires WellFormed(r.s.tree) && ConfigOk(c) && Step(c, rollback, r, op).Ok?
    ensures WellFormed(Step(c, rollback, r, op).value.s.tree)
  {
    hide WellFormed, FeedEvent, Drain;
  }

  function Execute(c: Config, rollback: bool, r: Run, ops: seq<Op>): (result: Result<Run>)
    requires WellFormed(r.s.tree) && ConfigOk(c)
    decreases |ops|
  {
    if ops == [] then Ok(r)
    else
      var next :- Step(c, rollback, r, ops[0]);
      StepWellFormed(c, rollback, r, ops[0]);
      Execute(c, rollback, next, ops[1..])
  }

  function Start(totalLimit: nat, branchLimit: nat, cap: nat): Run {
    Run(Initial(totalLimit, branchLimit, cap), [])
  }

  /** What every reachable scheduler state satisfies. */
  ghost predicate RunInvariant(c: Config, r: Run) {
    && StepsTo(FreshTree(r.s.tree.cap), r.polled, r.s)
    && Waits(c, r.s, r.s.accepted, r.s.accepted + c.maxPendingEvents)
    && (Honest(c.policy) ==> Accounted(r.s))
  }

  lemma StartInvariant(c: Config, totalLimit: nat, branchLimit: nat, cap: nat)
    requires totalLimit > 0 && branchLimit > 0 && cap > 0
    ensures RunInvariant(c, Start(totalLimit, branchLimit, cap))
    ensures Reserved(Start(totalLimit, branchLimit, cap).s)
  {
    var t := FreshTree(cap);
    FreshTreeWellFormed(cap);
    ReplaysNothing(t, t);
    assert Start(totalLimit, branchLimit, cap).Log() == [];
    assert CountOk(t, branchLimit, 0);
    assert OwnBelow(t, 1) == OwnBelow(t, 0) + OwnTokens(t, 0);
  }

  lemma PollKeepsInvariant(c: Config, r: Run)
    requires RunInvariant(c, r)
    ensures RunInvariant(c, Poll(r))
  {
    assert r.polled + r.s.queue + [] == r.polled + r.s.queue;
    var p := Poll(r);
    hide Replays, WellFormed, NoOrphans, Honest;
    SameWaits(c, r.s, p.s, r.s.accepted, r.s.accepted + c.maxPendingEvents);
  }

  lemma DrainKeepsInvariant(c: Config, r: Run)
    requires RunInvariant(c, r) && Drain(r.s).Ok?
    ensures RunInvariant(c, Run(Drain(r.s).value, r.polled))
    ensures AllTerminal(Drain(r.s).value.tree)
  {
    hide Drain, StepsTo, Honest, AllTerminal, Accounted, Waits;
    StepsToFacts(FreshTree(r.s.tree.cap), r.polled, r.s);
    DrainInStep(FreshTree(r.s.tree.cap), r.polled, r.s);
    DrainForgets(c, r.s);
  }

  lemma DrainForgets(c: Config, s: State)
    requires WellFormed(s.tree) && Drain(s).Ok?
    ensures Waits(c, Drain(s).value, s.accepted, s.accepted + c.maxPendingEvents)
    ensures Drain(s).value.accepted == s.accepted && Drain(s).value.tree.cap == s.tree.cap
    ensures Accounted(s) ==> Accounted(Drain(s).value)
  {
    TerminateTreeSpec(s.tree, Drained);
    var ended := TerminateTree(s.tree, Drained).value;
    hide WellFormed, NoOrphans, TerminateTree, AllTerminal, Accounted, Enqueue;
    var cleared := s.(tree := ended.tree, outstanding := {}, pending := map[], terminals := map[], adaptivePending := {});
    EnqueueKeepsTree(cleared, ended.commands);
    if Accounted(s) {
      EndsAccounted(s, ended.tree, Drain(s).value);
    }
  }

  lemma FeedEventAccounted(root: Tree, polled: seq<Command>, c: Config, s: State, e: EngineEvent)
    requires StepsTo(root, polled, s) && ConfigOk(c) && Honest(c.policy) && Accounted(s) && FeedEvent(c, s, e).Ok?
    ensures Accounted(FeedEvent(c, s, e).value)
    ensures FeedEvent(c, s, e).value.budget == s.budget.(consumed := s.budget.consumed + SpentBy(e))
  {
    hide StepsTo, Accounted, Honest, ProcessEvent, FeedEvent, ResolveEach, ExpiredBelow, NoOrphans;
    StepsToFacts(root, polled, s);
    FeedEventForm(c, s, e);
    StepsToNoOrphans(root, polled, s);
    ProcessEventAccounted(c, s, e);
    ProcessEventInStep(root, polled, c, s, e);
    StepsToFacts(root, polled, ProcessEvent(c, s, e).value);
    var next := ProcessEvent(c, s, e).value;
    var counted := next.(accepted := s.accepted + 1);
    CountedStepsTo(root, polled, next, counted);
    SameTreeAccounted(next, counted);
    ResolveEachAccounted(root, polled, c, counted, ExpiredBelow(counted, |counted.tree.nodes|));
  }

  lemma CountedStepsTo(root: Tree, polled: seq<Command>, s: State, r: State)
    requires StepsTo(root, polled, s) && r == s.(accepted := r.accepted)
    ensures StepsTo(root, polled, r)
  {
  }

  lemma {:induction false} ResolveEachAccounted(root: Tree, polled: seq<Command>, c: Config, s: State, expired: seq<nat>)
    requires StepsTo(root, polled, s) && ConfigOk(c) && Honest(c.policy) && Accounted(s) && ResolveEach(c, s, expired).Ok?
    ensures Accounted(ResolveEach(c, s, expired).value)
    ensures ResolveEach(c, s, expired).value.budget == s.budget
    decreases |expired|
  {
    if expired != [] {
      hide ProcessEvent, WellFormed, NoOrphans, Accounted, Honest, Replays;
      if expired[0] !in s.pending {
        ResolveEachAccounted(root, polled, c, s, expired[1..]);
      } else {
        var e := ValueScored(Finite(s.tree.nodes[expired[0]].logprob), expired[0]);
        ProcessEventAccounted(c, s, e);
        ProcessEventInStep(root, polled, c, s, e);
        ResolveEachAccounted(root, polled, c, ProcessEvent(c, s, e).value, expired[1..]);
      }
    }
  }

  lemma FeedKeepsInvariant(c: Config, r: Run, e: EngineEvent)
    requires RunInvariant(c, r) && ConfigOk(c) && FeedEvent(c, r.s, e).Ok?
    ensures RunInvariant(c, Run(FeedEvent(c, r.s, e).value, r.polled))
  {
    hide FeedEvent, Waits, Accounted, Honest, StepsTo;
    var root := FreshTree(r.s.tree.cap);
    StepsToFacts(root, r.polled, r.s);
    FeedEventInStep(root, r.polled, c, r.s, e);
    FeedEventWaits(root, r.polled, c, r.s, e);
    if Honest(c.policy) {
      FeedEventAccounted(root, r.polled, c, r.s, e);
    }
    StepsToFacts(root, r.polled, FeedEvent(c, r.s, e).value);
  }

  lemma StepKeepsInvariant(c: Config, rollback: bool, r: Run, op: Op)
    requires RunInvariant(c, r) && ConfigOk(c) && Step(c, rollback, r, op).Ok?
    ensures RunInvariant(c, Step(c, rollback, r, op).value)
  {
    hide FeedEvent, Drain, Poll, Waits, Accounted, Honest, WellFormed, NoOrphans, Replays;
    match op {
      case PollCommands => PollKeepsInvariant(c, r);
      case DrainTree => DrainKeepsInvariant(c, r);
      case Feed(e, calls) =>
        if FeedEvent(c, r.s, e).Ok? {
          FeedKeepsInvariant(c, r, e);
        } else {
          CallsKeepInvariant(c, r, calls);
        }
    }
  }

  /** Every run, with any policy: the log replays to the tree, no node is orphaned, deadlines lie ahead;
      and with an honest policy the books balance. */
  lemma {:induction false} EveryRun(c: Config, rollback: bool, r: Run, ops: seq<Op>)
    requires RunInvariant(c, r) && ConfigOk(c) && Execute(c, rollback, r, ops).Ok?
    ensures RunInvariant(c, Execute(c, rollback, r, ops).value)
    decreases |ops|
  {
    if ops != [] {
      StepKeepsInvariant(c, rollback, r, ops[0]);
      hide RunInvariant, Step;
      EveryRun(c, rollback, Step(c, rollback, r, ops[0]).value, ops[1..]);
    }
  }

  // ---------------------------------------------------------------------------
  // What the invariant means for a consumer
  // ---------------------------------------------------------------------------

  /** In every reachable state each command handed out or queued meets, at its place in the stream, a
      branch in the state it asks for; and a branch has received one Kill or Finalize if it is
      terminal, none if it is live. */
  lemma StreamIsWellTargeted(c: Config, r: Run, k: nat, b: nat)
    requires RunInvariant(c, r)
    ensures k < |r.Log()| ==>
              && Replay(FreshTree(r.s.tree.cap), r.Log()[..k]).Ok?
              && WellTargeted(Replay(FreshTree(r.s.tree.cap), r.Log()[..k]).value, r.Log()[k])
    ensures TerminalCommands(r.Log(), b) == TerminalBit(r.s.tree, b)
  {
    var root := FreshTree(r.s.tree.cap);
    FreshTreeWellFormed(root.cap);
    if k < |r.Log()| {
      ReplayTargets(root, r.Log(), k);
    }
    ReplayTerminatesOnce(root, r.Log(), b);
    var t := Replay(root, r.Log()).value;
    if b < |t.nodes| { assert SameShape(t.nodes[b], r.s.tree.nodes[b]); }
  }

  /** Below every live node there is an active one; so while the root lives the frontier is not empty. */
  lemma {:induction false} LiveNodeHasFrontier(t: Tree, b: nat)
    requires WellFormed(t) && NoOrphans(t) && t.LiveAt(b)
    ensures exists i :: i >= b && t.ActiveAt(i)
    decreases |t.nodes| - b
  {
    if t.nodes[b].state == Expanded {
      assert !Orphan(t, b);
      var d :| d in t.nodes[b].children && t.LiveAt(d);
      assert NodeOk(t, b);
      LiveNodeHasFrontier(t, d);
    } else {
      assert t.ActiveAt(b);
    }
  }

  /** A terminal root means that the whole tree is terminal. */
  lemma {:induction false} TerminalRootEndsAll(t: Tree, b: nat)
    requires WellFormed(t) && t.TerminalAt(0) && b < |t.nodes|
    ensures t.TerminalAt(b)
  {
    assert NodeOk(t, b);
    if b > 0 {
      TerminalRootEndsAll(t, t.nodes[b].parent.value);
    }
  }

  // ---------------------------------------------------------------------------
  // Runs of a disciplined engine
  // ---------------------------------------------------------------------------

  /** Tokens are only fed to branches that hold a continuation, or while budget is unreserved. */
  ghost predicate DisciplinedRun(c: Config, rollback: bool, r: Run, ops: seq<Op>)
    requires WellFormed(r.s.tree) && ConfigOk(c)
    decreases |ops|
  {
    ops == [] || (
      && (ops[0].Feed? ==> Disciplined(r.s, ops[0].event))
      && (Step(c, rollback, r, ops[0]).Ok? ==>
            (StepWellFormed(c, rollback, r, ops[0]);
             DisciplinedRun(c, rollback, Step(c, rollback, r, ops[0]).value, ops[1..]))))
  }

  lemma {:induction false} ResolveEachReserved(root: Tree, polled: seq<Command>, c: Config, s: State, expired: seq<nat>)
    requires StepsTo(root, polled, s) && ConfigOk(c) && Honest(c.policy) && Reserved(s) && ResolveEach(c, s, expired).Ok?
    ensures Reserved(ResolveEach(c, s, expired).value)
    decreases |expired|
  {
    if expired != [] {
      hide ProcessEvent, WellFormed, NoOrphans, Reserved, Honest, Replays;
      if expired[0] !in s.pending {
        ResolveEachReserved(root, polled, c, s, expired[1..]);
      } else {
        var e := ValueScored(Finite(s.tree.nodes[expired[0]].logprob), expired[0]);
        ProcessEventReserved(c, s, e);
        ProcessEventInStep(root, polled, c, s, e);
        ResolveEachReserved(root, polled, c, ProcessEvent(c, s, e).value, expired[1..]);
      }
    }
  }

  lemma FeedEventReserved(root: Tree, polled: seq<Command>, c: Config, s: State, e: EngineEvent)
    requires StepsTo(root, polled, s) && ConfigOk(c) && Honest(c.policy)
    requires Reserved(s) && Disciplined(s, e) && FeedEvent(c, s, e).Ok?
    ensures Reserved(FeedEvent(c, s, e).value)
  {
    hide StepsTo, Reserved, Disciplined, Honest, ProcessEvent, FeedEvent, ResolveEach, ExpiredBelow, NoOrphans;
    StepsToFacts(root, polled, s);
    FeedEventForm(c, s, e);
    StepsToNoOrphans(root, polled, s);
    ProcessEventReserved(c, s, e);
    ProcessEventInStep(root, polled, c, s, e);
    StepsToFacts(root, polled, ProcessEvent(c, s, e).value);
    var next := ProcessEvent(c, s, e).value;
    var counted := next.(accepted := s.accepted + 1);
    CountedStepsTo(root, polled, next, counted);
    SameReserved(next, counted);
    ResolveEachReserved(root, polled, c, counted, ExpiredBelow(counted, |counted.tree.nodes|));
  }

  lemma SameReserved(s: State, r: State)
    requires Reserved(s) && r == s.(accepted := r.accepted)
    ensures Reserved(r)
  {
  }

  /** Commands without a Continue build the same queue whatever is outstanding. */
  lemma {:induction false} EnqueueIgnoresOutstanding(s: State, r: State, commands: seq<Command>)
    requires r == s.(outstanding := r.outstanding) && forall c :: c in commands ==> !c.Continue?
    ensures Enqueue(r, commands).queue == Enqueue(s, commands).queue
    ensures r.outstanding == {} ==> Enqueue(r, commands).outstanding == {}
    decreases |commands|
  {
    if commands != [] {
      EnqueueIgnoresOutstanding(EnqueueOne(s, commands[0]), EnqueueOne(r, commands[0]), commands[1..]);
    }
  }

  lemma DrainReserved(root: Tree, polled: seq<Command>, s: State)
    requires StepsTo(root, polled, s) && Reserved(s) && Drain(s).Ok?
    ensures Reserved(Drain(s).value)
  {
    hide StepsTo, TerminateTree, WellFormed, Replays, KeepsTokens, AllTerminal;
    StepsToFacts(root, polled, s);
    TreeEnds(s.tree, Drained);
    var ended := TerminateTree(s.tree, Drained).value;
    var kept := s.(tree := ended.tree, pending := map[], terminals := map[], adaptivePending := {});
    var cleared := kept.(outstanding := {});
    HeldThroughTokens(s.tree, s, kept);
    SettleHeld(s.tree, kept, ended.commands);
    EnqueueIgnoresOutstanding(kept, cleared, ended.commands);
    EnqueueKeepsTree(kept, ended.commands);
    var q := Enqueue(kept, ended.commands);
    NothingReadyAtTheEnd(q);
  }

  /** What ending a tree means to the reservations. */
  lemma TreeEnds(t: Tree, reason: KillReason)
    requires WellFormed(t)
    ensures TerminateTree(t, reason).Ok?
    ensures var ended := TerminateTree(t, reason).value;
            && Replays(t, ended.commands, ended.tree) && KeepsTokens(t, ended.tree) && AllTerminal(ended.tree)
            && forall c :: c in ended.commands ==> !c.Continue?
  {
    hide WellFormed, TerminateTree, Replays, OnlyEnds, Wins;
    TerminateTreeSpec(t, reason);
    EndsKeepTokens(t, TerminateTree(t, reason).value.tree);
  }

  lemma NothingReadyAtTheEnd(s: State)
    requires Reserved(s) && AllTerminal(s.tree)
    ensures s.outstanding == {}
  {
    assert forall b :: b in s.outstanding ==> Ready(s, b) && !s.tree.TerminalAt(b);
  }

  lemma StepReserved(c: Config, rollback: bool, r: Run, op: Op)
    requires RunInvariant(c, r) && ConfigOk(c) && Honest(c.policy) && Reserved(r.s)
    requires op.Feed? ==> Disciplined(r.s, op.event)
    requires Step(c, rollback, r, op).Ok?
    ensures Reserved(Step(c, rollback, r, op).value.s)
  {
    var root := FreshTree(r.s.tree.cap);
    hide FeedEvent, Drain, Waits, Accounted, Honest, WellFormed, NoOrphans, Replays;
    match op {
      case PollCommands =>
      case DrainTree => DrainReserved(root, r.polled, r.s);
      case Feed(e, calls) =>
        if FeedEvent(c, r.s, e).Ok? {
          FeedEventReserved(root, r.polled, c, r.s, e);
        } else {
          CallsKeepInvariant(c, r, calls);
        }
    }
  }

  /** Over every disciplined run the outstanding continuations stay funded and ready. */
  lemma {:induction false} EveryDisciplinedRun(c: Config, rollback: bool, r: Run, ops: seq<Op>)
    requires RunInvariant(c, r) && ConfigOk(c) && Honest(c.policy) && Reserved(r.s)
    requires DisciplinedRun(c, rollback, r, ops) && Execute(c, rollback, r, ops).Ok?
    ensures Reserved(Execute(c, rollback, r, ops).value.s)
    decreases |ops|
  {
    if ops != [] {
      StepKeepsInvariant(c, rollback, r, ops[0]);
      StepReserved(c, rollback, r, ops[0]);
      hide RunInvariant, Step, Reserved, Honest;
      EveryDisciplinedRun(c, rollback, Step(c, rollback, r, ops[0]).value, ops[1..]);
    }
  }
}
