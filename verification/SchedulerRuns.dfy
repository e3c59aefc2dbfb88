/** Whole runs on a scheduler object: every state it reaches is one the run theorems speak about. */
module SchedulerRuns {
  import opened Arena
  import opened Commands
  import S = Scheduler
  import opened Runs
  import O = SchedulerObject

  datatype Call = FeedCall(event: EngineEvent) | PollCall | DrainCall

  ghost predicate Matches(op: Op, call: Call) {
    match call
    case FeedCall(e) => op.Feed? && op.event == e
    case PollCall => op == PollCommands
    case DrainCall => op == DrainTree
  }

  /** Makes the calls in order, up to the first refusal when nothing is rolled back. The commands handed
      out and the state reached are those of a run, so they satisfy what every run satisfies. */
  method MakeCalls(scheduler: O.Scheduler, calls: seq<Call>)
    returns (r: Result<()>, polled: seq<Command>, ghost ops: seq<Op>)
    requires scheduler.Valid() && RunInvariant(scheduler.config, S.Run(scheduler.State(), []))
    modifies scheduler, scheduler.tree, scheduler.budget, scheduler.adaptiveFork
    ensures r.Ok? ==>
              && scheduler.Valid()
              && |ops| == |calls| && (forall k :: 0 <= k < |ops| ==> Matches(ops[k], calls[k]))
              && Execute(scheduler.config, scheduler.rollbackCustomPolicyErrors, S.Run(old(scheduler.State()), []), ops)
                 == Ok(S.Run(scheduler.State(), polled))
              && RunInvariant(scheduler.config, S.Run(scheduler.State(), polled))
    ensures scheduler.rollbackCustomPolicyErrors ==> r.Ok?
  {
    hide WellFormed, RunInvariant, S.ConfigOk, S.FeedEvent, S.Drain;
    r, polled, ops := Ok(()), [], [];
    ghost var start := S.Run(scheduler.State(), []);
    for i := 0 to |calls|
      invariant scheduler.Valid() && r.Ok?
      invariant |ops| == i && forall k :: 0 <= k < i ==> Matches(ops[k], calls[k])
      invariant Execute(scheduler.config, scheduler.rollbackCustomPolicyErrors, start, ops) == Ok(S.Run(scheduler.State(), polled))
      invariant RunInvariant(scheduler.config, S.Run(scheduler.State(), polled))
    {
      ghost var here := S.Run(scheduler.State(), polled);
      var handed;
      ghost var op;
      r, handed, op := MakeCall(scheduler, calls[i], polled);
      if r.Err? { return; }
      polled := polled + handed;
      ExecuteOneMore(scheduler.config, scheduler.rollbackCustomPolicyErrors, start, ops, here, op);
      StepKeepsInvariant(scheduler.config, scheduler.rollbackCustomPolicyErrors, here, op);
      ops := ops + [op];
    }
  }

  method MakeCall(scheduler: O.Scheduler, call: Call, ghost polled: seq<Command>)
    returns (r: Result<()>, handed: seq<Command>, ghost op: Op)
    requires scheduler.Valid()
    modifies scheduler, scheduler.tree, scheduler.budget, scheduler.adaptiveFork
    ensures Matches(op, call)
    ensures r.Ok? ==>
              && scheduler.Valid()
              && Step(scheduler.config, scheduler.rollbackCustomPolicyErrors, S.Run(old(scheduler.State()), polled), op)
                 == Ok(S.Run(scheduler.State(), polled + handed))
    ensures scheduler.rollbackCustomPolicyErrors ==> r.Ok?
  {
    hide WellFormed, S.ConfigOk, S.FeedEvent, S.Drain;
    r, handed := Ok(()), [];
    assert polled + [] == polled;
    match call {
      case FeedCall(e) =>
        var fed := scheduler.FeedEvent(e);
        op := Feed(e, scheduler.policyCalls);
        if fed.Err? && !scheduler.rollbackCustomPolicyErrors { r := fed; }
      case PollCall =>
        op := PollCommands;
        handed := scheduler.PollCommands(polled);
      case DrainCall =>
        op := DrainTree;
        scheduler.Drain();
    }
  }

  lemma {:induction false} ExecuteOneMore(c: S.Config, rollback: bool, r: S.Run, ops: seq<Op>, here: S.Run, op: Op)
    requires WellFormed(r.s.tree) && S.ConfigOk(c) && Execute(c, rollback, r, ops) == Ok(here) && WellFormed(here.s.tree)
    requires Step(c, rollback, here, op).Ok?
    ensures Execute(c, rollback, r, ops + [op]) == Step(c, rollback, here, op)
    decreases |ops|
  {
    if ops == [] {
      assert [op][1..] == [];
      StepWellFormed(c, rollback, here, op);
    } else {
      assert (ops + [op])[1..] == ops[1..] + [op];
      StepWellFormed(c, rollback, r, ops[0]);
      ExecuteOneMore(c, rollback, Step(c, rollback, r, ops[0]).value, ops[1..], here, op);
    }
  }
}
