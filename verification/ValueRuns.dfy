/** What every run keeps of the branches' values (scheduler/src/scheduler.rs, scheduler/src/scorer.rs). */
module ValueRuns {
  import opened Common
  import opened Arena
  import opened Commands
  import opened CommandStream
  import opened Lifecycle
  import opened Termination
  import opened Adaptive
  import opened Scheduler
  import opened Accounts
  import opened Values
  import opened Samples
  import opened Runs
  import Lockstep
  import Waiting

  /** The default scorer: a branch is worth its cumulative logprob. */
  ghost predicate ScoresLogprobs(c: Config) {
    c.scorer.Some? && forall n: BranchNode :: c.scorer.value(n) == Finite(n.logprob)
  }

  /** No active branch trails by more than the margin, and under the default scorer every value is the logprob. */
  ghost predicate Tidy(c: Config, t: Tree) {
    && NoneTrails(t, c.margin)
    && (ScoresLogprobs(c) ==> ValuesAreLogprobs(t))
  }

  ghost predicate ValuesAreLogprobs(t: Tree) {
    forall i: nat :: t.ActiveAt(i) && t.nodes[i].hasValue ==> t.nodes[i].value == t.nodes[i].logprob
  }

  lemma LogprobsKept(a: Tree, b: Tree)
    requires ValuesAreLogprobs(a) && ValuesKept(a, b)
    ensures ValuesAreLogprobs(b)
  {
  }

  lemma KeptIsTidy(c: Config, a: Tree, b: Tree)
    requires Tidy(c, a) && ValuesKept(a, b)
    ensures Tidy(c, b)
  {
    hide NoneTrails, ValuesKept, ValuesAreLogprobs;
    NoneTrailsThen(a, b, c.margin);
    if ScoresLogprobs(c) { LogprobsKept(a, b); }
  }

  lemma EndedIsTidy(c: Config, t: Tree)
    requires AllTerminal(t)
    ensures Tidy(c, t)
  {
    NoneActiveNoneTrails(t, c.margin);
    forall i: nat
      ensures !t.ActiveAt(i)
    {
      if i < |t.nodes| { assert t.TerminalAt(i); }
    }
  }

  // ---------------------------------------------------------------------------
  // The first half of an event
  // ---------------------------------------------------------------------------

  lemma FinalizingKeepsValues(s: State, b: nat)
    requires WellFormed(s.tree) && FinalizeAndReclaim(s, b).Ok?
    ensures ValuesKept(s.tree, FinalizeAndReclaim(s, b).value.s.tree)
  {
    hide WellFormed, ValuesKept;
    Lockstep.FinalizeAndReclaimSpec(s, b);
    EndsKeepValues(s.tree, FinalizeAndReclaim(s, b).value.s.tree);
  }

  /** A recorded token under the default scorer leaves all values logprobs. */
  lemma RecordedLogprobs(c: Config, s: State, e: EngineEvent, r: State, outcome: BudgetOutcome)
    requires e.TokenSampled? && Recordable(c, s, e) && Recorded(c, s, e, r, outcome) && ScoresLogprobs(c)
    requires ValuesAreLogprobs(s.tree)
    ensures ValuesAreLogprobs(r.tree)
  {
  }

  lemma AppliedLogprobs(c: Config, s: State, e: EngineEvent)
    requires WellFormed(s.tree) && ScoresLogprobs(c) && ValuesAreLogprobs(s.tree) && ApplyEvent(c, s, e).Ok?
    ensures ValuesAreLogprobs(ApplyEvent(c, s, e).value.s.tree)
  {
    hide WellFormed, RecordSample, FinalizeAndReclaim, ValuesAreLogprobs, ValuesKept, Recordable, Recorded;
    match e {
      case TokenSampled(_, _, _, _, _) =>
        TokenIsRecorded(c, s, e);
        var s1 := RecordSample(c, s, e).value.0;
        RecordedLogprobs(c, s, e, s1, RecordSample(c, s, e).value.1);
        if FinalizeAndReclaim(s1, e.branch).Ok? {
          FinalizingKeepsValues(s1, e.branch);
          LogprobsKept(s1.tree, FinalizeAndReclaim(s1, e.branch).value.s.tree);
        }
      case BranchExhausted(b) =>
        ExhaustedKeepsValues(s, b);
        LogprobsKept(s.tree, ApplyExhausted(s, b).value.s.tree);
      case ValueScored(_, _) =>
    }
  }

  lemma ExhaustedKeepsValues(s: State, b: nat)
    requires WellFormed(s.tree) && ApplyExhausted(s, b).Ok?
    ensures ValuesKept(s.tree, ApplyExhausted(s, b).value.s.tree)
  {
    hide WellFormed, FinalizeAndReclaim, ValuesKept;
    var s1 := RemoveQueuedContinue(s, b);
    FinalizingKeepsValues(s1.(pending := s1.pending - {b}, terminals := s1.terminals - {b}, adaptivePending := s1.adaptivePending - {b}), b);
  }

  /** A last token touches no branch that stays active. */
  lemma LastTokenKeepsValues(c: Config, s: State, e: EngineEvent)
    requires WellFormed(s.tree) && e.TokenSampled? && e.eos && ApplyToken(c, s, e).Ok?
    ensures ValuesKept(s.tree, ApplyToken(c, s, e).value.s.tree)
  {
    hide WellFormed, RecordSample, FinalizeAndReclaim;
    TokenIsRecorded(c, s, e);
    TokenOutcome(c, s, e);
    var s1 := RecordSample(c, s, e).value.0;
    FinalizingKeepsValues(s1, e.branch);
  }

  // ---------------------------------------------------------------------------
  // Whole events
  // ---------------------------------------------------------------------------

  lemma LastTokenFinishes(c: Config, ph: Phase, e: EngineEvent)
    requires WellFormed(ph.s.tree) && ConfigOk(c) && e.TokenSampled? && e.eos && (e.entropy.Some? ==> e.entropy.value.Finite?)
    requires FinishEvent(c, ph, e).Ok?
    ensures FinishEvent(c, ph, e).value.tree == ph.s.tree || AllTerminal(FinishEvent(c, ph, e).value.tree)
  {
    hide WellFormed, TerminateTree, Enqueue, AllTerminal, Wins;
    if ph.exhausted {
      TerminateTreeSpec(ph.s.tree, TreeBudgetExhausted);
      var ended := TerminateTree(ph.s.tree, TreeBudgetExhausted).value;
      EnqueueKeepsTree(ph.s.(tree := ended.tree, pending := map[], terminals := map[], adaptivePending := {}), ph.emitted + ended.commands);
    } else {
      EnqueueKeepsTree(RetainLive(ph.s), ph.emitted);
    }
  }

  lemma ProcessKeepsTidy(c: Config, s: State, e: EngineEvent)
    requires WellFormed(s.tree) && NoOrphans(s.tree) && ConfigOk(c) && Honest(c.policy) && Tidy(c, s.tree)
    requires ProcessEvent(c, s, e).Ok?
    ensures Tidy(c, ProcessEvent(c, s, e).value.tree)
  {
    hide WellFormed, NoOrphans, Honest, ApplyToken, ApplyScore, ApplyExhausted, FinishEvent, NoneTrails, ValuesAreLogprobs, ValuesKept, Tidy;
    Lockstep.ApplyEventInStep(c, s, e);
    var ph := ApplyEvent(c, s, e).value;
    if e.TokenSampled? && e.eos {
      LastTokenKeepsValues(c, s, e);
      KeptIsTidy(c, s.tree, ph.s.tree);
      LastTokenFinishes(c, ph, e);
      if AllTerminal(FinishEvent(c, ph, e).value.tree) { EndedIsTidy(c, FinishEvent(c, ph, e).value.tree); }
    } else {
      FinishKeepsValues(c, ph, e);
      FinishedIsTidy(c, s, e, ph);
    }
  }

  lemma FinishedIsTidy(c: Config, s: State, e: EngineEvent, ph: Phase)
    requires WellFormed(s.tree) && WellFormed(ph.s.tree) && ConfigOk(c) && Tidy(c, s.tree) && ApplyEvent(c, s, e) == Ok(ph)
    requires e.TokenSampled? && e.entropy.Some? ==> e.entropy.value.Finite?
    requires FinishEvent(c, ph, e).Ok?
    requires ValuesKept(ph.s.tree, FinishEvent(c, ph, e).value.tree) && NoneTrails(FinishEvent(c, ph, e).value.tree, c.margin)
    ensures Tidy(c, FinishEvent(c, ph, e).value.tree)
  {
    hide WellFormed, ApplyEvent, FinishEvent, NoneTrails, ValuesAreLogprobs, ValuesKept, ScoresLogprobs;
    if ScoresLogprobs(c) {
      AppliedLogprobs(c, s, e);
      LogprobsKept(ph.s.tree, FinishEvent(c, ph, e).value.tree);
    }
  }

  lemma {:induction false} ResolveEachTidy(root: Tree, polled: seq<Command>, c: Config, s: State, expired: seq<nat>)
    requires Lockstep.StepsTo(root, polled, s) && ConfigOk(c) && Honest(c.policy) && Tidy(c, s.tree) && ResolveEach(c, s, expired).Ok?
    ensures Tidy(c, ResolveEach(c, s, expired).value.tree)
    decreases |expired|
  {
    hide WellFormed, NoOrphans, Honest, ProcessEvent, Replays, Tidy;
    if expired != [] {
      if expired[0] !in s.pending {
        ResolveEachTidy(root, polled, c, s, expired[1..]);
      } else {
        var e := ValueScored(Finite(s.tree.nodes[expired[0]].logprob), expired[0]);
        ProcessKeepsTidy(c, s, e);
        Lockstep.ProcessEventInStep(root, polled, c, s, e);
        ResolveEachTidy(root, polled, c, ProcessEvent(c, s, e).value, expired[1..]);
      }
    }
  }

  lemma FeedKeepsTidy(root: Tree, polled: seq<Command>, c: Config, s: State, e: EngineEvent)
    requires Lockstep.StepsTo(root, polled, s) && ConfigOk(c) && Honest(c.policy) && Tidy(c, s.tree) && FeedEvent(c, s, e).Ok?
    ensures Tidy(c, FeedEvent(c, s, e).value.tree)
  {
    hide Lockstep.StepsTo, Honest, ProcessEvent, FeedEvent, ResolveEach, ExpiredBelow, NoOrphans, WellFormed, Tidy;
    Lockstep.StepsToFacts(root, polled, s);
    Lockstep.StepsToNoOrphans(root, polled, s);
    FeedEventForm(c, s, e);
    ProcessKeepsTidy(c, s, e);
    Lockstep.ProcessEventInStep(root, polled, c, s, e);
    var next := ProcessEvent(c, s, e).value;
    var counted := next.(accepted := s.accepted + 1);
    CountedSteps(root, polled, next, counted);
    Lockstep.StepsToFacts(root, polled, counted);
    ResolveEachTidy(root, polled, c, counted, ExpiredBelow(counted, |counted.tree.nodes|));
  }

  lemma CountedSteps(root: Tree, polled: seq<Command>, s: State, r: State)
    requires Lockstep.StepsTo(root, polled, s) && r == s.(accepted := r.accepted)
    ensures Lockstep.StepsTo(root, polled, r)
  {
  }

  // ---------------------------------------------------------------------------
  // Whole runs
  // ---------------------------------------------------------------------------

  lemma StepKeepsTidy(c: Config, rollback: bool, r: Run, op: Op)
    requires RunInvariant(c, r) && ConfigOk(c) && Honest(c.policy) && Tidy(c, r.s.tree) && Step(c, rollback, r, op).Ok?
    ensures Tidy(c, Step(c, rollback, r, op).value.s.tree)
  {
    hide FeedEvent, Drain, Lockstep.StepsTo, Waiting.Waits, Accounted, Honest, WellFormed, Tidy;
    Lockstep.StepsToFacts(FreshTree(r.s.tree.cap), r.polled, r.s);
    match op {
      case Feed(e, calls) =>
        if FeedEvent(c, r.s, e).Ok? { FeedKeepsTidy(FreshTree(r.s.tree.cap), r.polled, c, r.s, e); }
      case DrainTree =>
        DrainKeepsInvariant(c, r);
        EndedIsTidy(c, Drain(r.s).value.tree);
      case PollCommands =>
    }
  }

  /** After every run with a policy that leaves the numbers alone no scored active branch trails another by more than the
      margin, and with the default scorer the value of every active branch that has one is its cumulative logprob. */
  lemma {:induction false} EveryRunIsTidy(c: Config, rollback: bool, r: Run, ops: seq<Op>)
    requires RunInvariant(c, r) && ConfigOk(c) && Honest(c.policy) && Tidy(c, r.s.tree) && Execute(c, rollback, r, ops).Ok?
    ensures var t := Execute(c, rollback, r, ops).value.s.tree;
            && Tidy(c, t)
            && (c.margin.Some? ==> forall i: nat, j: nat ::
                  t.ActiveAt(i) && t.nodes[i].hasValue && t.ActiveAt(j) && t.nodes[j].hasValue ==>
                    t.nodes[j].value - t.nodes[i].value <= c.margin.value)
            && (ScoresLogprobs(c) ==> forall i: nat :: t.ActiveAt(i) && t.nodes[i].hasValue ==> t.nodes[i].value == t.nodes[i].logprob)
    decreases |ops|
  {
    if ops == [] {
      TidyMeans(c, r.s.tree);
    } else {
      StepKeepsInvariant(c, rollback, r, ops[0]);
      StepKeepsTidy(c, rollback, r, ops[0]);
      hide RunInvariant, Step, Tidy, Honest;
      EveryRunIsTidy(c, rollback, Step(c, rollback, r, ops[0]).value, ops[1..]);
    }
  }

  lemma TidyMeans(c: Config, t: Tree)
    requires Tidy(c, t)
    ensures c.margin.Some? ==> forall i: nat, j: nat ::
              t.ActiveAt(i) && t.nodes[i].hasValue && t.ActiveAt(j) && t.nodes[j].hasValue ==>
                t.nodes[j].value - t.nodes[i].value <= c.margin.value
    ensures ScoresLogprobs(c) ==> forall i: nat :: t.ActiveAt(i) && t.nodes[i].hasValue ==> t.nodes[i].value == t.nodes[i].logprob
  {
    if c.margin.Some? {
      forall i: nat, j: nat | t.ActiveAt(i) && t.nodes[i].hasValue && t.ActiveAt(j) && t.nodes[j].hasValue
        ensures t.nodes[j].value - t.nodes[i].value <= c.margin.value
      {
        assert !IsVictim(t, c.margin.value, i);
      }
    }
  }

  lemma StartIsTidy(c: Config, totalLimit: nat, branchLimit: nat, cap: nat)
    ensures Tidy(c, Start(totalLimit, branchLimit, cap).s.tree)
  {
  }
}
