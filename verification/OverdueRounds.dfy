/** Rounds that stop at a score that comes too late: who survives (core/autotree_core/engine/treekv.py, advance_batch;
    scheduler/src/scheduler.rs). */
module OverdueRounds {
  import opened Common
  import opened Arena
  import opened Commands
  import opened CommandStream
  import opened Lifecycle
  import opened Policies
  import opened Scheduler
  import opened Accounts
  import opened Runs
  import opened Answers
  import opened ConsensusRound
  import opened RoundTiming
  import opened Values
  import BuiltIns
  import C = Consensus
  import Lockstep

  // ---------------------------------------------------------------------------
  // Whoever was sampled is awaited or scored
  // ---------------------------------------------------------------------------

  /** If the branch is active it has a value or awaits one. */
  ghost predicate AwaitedOrScored(s: State, x: nat) {
    x < |s.tree.nodes| && (s.tree.ActiveAt(x) && x !in s.pending ==> s.tree.nodes[x].hasValue)
  }

  lemma StillAwaitedOrScored(s: State, r: State, x: nat)
    requires AwaitedOrScored(s, x) && WaitsOn(s, r, {}) && ValuesKept(s.tree, r.tree)
    ensures AwaitedOrScored(r, x)
  {
  }

  lemma FinishServes(c: Config, ph: Phase, e: EngineEvent, x: nat)
    requires WellFormed(ph.s.tree) && NoOrphans(ph.s.tree) && ConfigOk(c) && Honest(c.policy) && c.margin == Some(0.0)
    requires e.TokenSampled? ==> !e.eos && (e.entropy.Some? ==> e.entropy.value.Finite?)
    requires FinishEvent(c, ph, e).Ok? && AwaitedOrScored(ph.s, x)
    ensures AwaitedOrScored(FinishEvent(c, ph, e).value, x) && NoneTrails(FinishEvent(c, ph, e).value.tree, Some(0.0))
  {
    hide *;
    FinishWaitsOn(c, ph, e);
    FinishKeepsValues(c, ph, e);
    StillAwaitedOrScored(ph.s, FinishEvent(c, ph, e).value, x);
  }

  // ---------------------------------------------------------------------------
  // Scores and tokens
  // ---------------------------------------------------------------------------

  lemma ApplyScoreServes(c: Config, s: State, b: nat, score: Float, x: nat)
    requires WellFormed(s.tree) && ApplyScore(c, s, b, score).Ok? && AwaitedOrScored(s, x)
    ensures AwaitedOrScored(ApplyScore(c, s, b, score).value.s, x)
  {
    var valued := RecordValue(s.tree, b, score).value;
    SameStructureWellFormed(s.tree, valued);
    var s1 := s.(tree := valued, pending := s.pending - {b}, terminals := s.terminals - {b});
    assert AwaitedOrScored(s1, x);
    hide WellFormed, FinalizeAndReclaim, RecordValue;
    if FinalizeAndReclaim(s1, b).Ok? {
      Lockstep.FinalizeAndReclaimSpec(s1, b);
    }
  }

  lemma ProcessScoreServes(c: Config, s: State, e: EngineEvent, x: nat)
    requires WellFormed(s.tree) && NoOrphans(s.tree) && ConfigOk(c) && Honest(c.policy) && c.margin == Some(0.0)
    requires e.ValueScored? && ProcessEvent(c, s, e).Ok? && AwaitedOrScored(s, x)
    ensures AwaitedOrScored(ProcessEvent(c, s, e).value, x) && NoneTrails(ProcessEvent(c, s, e).value.tree, Some(0.0))
  {
    hide WellFormed, NoOrphans, Honest, ApplyScore, FinishEvent, AwaitedOrScored, NoneTrails;
    Lockstep.ApplyEventInStep(c, s, e);
    ApplyScoreServes(c, s, e.branch, e.score, x);
    FinishServes(c, ApplyScore(c, s, e.branch, e.score).value, e, x);
  }

  lemma {:induction false} ResolveEachServes(root: Tree, polled: seq<Command>, c: Config, s: State, expired: seq<nat>, x: nat)
    requires Lockstep.StepsTo(root, polled, s) && ConfigOk(c) && Honest(c.policy) && c.margin == Some(0.0)
    requires ResolveEach(c, s, expired).Ok? && AwaitedOrScored(s, x) && NoneTrails(s.tree, Some(0.0))
    ensures AwaitedOrScored(ResolveEach(c, s, expired).value, x) && NoneTrails(ResolveEach(c, s, expired).value.tree, Some(0.0))
    decreases |expired|
  {
    hide WellFormed, NoOrphans, Honest, ProcessEvent, Replays, AwaitedOrScored, NoneTrails;
    if expired != [] {
      if expired[0] !in s.pending {
        ResolveEachServes(root, polled, c, s, expired[1..], x);
      } else {
        var e := ValueScored(Finite(s.tree.nodes[expired[0]].logprob), expired[0]);
        ProcessScoreServes(c, s, e, x);
        Lockstep.ProcessEventInStep(root, polled, c, s, e);
        ResolveEachServes(root, polled, c, ProcessEvent(c, s, e).value, expired[1..], x);
      }
    }
  }

  lemma RecordSampleServes(c: Config, s: State, e: EngineEvent, x: nat)
    requires WellFormed(s.tree) && c.scorer.None? && Awaiting(e) && RecordSample(c, s, e).Ok?
    requires x == e.branch || AwaitedOrScored(s, x)
    ensures AwaitedOrScored(RecordSample(c, s, e).value.0, x)
  {
    hide WellFormed, DropContinue;
  }

  lemma ApplyTokenServes(c: Config, s: State, e: EngineEvent, x: nat)
    requires WellFormed(s.tree) && c.scorer.None? && Awaiting(e) && ApplyToken(c, s, e).Ok?
    requires x == e.branch || AwaitedOrScored(s, x)
    ensures AwaitedOrScored(ApplyToken(c, s, e).value.s, x)
  {
    hide WellFormed, RecordSample, FinalizeAndReclaim;
    RecordSampleServes(c, s, e, x);
  }

  lemma ProcessTokenServes(c: Config, s: State, e: EngineEvent, x: nat)
    requires WellFormed(s.tree) && NoOrphans(s.tree) && ConfigOk(c) && Honest(c.policy) && c.margin == Some(0.0)
    requires c.scorer.None? && Awaiting(e) && ProcessEvent(c, s, e).Ok? && (x == e.branch || AwaitedOrScored(s, x))
    ensures AwaitedOrScored(ProcessEvent(c, s, e).value, x) && NoneTrails(ProcessEvent(c, s, e).value.tree, Some(0.0))
  {
    hide WellFormed, NoOrphans, Honest, ApplyToken, FinishEvent, AwaitedOrScored, NoneTrails;
    Lockstep.ApplyEventInStep(c, s, e);
    ApplyTokenServes(c, s, e, x);
    FinishServes(c, ApplyToken(c, s, e).value, e, x);
  }

  lemma FeedTokenServes(root: Tree, polled: seq<Command>, c: Config, s: State, e: EngineEvent, x: nat)
    requires Lockstep.StepsTo(root, polled, s) && ConfigOk(c) && Honest(c.policy) && c.margin == Some(0.0)
    requires c.scorer.None? && Awaiting(e) && FeedEvent(c, s, e).Ok? && (x == e.branch || AwaitedOrScored(s, x))
    ensures AwaitedOrScored(FeedEvent(c, s, e).value, x) && NoneTrails(FeedEvent(c, s, e).value.tree, Some(0.0))
  {
    hide Lockstep.StepsTo, Honest, ProcessEvent, FeedEvent, ResolveEach, ExpiredBelow, NoOrphans, WellFormed, AwaitedOrScored, NoneTrails;
    Lockstep.StepsToFacts(root, polled, s);
    Lockstep.StepsToNoOrphans(root, polled, s);
    FeedEventForm(c, s, e);
    ProcessTokenServes(c, s, e, x);
    Lockstep.ProcessEventInStep(root, polled, c, s, e);
    var next := ProcessEvent(c, s, e).value;
    var counted := next.(accepted := s.accepted + 1);
    CountedServes(root, polled, next, counted, x);
    Lockstep.StepsToFacts(root, polled, counted);
    ResolveEachServes(root, polled, c, counted, ExpiredBelow(counted, |counted.tree.nodes|), x);
  }

  lemma CountedServes(root: Tree, polled: seq<Command>, s: State, r: State, x: nat)
    requires Lockstep.StepsTo(root, polled, s) && AwaitedOrScored(s, x) && r == s.(accepted := r.accepted)
    ensures Lockstep.StepsTo(root, polled, r) && AwaitedOrScored(r, x)
  {
  }

  /** After a batch whoever was sampled is awaited or scored, and nobody trails. */
  lemma {:induction false} FeedTokensServe(root: Tree, polled: seq<Command>, c: Config, s: State, tokens: seq<EngineEvent>, x: nat)
    requires Lockstep.StepsTo(root, polled, s) && ConfigOk(c) && Honest(c.policy) && c.margin == Some(0.0)
    requires c.scorer.None? && Batch(tokens) && FeedTokens(c, s, tokens).Ok? && (Sampled(tokens, x) || AwaitedOrScored(s, x))
    ensures AwaitedOrScored(FeedTokens(c, s, tokens).value, x)
    ensures tokens != [] ==> NoneTrails(FeedTokens(c, s, tokens).value.tree, Some(0.0))
    decreases |tokens|
  {
    hide Lockstep.StepsTo, Honest, FeedEvent, FeedTokens, WellFormed, ConfigOk, Batch, Awaiting, AwaitedOrScored, NoneTrails;
    Lockstep.StepsToFacts(root, polled, s);
    FeedTokensForm(c, s, tokens);
    if tokens != [] {
      BatchRest(tokens);
      SampledFirst(tokens, x);
      Lockstep.FeedEventInStep(root, polled, c, s, tokens[0]);
      var next := FeedEvent(c, s, tokens[0]).value;
      var y := if x == tokens[0].branch || AwaitedOrScored(s, x) then x else tokens[0].branch;
      FeedTokenServes(root, polled, c, s, tokens[0], y);
      FeedTokensServe(root, polled, c, next, tokens[1..], x);
      FeedTokensForm(c, next, tokens[1..]);
    }
  }

  // ---------------------------------------------------------------------------
  // The round
  // ---------------------------------------------------------------------------

  /** The first score that comes too long after its token. */
  ghost predicate FirstOverdue(tokens: seq<EngineEvent>, order: seq<nat>, k: nat, maxPendingEvents: nat) {
    && k < |order|
    && Prompt(tokens, order[..k], maxPendingEvents)
    && exists p :: 0 <= p < |tokens| && tokens[p].branch == order[k] && |tokens| + k - p > maxPendingEvents
  }

  lemma OverdueIsLate(c: Config, s: State, tokens: seq<EngineEvent>, r: State, order: seq<nat>, k: nat)
    requires BatchWaits(c, s, tokens, r) && FirstOverdue(tokens, order, k, c.maxPendingEvents)
    requires forall i :: 0 <= i < |order| ==> r.tree.ActiveAt(order[i]) && Sampled(tokens, order[i])
    ensures FirstLate(r, order, k)
  {
    PromptIsInTime(c, s, tokens, r, order[..k]);
    var p :| 0 <= p < |tokens| && tokens[p].branch == order[k] && |tokens| + k - p > c.maxPendingEvents;
    assert InBatch(c, s, tokens[p].branch, p, r);
  }

  lemma BatchIsUnbeaten(root: Tree, polled: seq<Command>, c: Config, beam: BeamConfig, s: State, tokens: seq<EngineEvent>, r: State,
                        scores: C.Scores, order: seq<nat>)
    requires Lockstep.StepsTo(root, polled, s) && RoundConfig(c, beam, |order|) && Batch(tokens) && tokens != []
    requires WellFormed(s.tree) && ConfigOk(c) && FeedTokens(c, s, tokens) == Ok(r)
    requires RoundStart(r, scores, order) && forall i :: 0 <= i < |order| ==> Sampled(tokens, order[i])
    ensures Unbeaten(r)
  {
    hide Lockstep.StepsTo, WellFormed, NoOrphans, Honest, FeedTokens, ConfigOk, Batch, IsVictim, BeamPolicy;
    BuiltIns.BeamIsFaithful(beam);
    FeedTokensServe(root, polled, c, s, tokens, tokens[0].branch);
    forall b: nat | r.tree.ActiveAt(b) && b !in r.pending
      ensures r.tree.nodes[b].hasValue
    {
      assert b in order;
      FeedTokensServe(root, polled, c, s, tokens, b);
    }
  }

  /** When a score comes too long after its token the round stops with the first such score: the ones before it are
      taken, it is refused, and the survivors are those still awaited and the best of the answered, by score or by
      logprob. */
  lemma OverdueRoundStops(c: Config, beam: BeamConfig, r: Run, tokens: seq<EngineEvent>, s: State, scores: C.Scores,
                          order: seq<nat>, k: nat)
    requires RunInvariant(c, r) && RoundConfig(c, beam, |order|) && Batch(tokens)
    requires RoundStart(s, scores, order) && forall i :: 0 <= i < |order| ==> Sampled(tokens, order[i])
    requires WellFormed(r.s.tree) && ConfigOk(c) && FeedTokens(c, r.s, tokens) == Ok(s)
    requires FirstOverdue(tokens, order, k, c.maxPendingEvents)
    ensures WellFormed(s.tree) && forall j :: 0 <= j < |order| ==> order[j] in scores
    ensures FeedScores(c, s, order[..k], scores).Ok?
    ensures var end := FeedScores(c, s, order[..k], scores).value;
            var values := Effective(s, scores, order, k);
            && end.pending == Left(s, order[..k])
            && FeedScores(c, s, order, scores)
               == Err(if end.tree.LiveAt(order[k]) then UnexpectedValueScore(order[k]) else BranchNotActive(order[k]))
            && forall b: nat :: end.tree.ActiveAt(b) <==>
                 b in end.pending || BestIn(values, scores.Keys - end.pending.Keys, b)
  {
    var root := FreshTree(r.s.tree.cap);
    hide *;
    RunWaits(c, r);
    RoundScores(c, beam, s, scores, order);
    FeedTokensWaits(root, r.polled, c, r.s, tokens);
    FeedTokensInStep(root, r.polled, c, r.s, tokens);
    InStepFacts(root, r.polled, c, s);
    OverdueIsLate(c, r.s, tokens, s, order, k);
    OverdueHasTokens(tokens, order, k, c.maxPendingEvents);
    BatchIsUnbeaten(root, r.polled, c, beam, r.s, tokens, s, scores, order);
    DeadlinesAhead(c, s);
    StopsAt(c, beam, s, scores, order, k);
  }

  lemma OverdueHasTokens(tokens: seq<EngineEvent>, order: seq<nat>, k: nat, maxPendingEvents: nat)
    requires FirstOverdue(tokens, order, k, maxPendingEvents)
    ensures k < |order| && tokens != []
  {
  }
}
