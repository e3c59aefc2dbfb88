/** When a round of scores is in time: a batch of tokens, then the scores of its branches
    (core/autotree_core/engine/treekv.py, advance_batch; scheduler/src/scheduler.rs). */
module RoundTiming {
  import opened Common
  import opened Arena
  import opened Commands
  import opened CommandStream
  import opened Lifecycle
  import opened Termination
  import opened Policies
  import opened Scheduler
  import opened Waiting
  import opened Runs
  import opened Answers
  import opened ConsensusRound
  import C = Consensus
  import Lockstep

  /** Grown, but no dead branch lives again. */
  ghost predicate RevivesNone(a: Tree, b: Tree) {
    |a.nodes| <= |b.nodes| && forall i: nat :: i < |a.nodes| && b.LiveAt(i) ==> a.LiveAt(i)
  }

  /** Whoever waited and still lives still waits, unless it is the one that was answered. */
  ghost predicate WaitsOn(s: State, r: State, answered: set<nat>) {
    && RevivesNone(s.tree, r.tree)
    && forall x :: x in s.pending && x < |s.tree.nodes| && r.tree.LiveAt(x) && x !in answered ==> x in r.pending
  }

  lemma WaitsOnThen(a: State, b: State, c: State, x: set<nat>, y: set<nat>, both: set<nat>)
    requires WaitsOn(a, b, x) && WaitsOn(b, c, y) && x <= both && y <= both
    ensures WaitsOn(a, c, both)
  {
  }

  lemma SameStructureRevivesNone(a: Tree, b: Tree)
    requires SameStructure(a, b)
    ensures RevivesNone(a, b)
  {
    forall i: nat | i < |a.nodes| && b.LiveAt(i)
      ensures a.LiveAt(i)
    {
      assert SameShape(a.nodes[i], b.nodes[i]);
    }
  }

  lemma {:induction false} ReplayRevivesNone(t: Tree, commands: seq<Command>)
    requires WellFormed(t) && Replay(t, commands).Ok?
    ensures RevivesNone(t, Replay(t, commands).value)
    decreases |commands|
  {
    if commands != [] {
      var next := Apply(t, commands[0]).value;
      ApplyKeepsWellFormed(t, commands[0]);
      ApplyKeepsCap(t, commands[0]);
      assert RevivesNone(t, next) by { if commands[0].ForkAt? { assert NodeOk(t, commands[0].branch); } }
      ReplayRevivesNone(next, commands[1..]);
    }
  }

  // ---------------------------------------------------------------------------
  // The second half of an event
  // ---------------------------------------------------------------------------

  lemma RetainingWaitsOn(s: State)
    ensures WaitsOn(s, RetainLive(s), {})
  {
  }

  lemma EndsWaitOn(s: State, tree: Tree)
    requires OnlyEnds(s.tree, tree)
    ensures WaitsOn(s, s.(tree := tree), {})
  {
  }

  lemma QueueWaitsOn(s: State, r: State)
    requires r == s.(queue := r.queue, outstanding := r.outstanding)
    ensures WaitsOn(s, r, {})
  {
  }

  lemma EndedWaitsOn(s: State, r: State)
    requires |s.tree.nodes| == |r.tree.nodes| && AllTerminal(r.tree)
    ensures WaitsOn(s, r, {})
  {
    forall i: nat | i < |s.tree.nodes|
      ensures !r.tree.LiveAt(i)
    {
      assert r.tree.TerminalAt(i);
    }
  }

  lemma PolicyWaitsOn(c: Config, s: State, e: EngineEvent)
    requires WellFormed(s.tree) && NoOrphans(s.tree) && ConfigOk(c) && s.terminals == map[]
    requires e.TokenSampled? && e.entropy.Some? ==> e.entropy.value.Finite?
    requires PolicyPhase(c, s, e).Ok?
    ensures WaitsOn(s, PolicyPhase(c, s, e).value.s, {})
  {
    hide WellFormed, NoOrphans, PolicyPhase;
    PolicyCommandsKeepWaiting(c, s, e);
    Lockstep.PolicyPhaseInStep(c, s, e);
    var d := PolicyPhase(c, s, e).value;
    ReplayRevivesNone(s.tree, d.commands);
    SameStructureRevivesNone(Replay(s.tree, d.commands).value, d.s.tree);
  }

  lemma FinishWaitsOn(c: Config, ph: Phase, e: EngineEvent)
    requires WellFormed(ph.s.tree) && NoOrphans(ph.s.tree) && ConfigOk(c)
    requires e.TokenSampled? ==> !e.eos && (e.entropy.Some? ==> e.entropy.value.Finite?)
    requires FinishEvent(c, ph, e).Ok?
    ensures WaitsOn(ph.s, FinishEvent(c, ph, e).value, {})
  {
    hide WellFormed, NoOrphans, WaitsOn, TerminateTree, SpeculativePrune, PolicyPhase, AllTerminal, OnlyEnds;
    if ph.exhausted {
      TerminateTreeSpec(ph.s.tree, TreeBudgetExhausted);
      var ended := TerminateTree(ph.s.tree, TreeBudgetExhausted).value;
      var final := ph.s.(tree := ended.tree, pending := map[], terminals := map[], adaptivePending := {});
      EnqueueKeepsTree(final, ph.emitted + ended.commands);
      EndsKeepLength(ph.s.tree, ended.tree);
      EndedWaitsOn(ph.s, FinishEvent(c, ph, e).value);
    } else {
      FinishContinuingWaitsOn(c, ph, e);
    }
  }

  lemma EndsKeepLength(a: Tree, b: Tree)
    requires OnlyEnds(a, b)
    ensures |a.nodes| == |b.nodes|
  {
  }

  lemma FinishContinuingWaitsOn(c: Config, ph: Phase, e: EngineEvent)
    requires WellFormed(ph.s.tree) && NoOrphans(ph.s.tree) && ConfigOk(c)
    requires e.TokenSampled? ==> !e.eos && (e.entropy.Some? ==> e.entropy.value.Finite?)
    requires !ph.exhausted && FinishEvent(c, ph, e).Ok?
    ensures WaitsOn(ph.s, FinishEvent(c, ph, e).value, {})
  {
    hide WellFormed, NoOrphans, WaitsOn, SpeculativePrune, PolicyPhase, FinishEvent, OnlyEnds, Enqueue;
    var pruned, d := FinishContinuingForm(c, ph, e);
    var s1 := RetainLive(ph.s);
    var s2 := s1.(tree := pruned.tree);
    SpeculativePruneSpec(ph.s.tree, c.margin);
    RetainingWaitsOn(ph.s);
    EndsWaitOn(s1, pruned.tree);
    WaitsOnThen(ph.s, s1, s2, {}, {}, {});
    if s2.terminals == map[] {
      PolicyWaitsOn(c, s2, e);
    } else {
      QueueWaitsOn(s2, d.s);
    }
    WaitsOnThen(ph.s, s2, d.s, {}, {}, {});
    RetainingWaitsOn(d.s);
    WaitsOnThen(ph.s, d.s, RetainLive(d.s), {}, {}, {});
    EnqueueKeepsTree(RetainLive(d.s), ph.emitted + pruned.commands + d.commands);
    var r := FinishEvent(c, ph, e).value;
    QueueWaitsOn(RetainLive(d.s), r);
    WaitsOnThen(ph.s, RetainLive(d.s), r, {}, {}, {});
  }

  // ---------------------------------------------------------------------------
  // Whole events
  // ---------------------------------------------------------------------------

  lemma ApplyScoreWaitsOn(c: Config, s: State, b: nat, score: Float)
    requires WellFormed(s.tree) && ApplyScore(c, s, b, score).Ok?
    ensures WaitsOn(s, ApplyScore(c, s, b, score).value.s, {b})
  {
    var valued := RecordValue(s.tree, b, score).value;
    SameStructureWellFormed(s.tree, valued);
    SameStructureRevivesNone(s.tree, valued);
    var s1 := s.(tree := valued, pending := s.pending - {b}, terminals := s.terminals - {b});
    hide WellFormed, FinalizeAndReclaim, RecordValue;
    if FinalizeAndReclaim(s1, b).Ok? {
      Lockstep.FinalizeAndReclaimSpec(s1, b);
    }
  }

  lemma ProcessScoreWaitsOn(c: Config, s: State, e: EngineEvent)
    requires WellFormed(s.tree) && NoOrphans(s.tree) && ConfigOk(c) && e.ValueScored? && ProcessEvent(c, s, e).Ok?
    ensures WaitsOn(s, ProcessEvent(c, s, e).value, {e.branch})
  {
    hide WellFormed, NoOrphans, WaitsOn, ApplyScore, FinishEvent;
    Lockstep.ApplyEventInStep(c, s, e);
    ApplyScoreWaitsOn(c, s, e.branch, e.score);
    var ph := ApplyScore(c, s, e.branch, e.score).value;
    FinishWaitsOn(c, ph, e);
    WaitsOnThen(s, ph.s, FinishEvent(c, ph, e).value, {e.branch}, {}, {e.branch});
  }

  lemma {:induction false} ResolveEachWaitsOn(root: Tree, polled: seq<Command>, c: Config, s: State, expired: seq<nat>)
    requires Lockstep.StepsTo(root, polled, s) && ConfigOk(c) && ResolveEach(c, s, expired).Ok?
    ensures WaitsOn(s, ResolveEach(c, s, expired).value, Elements(expired))
    decreases |expired|
  {
    hide WellFormed, NoOrphans, ProcessEvent, WaitsOn, Replays;
    if expired == [] {
      QueueWaitsOn(s, s);
      assert Elements(expired) == {};
    } else {
      assert Elements(expired) == {expired[0]} + Elements(expired[1..]) by { assert expired == [expired[0]] + expired[1..]; }
      if expired[0] !in s.pending {
        ResolveEachWaitsOn(root, polled, c, s, expired[1..]);
        WaitsOnLess(s, ResolveEach(c, s, expired[1..]).value, Elements(expired[1..]), Elements(expired));
      } else {
        var e := ValueScored(Finite(s.tree.nodes[expired[0]].logprob), expired[0]);
        ProcessScoreWaitsOn(c, s, e);
        Lockstep.ProcessEventInStep(root, polled, c, s, e);
        var next := ProcessEvent(c, s, e).value;
        ResolveEachWaitsOn(root, polled, c, next, expired[1..]);
        WaitsOnThen(s, next, ResolveEach(c, next, expired[1..]).value, {expired[0]}, Elements(expired[1..]), Elements(expired));
      }
    }
  }

  lemma WaitsOnLess(s: State, r: State, fewer: set<nat>, more: set<nat>)
    requires WaitsOn(s, r, fewer) && fewer <= more
    ensures WaitsOn(s, r, more)
  {
  }

  /** A token that awaits its score: what is awaited afterwards, and until when. */
  ghost predicate TokenWaits(c: Config, s: State, e: EngineEvent, r: State) {
    && r.accepted == s.accepted + 1
    && RevivesNone(s.tree, r.tree) && e.branch < |s.tree.nodes|
    && (forall x :: x in r.pending && x != e.branch ==> x in s.pending && r.pending[x] == s.pending[x])
    && (e.branch in r.pending ==> r.pending[e.branch] == s.accepted + 1 + c.maxPendingEvents)
    && (r.tree.LiveAt(e.branch) ==> e.branch in r.pending)
    && (forall x :: x in s.pending && r.tree.LiveAt(x) && s.pending[x] > s.accepted + 1 ==> x in r.pending)
  }

  ghost predicate Awaiting(e: EngineEvent) {
    e.TokenSampled? && !e.eos
  }

  lemma ApplyTokenPending(c: Config, s: State, e: EngineEvent)
    requires WellFormed(s.tree) && c.scorer.None? && Awaiting(e) && ApplyToken(c, s, e).Ok?
    ensures var ph := ApplyToken(c, s, e).value;
            && ph.s.pending == s.pending[e.branch := s.accepted + 1 + c.maxPendingEvents]
            && SameStructure(s.tree, ph.s.tree) && e.branch < |s.tree.nodes|
  {
    hide WellFormed, FinalizeAndReclaim, SameStructure, RecordSample;
    RecordSamplePending(c, s, e);
    Lockstep.RecordSampleStructure(c, s, e);
  }

  lemma RecordSamplePending(c: Config, s: State, e: EngineEvent)
    requires WellFormed(s.tree) && c.scorer.None? && Awaiting(e) && RecordSample(c, s, e).Ok?
    ensures RecordSample(c, s, e).value.0.pending == s.pending[e.branch := s.accepted + 1 + c.maxPendingEvents]
    ensures e.branch < |s.tree.nodes|
  {
    hide WellFormed, DropContinue, RecordToken, MarkValuePending;
  }

  lemma FeedTokenWaits(root: Tree, polled: seq<Command>, c: Config, s: State, e: EngineEvent)
    requires Lockstep.StepsTo(root, polled, s) && ConfigOk(c) && c.scorer.None? && Awaiting(e)
    requires Waits(c, s, s.accepted, s.accepted + c.maxPendingEvents) && FeedEvent(c, s, e).Ok?
    ensures TokenWaits(c, s, e, FeedEvent(c, s, e).value)
  {
    hide Lockstep.StepsTo, Waits, MayWait, ApplyToken, FinishEvent, FeedEvent, ResolveEach, NoOrphans;
    hide WaitsOn, TokenWaits, WellFormed;
    Lockstep.StepsToFacts(root, polled, s);
    Lockstep.StepsToNoOrphans(root, polled, s);
    FeedEventForm(c, s, e);
    var until := s.accepted + 1 + c.maxPendingEvents;
    var ph := ApplyToken(c, s, e).value;
    ApplyTokenPending(c, s, e);
    ApplyTokenWaits(c, s, e, s.accepted + c.maxPendingEvents);
    Lockstep.ApplyEventInStep(c, s, e);
    ApplyEventAccepts(c, s, e);
    FinishEventWaits(c, ph, e, s.accepted, until);
    FinishWaitsOn(c, ph, e);
    Lockstep.ProcessEventInStep(root, polled, c, s, e);
    var next := ProcessEvent(c, s, e).value;
    Lockstep.StepsToFacts(root, polled, next);
    var counted := next.(accepted := s.accepted + 1);
    CountedWaits(root, polled, c, next, counted, s.accepted, until);
    var expired := ExpiredBelow(counted, |counted.tree.nodes|);
    ResolveEachWaits(root, polled, c, counted, expired, s.accepted, until);
    ResolveEachWaitsOn(root, polled, c, counted, expired);
    WaitsInTree(c, s, s.accepted, s.accepted + c.maxPendingEvents);
    TokenWaitsPutTogether(c, s, e, ph.s, next, counted, ResolveEach(c, counted, expired).value);
  }

  lemma WaitsInTree(c: Config, s: State, after: nat, until: nat)
    requires Waits(c, s, after, until)
    ensures forall x :: x in s.pending ==> x < |s.tree.nodes|
  {
  }

  lemma TokenWaitsPutTogether(c: Config, s: State, e: EngineEvent, sampled: State, next: State, counted: State, r: State)
    requires c.maxPendingEvents > 0 && e.branch < |s.tree.nodes| && SameStructure(s.tree, sampled.tree)
    requires forall x :: x in s.pending ==> x < |s.tree.nodes|
    requires sampled.pending == s.pending[e.branch := s.accepted + 1 + c.maxPendingEvents]
    requires WaitsLess(sampled, next) && WaitsOn(sampled, next, {})
    requires counted == next.(accepted := s.accepted + 1)
    requires WaitsLess(counted, r) && WaitsOn(counted, r, Elements(ExpiredBelow(counted, |counted.tree.nodes|)))
    requires r.accepted == counted.accepted
    ensures TokenWaits(c, s, e, r)
  {
    SameStructureRevivesNone(s.tree, sampled.tree);
    forall x | x in sampled.pending && r.tree.LiveAt(x) && sampled.pending[x] > s.accepted + 1
      ensures x in r.pending
    {
      assert x in next.pending && counted.pending[x] == sampled.pending[x];
      assert x !in ExpiredBelow(counted, |counted.tree.nodes|);
    }
  }

  // ---------------------------------------------------------------------------
  // A batch of tokens
  // ---------------------------------------------------------------------------

  /** The engine feeds the tokens of a batch one event at a time. */
  function FeedTokens(c: Config, s: State, tokens: seq<EngineEvent>): (r: Result<State>)
    requires WellFormed(s.tree) && ConfigOk(c)
    ensures r.Ok? ==> WellFormed(r.value.tree)
    decreases |tokens|
  {
    if tokens == [] then Ok(s)
    else
      var next :- FeedEvent(c, s, tokens[0]);
      FeedTokens(c, next, tokens[1..])
  }

  lemma FeedTokensForm(c: Config, s: State, tokens: seq<EngineEvent>)
    requires WellFormed(s.tree) && ConfigOk(c) && FeedTokens(c, s, tokens).Ok?
    ensures tokens == [] ==> FeedTokens(c, s, tokens) == Ok(s)
    ensures tokens != [] ==>
              && FeedEvent(c, s, tokens[0]).Ok?
              && FeedTokens(c, s, tokens) == FeedTokens(c, FeedEvent(c, s, tokens[0]).value, tokens[1..])
  {
    hide FeedEvent, WellFormed;
  }

  /** Tokens of distinct branches, none of them the last of its branch. */
  ghost predicate Batch(tokens: seq<EngineEvent>) {
    && (forall p :: 0 <= p < |tokens| ==> Awaiting(tokens[p]))
    && forall p, q :: 0 <= p < q < |tokens| ==> tokens[p].branch != tokens[q].branch
  }

  ghost predicate Sampled(tokens: seq<EngineEvent>, x: nat) {
    exists p :: 0 <= p < |tokens| && tokens[p].branch == x
  }

  /** What is awaited after a batch: the deadlines follow the order of the tokens, and every branch of the batch
      that lives on and is not due yet is awaited. */
  ghost predicate BatchWaits(c: Config, s: State, tokens: seq<EngineEvent>, r: State) {
    && r.accepted == s.accepted + |tokens|
    && RevivesNone(s.tree, r.tree)
    && (forall x :: x in r.pending && !Sampled(tokens, x) ==> x in s.pending && r.pending[x] == s.pending[x])
    && (forall x :: x in s.pending && x < |s.tree.nodes| && !Sampled(tokens, x) && r.tree.LiveAt(x) && s.pending[x] > r.accepted ==>
          x in r.pending)
    && (forall p :: 0 <= p < |tokens| ==> InBatch(c, s, tokens[p].branch, p, r))
  }

  ghost predicate InBatch(c: Config, s: State, x: nat, p: nat, r: State) {
    && (x in r.pending ==> r.pending[x] == s.accepted + p + 1 + c.maxPendingEvents)
    && (r.tree.LiveAt(x) && s.accepted + p + 1 + c.maxPendingEvents > r.accepted ==> x in r.pending)
  }

  lemma {:induction false} FeedTokensWaits(root: Tree, polled: seq<Command>, c: Config, s: State, tokens: seq<EngineEvent>)
    requires Lockstep.StepsTo(root, polled, s) && ConfigOk(c) && c.scorer.None? && Batch(tokens)
    requires Waits(c, s, s.accepted, s.accepted + c.maxPendingEvents) && FeedTokens(c, s, tokens).Ok?
    ensures BatchWaits(c, s, tokens, FeedTokens(c, s, tokens).value)
    decreases |tokens|
  {
    hide Lockstep.StepsTo, Waits, FeedEvent, FeedTokens, WellFormed, ConfigOk, TokenWaits, BatchWaits, Batch, Awaiting;
    Lockstep.StepsToFacts(root, polled, s);
    FeedTokensForm(c, s, tokens);
    if tokens == [] {
      NothingSampled(c, s);
    } else {
      BatchRest(tokens);
      FeedTokenWaits(root, polled, c, s, tokens[0]);
      FeedEventWaits(root, polled, c, s, tokens[0]);
      Lockstep.FeedEventInStep(root, polled, c, s, tokens[0]);
      var next := FeedEvent(c, s, tokens[0]).value;
      FeedTokensWaits(root, polled, c, next, tokens[1..]);
      BatchPutTogether(c, s, tokens, next, FeedTokens(c, next, tokens[1..]).value);
    }
  }

  lemma NothingSampled(c: Config, s: State)
    ensures BatchWaits(c, s, [], s)
  {
  }

  lemma BatchRest(tokens: seq<EngineEvent>)
    requires Batch(tokens) && tokens != []
    ensures Awaiting(tokens[0]) && Batch(tokens[1..])
  {
  }

  lemma SampledFirst(tokens: seq<EngineEvent>, x: nat)
    requires tokens != []
    ensures Sampled(tokens, x) <==> x == tokens[0].branch || Sampled(tokens[1..], x)
  {
    if Sampled(tokens[1..], x) {
      var p :| 0 <= p < |tokens[1..]| && tokens[1..][p].branch == x;
      assert tokens[p + 1].branch == x;
    }
    if Sampled(tokens, x) && x != tokens[0].branch {
      var p :| 0 <= p < |tokens| && tokens[p].branch == x;
      assert tokens[1..][p - 1].branch == x;
    }
  }

  lemma BatchPutTogether(c: Config, s: State, tokens: seq<EngineEvent>, next: State, r: State)
    requires tokens != [] && Batch(tokens) && ConfigOk(c) && c.scorer.None?
    requires TokenWaits(c, s, tokens[0], next) && BatchWaits(c, next, tokens[1..], r)
    ensures BatchWaits(c, s, tokens, r)
  {
    hide Sampled;
    forall x: nat
      ensures Sampled(tokens, x) <==> x == tokens[0].branch || Sampled(tokens[1..], x)
    {
      SampledFirst(tokens, x);
    }
    FirstIsNotLater(tokens);
    forall p | 0 <= p < |tokens|
      ensures InBatch(c, s, tokens[p].branch, p, r)
    {
      if p > 0 {
        assert tokens[1..][p - 1] == tokens[p];
        assert InBatch(c, next, tokens[1..][p - 1].branch, p - 1, r);
      }
    }
  }

  lemma FirstIsNotLater(tokens: seq<EngineEvent>)
    requires tokens != [] && Batch(tokens)
    ensures !Sampled(tokens[1..], tokens[0].branch)
  {
  }

  // ---------------------------------------------------------------------------
  // The round after a batch
  // ---------------------------------------------------------------------------

  /** The scores are those of the batch, and each comes at most the configured number of events after its
      token: i scores and |tokens| - p - 1 tokens come between. */
  ghost predicate Prompt(tokens: seq<EngineEvent>, order: seq<nat>, maxPendingEvents: nat) {
    forall p, i :: 0 <= p < |tokens| && 0 <= i < |order| && tokens[p].branch == order[i] ==>
      |tokens| + i - p <= maxPendingEvents
  }

  lemma PromptIsInTime(c: Config, s: State, tokens: seq<EngineEvent>, r: State, order: seq<nat>)
    requires BatchWaits(c, s, tokens, r)
    requires forall i :: 0 <= i < |order| ==> r.tree.ActiveAt(order[i]) && Sampled(tokens, order[i])
    ensures InTime(r, order) <==> Prompt(tokens, order, c.maxPendingEvents)
  {
    if InTime(r, order) {
      forall p, i | 0 <= p < |tokens| && 0 <= i < |order| && tokens[p].branch == order[i]
        ensures |tokens| + i - p <= c.maxPendingEvents
      {
        assert InBatch(c, s, tokens[p].branch, p, r) && order[i] in r.pending;
      }
    }
    if Prompt(tokens, order, c.maxPendingEvents) {
      forall i | 0 <= i < |order|
        ensures order[i] in r.pending && r.pending[order[i]] > r.accepted + i
      {
        var p :| 0 <= p < |tokens| && tokens[p].branch == order[i];
        assert InBatch(c, s, tokens[p].branch, p, r) && r.tree.LiveAt(order[i]);
      }
    }
  }

  /** From any reachable state: a batch of tokens and then a full round of its scores, in any order, is taken
      exactly if every score is prompt. */
  lemma RoundAfterBatch(c: Config, beam: BeamConfig, r: Run, tokens: seq<EngineEvent>, s: State, scores: C.Scores, order: seq<nat>)
    requires RunInvariant(c, r) && RoundConfig(c, beam, |order|) && Batch(tokens)
    requires RoundStart(s, scores, order) && forall i :: 0 <= i < |order| ==> Sampled(tokens, order[i])
    requires WellFormed(r.s.tree) && ConfigOk(c) && FeedTokens(c, r.s, tokens) == Ok(s)
    ensures forall k :: 0 <= k < |order| ==> order[k] in scores
    ensures FeedScores(c, s, order, scores).Ok? <==> Prompt(tokens, order, c.maxPendingEvents)
  {
    var root := FreshTree(r.s.tree.cap);
    hide *;
    RunWaits(c, r);
    RoundScores(c, beam, s, scores, order);
    FeedTokensWaits(root, r.polled, c, r.s, tokens);
    FeedTokensInStep(root, r.polled, c, r.s, tokens);
    InStepFacts(root, r.polled, c, s);
    PromptIsInTime(c, r.s, tokens, s, order);
    TakenExactlyInTime(root, r.polled, c, beam, s, scores, order);
  }

  lemma InStepFacts(root: Tree, polled: seq<Command>, c: Config, s: State)
    requires InStepAndWaiting(root, polled, c, s)
    ensures Lockstep.StepsTo(root, polled, s) && Waits(c, s, s.accepted, s.accepted + c.maxPendingEvents)
  {
  }

  lemma {:induction false} FeedTokensInStep(root: Tree, polled: seq<Command>, c: Config, s: State, tokens: seq<EngineEvent>)
    requires Lockstep.StepsTo(root, polled, s) && ConfigOk(c)
    requires Waits(c, s, s.accepted, s.accepted + c.maxPendingEvents) && FeedTokens(c, s, tokens).Ok?
    ensures InStepAndWaiting(root, polled, c, FeedTokens(c, s, tokens).value)
    decreases |tokens|
  {
    hide FeedEvent, Waits, Lockstep.StepsTo, ConfigOk, WellFormed, FeedTokens;
    Lockstep.StepsToFacts(root, polled, s);
    FeedTokensForm(c, s, tokens);
    if tokens != [] {
      FeedEventWaits(root, polled, c, s, tokens[0]);
      Lockstep.FeedEventInStep(root, polled, c, s, tokens[0]);
      FeedTokensInStep(root, polled, c, FeedEvent(c, s, tokens[0]).value, tokens[1..]);
    }
  }

  ghost predicate InStepAndWaiting(root: Tree, polled: seq<Command>, c: Config, s: State) {
    Lockstep.StepsTo(root, polled, s) && Waits(c, s, s.accepted, s.accepted + c.maxPendingEvents)
  }

  /** Scores in the order of the tokens are prompt exactly if there are no more of them than events may pend. */
  lemma SameOrderIsPrompt(tokens: seq<EngineEvent>, order: seq<nat>, maxPendingEvents: nat)
    requires Batch(tokens) && |order| == |tokens| > 0 && forall k :: 0 <= k < |order| ==> order[k] == tokens[k].branch
    ensures Prompt(tokens, order, maxPendingEvents) <==> |order| <= maxPendingEvents
  {
    assert tokens[0].branch == order[0];
    if |order| <= maxPendingEvents {
      forall p, i | 0 <= p < |tokens| && 0 <= i < |order| && tokens[p].branch == order[i]
        ensures p == i
      {
        assert tokens[i].branch == order[i];
      }
    }
  }

  /** Every order is prompt exactly if twice the batch, less one, may pend. */
  lemma EveryOrderIsPrompt(tokens: seq<EngineEvent>, maxPendingEvents: nat)
    requires Batch(tokens) && tokens != []
    ensures 2 * |tokens| - 1 <= maxPendingEvents ==> forall order: seq<nat> :: |order| <= |tokens| ==> Prompt(tokens, order, maxPendingEvents)
    ensures 2 * |tokens| - 1 > maxPendingEvents ==> !Prompt(tokens, FirstComesLast(tokens), maxPendingEvents)
  {
    var order := FirstComesLast(tokens);
    assert tokens[0].branch == order[|order| - 1];
  }

  /** The branches of a batch, scored with the first one last. */
  function FirstComesLast(tokens: seq<EngineEvent>): (order: seq<nat>)
    requires tokens != []
    ensures |order| == |tokens|
  {
    seq(|tokens|, k requires 0 <= k < |tokens| => tokens[(k + 1) % |tokens|].branch)
  }
}
