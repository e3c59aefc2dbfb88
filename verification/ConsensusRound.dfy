/** One full round of agreement scores fed to a beam scheduler with kill margin zero
    (core/autotree_core/engine/treekv.py, feed_consensus_values; scheduler/src/scheduler.rs). */
module ConsensusRound {
  import opened Common
  import opened Arena
  import opened Commands
  import opened CommandStream
  import opened Ranking
  import opened Lifecycle
  import opened Policies
  import opened Scheduler
  import opened Waiting
  import opened Runs
  import opened Answers
  import C = Consensus
  import Lockstep

  /** The engine feeds the scores one event at a time. */
  function FeedScores(c: Config, s: State, order: seq<nat>, scores: C.Scores): (r: Result<State>)
    requires WellFormed(s.tree) && ConfigOk(c) && forall k :: 0 <= k < |order| ==> order[k] in scores
    ensures r.Ok? ==> WellFormed(r.value.tree)
    decreases |order|
  {
    if order == [] then Ok(s)
    else
      var next :- FeedEvent(c, s, Score(scores, order[0]));
      FeedScores(c, next, order[1..], scores)
  }

  function Score(scores: C.Scores, b: nat): EngineEvent
    requires b in scores
  {
    ValueScored(Finite(scores[b]), b)
  }

  ghost predicate InTime(s: State, rest: seq<nat>) {
    forall i :: 0 <= i < |rest| ==> rest[i] in s.pending && s.pending[rest[i]] > s.accepted + i
  }

  /** The start of a round: exactly the active branches are scored, no other branch awaits a score, and none
      that does has a value already. */
  ghost predicate RoundStart(s: State, scores: C.Scores, order: seq<nat>) {
    && WellFormed(s.tree)
    && NoOrphans(s.tree)
    && s.terminals == map[]
    && Distinct(order)
    && (forall b :: b in order <==> b in scores)
    && (forall b: nat :: s.tree.ActiveAt(b) <==> b in scores)
    && (forall b :: b in s.pending ==> b in scores)
    && (forall b: nat :: s.tree.ActiveAt(b) && b in s.pending ==> !s.tree.nodes[b].hasValue)
    && s.accepted + |order| <= U64_MAX
  }

  // ---------------------------------------------------------------------------
  // Scores that are in time
  // ---------------------------------------------------------------------------

  /** Who is still awaited after the scores of `order`. */
  ghost function Left(s: State, order: seq<nat>): map<nat, nat> {
    map b | b in s.pending && b !in order && s.pending[b] > s.accepted + |order| :: s.pending[b]
  }

  /** The engine's scores, and the logprobs of those that become due meanwhile. */
  ghost predicate ValuesAre(s: State, order: seq<nat>, scores: C.Scores, values: C.Scores) {
    && (forall b :: b in order ==> b in scores && b in values && values[b] == scores[b])
    && forall b :: b in s.pending && b !in order && s.pending[b] <= s.accepted + |order| ==>
         b < |s.tree.nodes| && b in values && values[b] == s.tree.nodes[b].logprob
  }

  /** As long as the scores are in time they are taken, whatever else falls due. */
  lemma {:induction false} FeedPrefix(c: Config, beam: BeamConfig, s: State, order: seq<nat>, scores: C.Scores,
                                      values: C.Scores, all: set<nat>)
    requires RoundConfig(c, beam, |s.tree.ActiveFrontier()|) && Open(s) && Distinct(order) && InTime(s, order)
    requires (forall k :: 0 <= k < |order| ==> order[k] in scores) && s.accepted + |order| <= U64_MAX
    requires forall b :: b in s.pending ==> s.pending[b] > s.accepted
    ensures WellFormed(s.tree) && ConfigOk(c) && FeedScores(c, s, order, scores).Ok?
    ensures var r := FeedScores(c, s, order, scores).value;
            && Open(r) && r.pending == Left(s, order) && r.accepted == s.accepted + |order| && SameLogprobs(s.tree, r.tree)
            && (Standing(s, values, all) && ValuesAre(s, order, scores, values) ==> Standing(r, values, all))
    decreases |order|
  {
    hide WellFormed, Open, Standing, FeedEvent, RoundConfig, ConfigOk, SameLogprobs, ValuesAre, InTime, Left, LeftAfter, AnswersAre, Distinct;
    OpenIsWellFormed(c, beam, s);
    if order == [] {
      NothingLeft(s);
      SameLogprobsRefl(s.tree);
    } else {
      var b := order[0];
      FirstAndRest(order);
      InTimeFirst(s, order);
      AnswerIsScore(b, scores[b]);
      FeedAnswer(c, beam, s, b, scores[b], values, all);
      var next := FeedEvent(c, s, Score(scores, b)).value;
      InTimeRest(s, order, next);
      FeedPrefix(c, beam, next, order[1..], scores, values, all);
      LeftThen(s, order, next);
      SameLogprobsThen(s.tree, next.tree, FeedScores(c, next, order[1..], scores).value.tree);
      if ValuesAre(s, order, scores, values) { ValuesRest(s, order, scores, values, next); }
    }
  }

  lemma NothingLeft(s: State)
    requires forall b :: b in s.pending ==> s.pending[b] > s.accepted
    ensures Left(s, []) == s.pending
  {
  }

  lemma InTimeFirst(s: State, order: seq<nat>)
    requires order != [] && InTime(s, order)
    ensures order[0] in s.pending
  {
  }

  lemma InTimeRest(s: State, order: seq<nat>, next: State)
    requires order != [] && InTime(s, order) && Distinct(order)
    requires next.pending == LeftAfter(s, order[0]) && next.accepted == s.accepted + 1
    ensures InTime(next, order[1..])
    ensures forall b :: b in next.pending ==> next.pending[b] > next.accepted
  {
    forall i | 0 <= i < |order[1..]|
      ensures order[1..][i] in next.pending && next.pending[order[1..][i]] > next.accepted + i
    {
      assert order[1..][i] == order[i + 1] && order[i + 1] != order[0];
    }
  }

  lemma LeftThen(s: State, order: seq<nat>, next: State)
    requires order != [] && next.pending == LeftAfter(s, order[0]) && next.accepted == s.accepted + 1
    ensures Left(next, order[1..]) == Left(s, order)
  {
    assert order == [order[0]] + order[1..];
    forall b
      ensures b in order <==> b == order[0] || b in order[1..]
    {
    }
  }

  lemma ValuesRest(s: State, order: seq<nat>, scores: C.Scores, values: C.Scores, next: State)
    requires order != [] && ValuesAre(s, order, scores, values) && InTime(s, order)
    requires next.pending == LeftAfter(s, order[0]) && next.accepted == s.accepted + 1 && SameLogprobs(s.tree, next.tree)
    ensures AnswersAre(s, order[0], scores[order[0]], values) && ValuesAre(next, order[1..], scores, values)
  {
    assert order == [order[0]] + order[1..];
    assert order[0] in order;
    forall x | x in order && x != order[0]
      ensures x in s.pending && s.pending[x] > s.accepted + 1
    {
      var i :| 0 <= i < |order| && order[i] == x;
      assert s.pending[order[i]] > s.accepted + i;
    }
  }

  // ---------------------------------------------------------------------------
  // A round in time
  // ---------------------------------------------------------------------------

  lemma RoundOpens(c: Config, beam: BeamConfig, s: State, scores: C.Scores, order: seq<nat>)
    requires RoundConfig(c, beam, |order|) && RoundStart(s, scores, order)
    ensures RoundConfig(c, beam, |s.tree.ActiveFrontier()|) && Open(s)
    ensures Distinct(order) && s.accepted + |order| <= U64_MAX && s.pending.Keys <= scores.Keys
  {
    hide WellFormed, NoOrphans, BeamPolicy, ConfigOk;
    FrontierFits(s.tree, order);
    forall b | b in s.pending ensures Deferred(s.tree, b) { assert s.tree.ActiveAt(b); }
  }

  /** Whatever the order of the events, a full round in time leaves exactly the top-scored branches. */
  lemma TimelyRoundKeepsTop(c: Config, beam: BeamConfig, s: State, scores: C.Scores, order: seq<nat>)
    requires RoundConfig(c, beam, |order|) && RoundStart(s, scores, order) && InTime(s, order)
    ensures WellFormed(s.tree) && ConfigOk(c) && forall k :: 0 <= k < |order| ==> order[k] in scores
    ensures FeedScores(c, s, order, scores).Ok?
    ensures forall b: nat :: FeedScores(c, s, order, scores).value.tree.ActiveAt(b) <==> C.IsTop(scores, b)
  {
    hide WellFormed, ConfigOk, Open, Standing, InTime, RoundConfig, RoundStart, FeedScores, C.IsTop, ValuesAre, Left, Distinct;
    RoundScores(c, beam, s, scores, order);
    RoundOpens(c, beam, s, scores, order);
    AllAwaited(s, scores, order);
    FeedPrefix(c, beam, s, order, scores, scores, scores.Keys);
    TopIsBest(FeedScores(c, s, order, scores).value, scores);
  }

  lemma AllAwaited(s: State, scores: C.Scores, order: seq<nat>)
    requires RoundStart(s, scores, order) && InTime(s, order)
    ensures Standing(s, scores, scores.Keys) && ValuesAre(s, order, scores, scores) && Left(s, order) == map[]
    ensures forall b :: b in s.pending ==> s.pending[b] > s.accepted
  {
    hide WellFormed, NoOrphans;
    forall b
      ensures b in s.pending <==> b in scores
      ensures b in s.pending ==> s.pending[b] > s.accepted
    {
      if b in scores {
        assert b in order;
        var i :| 0 <= i < |order| && order[i] == b;
      }
    }
    assert s.pending.Keys == scores.Keys;
  }

  lemma TopIsBest(s: State, scores: C.Scores)
    requires Standing(s, scores, scores.Keys) && s.pending == map[]
    ensures forall b: nat :: s.tree.ActiveAt(b) <==> C.IsTop(scores, b)
  {
    assert scores.Keys - s.pending.Keys == scores.Keys;
    forall b: nat
      ensures BestIn(scores, scores.Keys, b) <==> C.IsTop(scores, b)
    {
    }
  }

  /** A score that is taken was still awaited. */
  lemma TakenIsAwaited(c: Config, s: State, e: EngineEvent)
    requires WellFormed(s.tree) && ConfigOk(c) && e.ValueScored? && FeedEvent(c, s, e).Ok?
    ensures e.branch in s.pending
  {
    hide FinishEvent, ResolveEach, FinalizeAndReclaim;
    FeedEventForm(c, s, e);
  }

  /** A score adds nothing to what is awaited. */
  lemma ScoreWaitsLess(root: Tree, polled: seq<Command>, c: Config, s: State, e: EngineEvent)
    requires Lockstep.StepsTo(root, polled, s) && ConfigOk(c) && e.ValueScored?
    requires Waits(c, s, s.accepted, s.accepted + c.maxPendingEvents) && FeedEvent(c, s, e).Ok?
    ensures WaitsLess(s, FeedEvent(c, s, e).value)
  {
    hide Lockstep.StepsTo, Waits, WaitsLess, ProcessEvent, FeedEvent, ResolveEach, ExpiredBelow, NoOrphans;
    var until := s.accepted + c.maxPendingEvents;
    Lockstep.StepsToFacts(root, polled, s);
    Lockstep.StepsToNoOrphans(root, polled, s);
    FeedEventForm(c, s, e);
    ProcessOtherWaits(c, s, e, s.accepted, until);
    Lockstep.ProcessEventInStep(root, polled, c, s, e);
    var next := ProcessEvent(c, s, e).value;
    Lockstep.StepsToFacts(root, polled, next);
    var counted := next.(accepted := s.accepted + 1);
    CountedWaits(root, polled, c, next, counted, s.accepted, until);
    var expired := ExpiredBelow(counted, |counted.tree.nodes|);
    ResolveEachWaits(root, polled, c, counted, expired, s.accepted, until);
    SameWaitsLess(next, counted);
    WaitsLessThen(s, next, counted);
    WaitsLessThen(s, counted, ResolveEach(c, counted, expired).value);
  }

  /** With any policy, a round whose scores are all taken was in time. */
  lemma {:induction false} TakenIsInTime(root: Tree, polled: seq<Command>, c: Config, s: State, order: seq<nat>, scores: C.Scores)
    requires Lockstep.StepsTo(root, polled, s) && ConfigOk(c) && Waits(c, s, s.accepted, s.accepted + c.maxPendingEvents)
    requires forall k :: 0 <= k < |order| ==> order[k] in scores
    requires FeedScores(c, s, order, scores).Ok?
    ensures InTime(s, order)
    decreases |order|
  {
    if order != [] {
      var e := Score(scores, order[0]);
      hide FeedEvent, WellFormed, NoOrphans, Replays;
      TakenIsAwaited(c, s, e);
      FeedEventWaits(root, polled, c, s, e);
      ScoreWaitsLess(root, polled, c, s, e);
      Lockstep.FeedEventInStep(root, polled, c, s, e);
      var next := FeedEvent(c, s, e).value;
      TakenIsInTime(root, polled, c, next, order[1..], scores);
      InTimeLater(s, next, order);
    }
  }

  lemma InTimeLater(s: State, next: State, order: seq<nat>)
    requires order != [] && order[0] in s.pending && s.pending[order[0]] > s.accepted
    requires WaitsLess(s, next) && next.accepted == s.accepted + 1 && InTime(next, order[1..])
    ensures InTime(s, order)
  {
    forall i | 0 <= i < |order|
      ensures order[i] in s.pending && s.pending[order[i]] > s.accepted + i
    {
      if i > 0 { assert order[i] == order[1..][i - 1]; }
    }
  }

  /** With what is known of every reachable state, a full round is taken exactly if it is in time. */
  lemma TakenExactlyInTime(root: Tree, polled: seq<Command>, c: Config, beam: BeamConfig, s: State, scores: C.Scores, order: seq<nat>)
    requires Lockstep.StepsTo(root, polled, s) && Waits(c, s, s.accepted, s.accepted + c.maxPendingEvents)
    requires RoundConfig(c, beam, |order|) && RoundStart(s, scores, order)
    ensures WellFormed(s.tree) && ConfigOk(c) && forall k :: 0 <= k < |order| ==> order[k] in scores
    ensures FeedScores(c, s, order, scores).Ok? <==> InTime(s, order)
    ensures FeedScores(c, s, order, scores).Ok? ==>
              forall b: nat :: FeedScores(c, s, order, scores).value.tree.ActiveAt(b) <==> C.IsTop(scores, b)
  {
    hide FeedScores, InTime, Lockstep.StepsTo, Waits, RoundConfig, RoundStart, WellFormed, ConfigOk, C.IsTop;
    RoundScores(c, beam, s, scores, order);
    if FeedScores(c, s, order, scores).Ok? {
      TakenIsInTime(root, polled, c, s, order, scores);
    }
    if InTime(s, order) {
      TimelyRoundKeepsTop(c, beam, s, scores, order);
    }
  }

  lemma RoundScores(c: Config, beam: BeamConfig, s: State, scores: C.Scores, order: seq<nat>)
    requires RoundConfig(c, beam, |order|) && RoundStart(s, scores, order)
    ensures WellFormed(s.tree) && ConfigOk(c) && c.scorer.None?
    ensures forall k :: 0 <= k < |order| ==> order[k] in scores && s.tree.ActiveAt(order[k])
  {
    forall k | 0 <= k < |order| ensures order[k] in scores && s.tree.ActiveAt(order[k]) { assert order[k] in order; }
  }

  lemma RunWaits(c: Config, r: Run)
    requires RunInvariant(c, r)
    ensures Lockstep.StepsTo(FreshTree(r.s.tree.cap), r.polled, r.s)
    ensures Waits(c, r.s, r.s.accepted, r.s.accepted + c.maxPendingEvents)
  {
  }

  /** The score number k is the first that is not in time. */
  ghost predicate FirstLate(s: State, order: seq<nat>, k: nat) {
    && k < |order|
    && InTime(s, order[..k])
    && !(order[k] in s.pending && s.pending[order[k]] > s.accepted + k)
  }

  lemma {:induction false} SomeFirstLate(s: State, order: seq<nat>, n: nat) returns (k: nat)
    requires n <= |order| && !InTime(s, order[..n])
    ensures k < n && FirstLate(s, order, k)
  {
    assert order[..n][..n - 1] == order[..n - 1];
    if InTime(s, order[..n - 1]) {
      k := n - 1;
      forall i | 0 <= i < n - 1
        ensures order[..n][i] in s.pending && s.pending[order[..n][i]] > s.accepted + i
      {
        assert order[..n - 1][i] == order[..n][i];
      }
    } else {
      k := SomeFirstLate(s, order, n - 1);
    }
  }

  /** In every reachable state, a full round is taken exactly if it is in time; and whatever the order of the
      events, it then leaves exactly the top-scored branches. Otherwise some score is the first that is late. */
  lemma RoundKeepsTop(c: Config, beam: BeamConfig, r: Run, scores: C.Scores, order: seq<nat>)
    requires RunInvariant(c, r) && RoundConfig(c, beam, |order|) && RoundStart(r.s, scores, order)
    ensures WellFormed(r.s.tree) && ConfigOk(c) && forall k :: 0 <= k < |order| ==> order[k] in scores
    ensures FeedScores(c, r.s, order, scores).Ok? <==> InTime(r.s, order)
    ensures FeedScores(c, r.s, order, scores).Ok? ==>
              forall b: nat :: FeedScores(c, r.s, order, scores).value.tree.ActiveAt(b) <==> C.IsTop(scores, b)
    ensures FeedScores(c, r.s, order, scores).Err? ==> exists k :: FirstLate(r.s, order, k)
  {
    hide FeedScores, InTime, FirstLate, Lockstep.StepsTo, Waits, RunInvariant, RoundConfig, RoundStart, WellFormed, ConfigOk, C.IsTop;
    RunWaits(c, r);
    TakenExactlyInTime(FreshTree(r.s.tree.cap), r.polled, c, beam, r.s, scores, order);
    if !InTime(r.s, order) {
      assert order[..|order|] == order;
      var k := SomeFirstLate(r.s, order, |order|);
    }
  }

  // ---------------------------------------------------------------------------
  // A round that is late
  // ---------------------------------------------------------------------------

  /** What each branch has been answered with when the first k scores are in: those by their scores, the others
      awaited at the start by their logprobs, and the rest as before. */
  ghost function Effective(s: State, scores: C.Scores, order: seq<nat>, k: nat): C.Scores
    requires k <= |order|
  {
    map b | b in scores && b < |s.tree.nodes| ::
      if b in order[..k] then scores[b] else if b in s.pending then s.tree.nodes[b].logprob else s.tree.nodes[b].value
  }

  /** Whoever is not awaited at the start has a value that no other one beats. */
  ghost predicate Unbeaten(s: State) {
    && (forall b: nat :: s.tree.ActiveAt(b) && b !in s.pending ==> s.tree.nodes[b].hasValue)
    && forall b: nat :: !IsVictim(s.tree, 0.0, b)
  }

  lemma {:induction false} FeedScoresThen(c: Config, s: State, first: seq<nat>, rest: seq<nat>, scores: C.Scores)
    requires WellFormed(s.tree) && ConfigOk(c) && forall k :: 0 <= k < |first + rest| ==> (first + rest)[k] in scores
    requires forall k :: 0 <= k < |first| ==> first[k] in scores
    requires forall k :: 0 <= k < |rest| ==> rest[k] in scores
    requires FeedScores(c, s, first, scores).Ok?
    ensures FeedScores(c, s, first + rest, scores) == FeedScores(c, FeedScores(c, s, first, scores).value, rest, scores)
    decreases |first|
  {
    hide FeedEvent, WellFormed;
    if first == [] {
      assert first + rest == rest;
    } else {
      assert (first + rest)[1..] == first[1..] + rest;
      FeedScoresThen(c, FeedEvent(c, s, Score(scores, first[0])).value, first[1..], rest, scores);
    }
  }

  /** A score for a branch that nobody awaits any more. */
  lemma LateScoreIsRefused(c: Config, s: State, b: nat, value: real)
    requires WellFormed(s.tree) && ConfigOk(c) && c.scorer.None? && b < |s.tree.nodes| && b !in s.pending && s.accepted + 1 <= U64_MAX
    ensures FeedEvent(c, s, ValueFor(b, value)) == Err(if s.tree.LiveAt(b) then UnexpectedValueScore(b) else BranchNotActive(b))
  {
    assert NodeOk(s.tree, b);
    hide WellFormed, FinishEvent, ResolveEach;
  }

  lemma StandingAtStart(s: State, scores: C.Scores, order: seq<nat>, k: nat)
    requires RoundStart(s, scores, order) && Unbeaten(s) && k <= |order|
    requires forall j :: 0 <= j < k ==> order[j] in s.pending
    ensures Standing(s, Effective(s, scores, order, k), scores.Keys)
  {
    hide WellFormed, NoOrphans;
    var values := Effective(s, scores, order, k);
    forall b | b in scores ensures b < |s.tree.nodes| { assert s.tree.ActiveAt(b); }
    assert values.Keys == scores.Keys;
    forall b: nat | b in scores && b !in s.pending
      ensures values[b] == s.tree.nodes[b].value && BestIn(values, scores.Keys - s.pending.Keys, b)
    {
      assert s.tree.ActiveAt(b) && !IsVictim(s.tree, 0.0, b);
      forall o | o in scores.Keys - s.pending.Keys
        ensures values[o] <= values[b]
      {
        assert s.tree.ActiveAt(o);
      }
    }
  }

  lemma EffectiveValues(s: State, scores: C.Scores, order: seq<nat>, k: nat)
    requires RoundStart(s, scores, order) && k <= |order|
    ensures ValuesAre(s, order[..k], scores, Effective(s, scores, order, k))
  {
    hide WellFormed, NoOrphans;
    forall b | b in scores ensures b < |s.tree.nodes| { assert s.tree.ActiveAt(b); }
    forall b | b in order[..k] ensures b in scores { assert b in order; }
  }

  /** A round with a late score stops there: every score before it is taken, and it is refused, as unexpected if its
      branch lives on with its logprob for a score, as dead if that was beaten. Those still awaited are active then,
      and of the answered ones exactly the best, by what each was answered with. */
  lemma RoundStops(c: Config, beam: BeamConfig, r: Run, scores: C.Scores, order: seq<nat>, k: nat)
    requires RunInvariant(c, r) && RoundConfig(c, beam, |order|) && RoundStart(r.s, scores, order) && FirstLate(r.s, order, k)
    ensures WellFormed(r.s.tree) && ConfigOk(c) && forall j :: 0 <= j < |order| ==> order[j] in scores
    ensures FeedScores(c, r.s, order[..k], scores).Ok?
    ensures var end := FeedScores(c, r.s, order[..k], scores).value;
            && end.pending == Left(r.s, order[..k])
            && FeedScores(c, r.s, order, scores)
               == Err(if end.tree.LiveAt(order[k]) then UnexpectedValueScore(order[k]) else BranchNotActive(order[k]))
            && (Unbeaten(r.s) ==>
                  var values := Effective(r.s, scores, order, k);
                  forall b: nat :: end.tree.ActiveAt(b) <==>
                    b in end.pending || BestIn(values, scores.Keys - end.pending.Keys, b))
  {
    hide *;
    RunWaits(c, r);
    RoundScores(c, beam, r.s, scores, order);
    DeadlinesAhead(c, r.s);
    StopsAt(c, beam, r.s, scores, order, k);
  }

  lemma DeadlinesAhead(c: Config, s: State)
    requires Waits(c, s, s.accepted, s.accepted + c.maxPendingEvents)
    ensures forall b :: b in s.pending ==> s.pending[b] > s.accepted
  {
  }

  lemma StopsAt(c: Config, beam: BeamConfig, s: State, scores: C.Scores, order: seq<nat>, k: nat)
    requires RoundConfig(c, beam, |order|) && RoundStart(s, scores, order) && FirstLate(s, order, k)
    requires forall b :: b in s.pending ==> s.pending[b] > s.accepted
    requires WellFormed(s.tree) && ConfigOk(c) && forall j :: 0 <= j < |order| ==> order[j] in scores && s.tree.ActiveAt(order[j])
    ensures FeedScores(c, s, order[..k], scores).Ok?
    ensures var end := FeedScores(c, s, order[..k], scores).value;
            && end.pending == Left(s, order[..k])
            && FeedScores(c, s, order, scores)
               == Err(if end.tree.LiveAt(order[k]) then UnexpectedValueScore(order[k]) else BranchNotActive(order[k]))
            && (Unbeaten(s) ==>
                  var values := Effective(s, scores, order, k);
                  forall b: nat :: end.tree.ActiveAt(b) <==>
                    b in end.pending || BestIn(values, scores.Keys - end.pending.Keys, b))
  {
    hide WellFormed, ConfigOk, Open, Standing, InTime, RoundConfig, RoundStart, FeedScores, FeedEvent, ValuesAre, Left, Distinct;
    hide FirstLate, Unbeaten, Effective, BestIn, SameLogprobs, ValueFor;
    PrefixFacts(c, beam, s, scores, order, k);
    var values := Effective(s, scores, order, k);
    FeedPrefix(c, beam, s, order[..k], scores, values, scores.Keys);
    var end := FeedScores(c, s, order[..k], scores).value;
    if Unbeaten(s) {
      StandingAtStart(s, scores, order, k);
      EffectiveValues(s, scores, order, k);
      StandingIsActive(end, values, scores.Keys);
    }
    SameLogprobsLength(s.tree, end.tree);
    StopRefuses(c, s, order, k, scores, end);
  }

  lemma StopRefuses(c: Config, s: State, order: seq<nat>, k: nat, scores: C.Scores, end: State)
    requires WellFormed(s.tree) && ConfigOk(c) && c.scorer.None? && FirstLate(s, order, k)
    requires forall j :: 0 <= j < |order| ==> order[j] in scores && s.tree.ActiveAt(order[j])
    requires forall j :: 0 <= j < k ==> order[..k][j] in scores
    requires FeedScores(c, s, order[..k], scores) == Ok(end) && end.pending == Left(s, order[..k])
    requires |end.tree.nodes| == |s.tree.nodes| && end.accepted + 1 <= U64_MAX
    ensures FeedScores(c, s, order, scores)
         == Err(if end.tree.LiveAt(order[k]) then UnexpectedValueScore(order[k]) else BranchNotActive(order[k]))
  {
    hide FeedScores, FeedEvent, ValueFor, WellFormed, ConfigOk, Left;
    NotLeft(s, order, k);
    AnswerIsScore(order[k], scores[order[k]]);
    LateScoreIsRefused(c, end, order[k], scores[order[k]]);
    RefusedThere(c, s, order, k, scores);
  }

  lemma PrefixFacts(c: Config, beam: BeamConfig, s: State, scores: C.Scores, order: seq<nat>, k: nat)
    requires RoundConfig(c, beam, |order|) && RoundStart(s, scores, order) && FirstLate(s, order, k)
    ensures RoundConfig(c, beam, |s.tree.ActiveFrontier()|) && Open(s) && c.scorer.None? && k < |order|
    ensures Distinct(order[..k]) && InTime(s, order[..k]) && s.accepted + k + 1 <= U64_MAX
    ensures forall j :: 0 <= j < k ==> order[j] in s.pending && order[..k][j] in scores
  {
    hide WellFormed, NoOrphans, BeamPolicy, ConfigOk, Open;
    RoundOpens(c, beam, s, scores, order);
    forall j | 0 <= j < k
      ensures order[j] in s.pending && order[j] in scores
    {
      assert order[..k][j] == order[j] && order[j] in order;
    }
  }

  lemma NotLeft(s: State, order: seq<nat>, k: nat)
    requires FirstLate(s, order, k)
    ensures order[k] !in Left(s, order[..k])
  {
  }

  lemma RefusedThere(c: Config, s: State, order: seq<nat>, k: nat, scores: C.Scores)
    requires WellFormed(s.tree) && ConfigOk(c) && k < |order| && forall j :: 0 <= j < |order| ==> order[j] in scores
    requires FeedScores(c, s, order[..k], scores).Ok?
    requires FeedEvent(c, FeedScores(c, s, order[..k], scores).value, Score(scores, order[k])).Err?
    ensures FeedScores(c, s, order, scores).Err?
    ensures FeedScores(c, s, order, scores).error
         == FeedEvent(c, FeedScores(c, s, order[..k], scores).value, Score(scores, order[k])).error
  {
    hide FeedEvent, WellFormed;
    assert order[..k] + order[k..] == order && order[k..][0] == order[k];
    FeedScoresThen(c, s, order[..k], order[k..], scores);
  }

  /** With the engine's protection of a minimum, the survivors of a round are the protected branches and
      those that scored best anyway, and there are enough of them. */
  lemma RoundKeepsEnough(c: Config, beam: BeamConfig, r: Run, raw: C.Scores, minSurvivors: nat, order: seq<nat>)
    requires minSurvivors > 0 && RunInvariant(c, r) && RoundConfig(c, beam, |order|)
    requires RoundStart(r.s, C.ProtectMinimumSurvivors(raw, minSurvivors), order)
    ensures var scores := C.ProtectMinimumSurvivors(raw, minSurvivors);
            && WellFormed(r.s.tree) && ConfigOk(c) && (forall k :: 0 <= k < |order| ==> order[k] in scores)
            && (FeedScores(c, r.s, order, scores).Ok? <==> InTime(r.s, order))
            && (FeedScores(c, r.s, order, scores).Ok? ==>
                  var end := FeedScores(c, r.s, order, scores).value.tree;
                  && (forall b: nat :: end.ActiveAt(b) <==> b in raw && (b in C.Protected(raw, minSurvivors) || C.IsTop(raw, b)))
                  && |end.ActiveFrontier()| >= Min(minSurvivors, |raw|))
  {
    var scores := C.ProtectMinimumSurvivors(raw, minSurvivors);
    RoundKeepsTop(c, beam, r, scores, order);
    if FeedScores(c, r.s, order, scores).Ok? {
      var end := FeedScores(c, r.s, order, scores).value.tree;
      hide RoundStart, RoundConfig, FeedScores, WellFormed, RunInvariant, C.Protected, C.ProtectMinimumSurvivors;
      forall b: nat
        ensures end.ActiveAt(b) <==> b in raw && (b in C.Protected(raw, minSurvivors) || C.IsTop(raw, b))
      {
        if b in raw { C.TopAfterProtection(raw, minSurvivors, b); }
      }
      C.EnoughSurvive(raw, minSurvivors);
      CountActive(end, C.Top(scores));
    }
  }

  lemma CountActive(t: Tree, top: set<nat>)
    requires forall b: nat :: t.ActiveAt(b) <==> b in top
    ensures |t.ActiveFrontier()| == |top|
  {
    FrontierDistinct(t);
    DistinctCount(t.ActiveFrontier());
    assert Elements(t.ActiveFrontier()) == top;
  }
}
