/** Answering one awaited branch under a wide beam with kill margin zero, by a score of the engine or by its logprob
    when the deadline has passed (scheduler/src/scheduler.rs). */
module Answers {
  import opened Common
  import opened Arena
  import opened Commands
  import opened CommandStream
  import opened Lifecycle
  import opened Policies
  import opened Scheduler
  import opened Waiting
  import C = Consensus

  /** External scores, margin zero, and a beam wide enough for the whole frontier. */
  ghost predicate RoundConfig(c: Config, beam: BeamConfig, live: nat) {
    && ConfigOk(c)
    && c.scorer.None?
    && c.margin == Some(0.0)
    && c.policy == BeamPolicy(beam)
    && live <= beam.width
  }

  /** No budget terminal is deferred, and whoever is awaited is active and unscored. */
  ghost predicate Open(s: State) {
    && WellFormed(s.tree)
    && NoOrphans(s.tree)
    && s.terminals == map[]
    && forall b :: b in s.pending ==> Deferred(s.tree, b)
  }

  /** Nothing answered so far beats b. */
  ghost predicate BestIn(values: C.Scores, answered: set<nat>, b: nat) {
    && b in answered && b in values
    && forall o :: o in answered && o in values ==> values[o] <= values[b]
  }

  /** The active branches are the awaited ones and the best of those answered, each with the value it was answered
      with. */
  ghost predicate Standing(s: State, values: C.Scores, all: set<nat>) {
    && s.pending.Keys <= all <= values.Keys
    && (forall b: nat :: s.tree.ActiveAt(b) <==> b in s.pending || BestIn(values, all - s.pending.Keys, b))
    && (forall b: nat :: s.tree.ActiveAt(b) && b !in s.pending ==> s.tree.nodes[b].hasValue && s.tree.nodes[b].value == values[b])
  }

  ghost predicate SameLogprobs(a: Tree, b: Tree) {
    |a.nodes| == |b.nodes| && forall i :: 0 <= i < |a.nodes| ==> b.nodes[i].logprob == a.nodes[i].logprob
  }

  // ---------------------------------------------------------------------------
  // The policy's part
  // ---------------------------------------------------------------------------

  lemma {:induction false} NothingTerminated(commands: seq<Command>)
    requires forall c :: c in commands ==> c.ForkAt? || c.Continue?
    ensures TerminatedBy(commands) == []
  {
    if commands != [] {
      assert commands[0] in commands;
      NothingTerminated(commands[1..]);
    }
  }

  /** Commands that rebuild the tree and end nobody pass the check and leave nothing to reclaim. */
  lemma QuietCommandsPass(before: Tree, after: Tree, commands: seq<Command>)
    requires Replays(before, commands, after) && WellFormed(after) && TerminatedBy(commands) == []
    ensures ValidatePolicyCommands(before, after, commands).Ok?
    ensures ReclaimEach(after, TerminatedBy(commands)) == Effect(after, [])
  {
  }

  /** A beam that is wide enough only continues. */
  lemma WideBeamContinues(width: nat, t: Tree)
    requires WellFormed(t) && |t.ActiveFrontier()| <= width
    ensures BeamPruneAndContinue(width, t) == Ok(Effect(t, BeamContinues(t)))
    ensures Honours(t, t, BeamContinues(t)) && TerminatedBy(BeamContinues(t)) == []
  {
    assert BeamVictims(width, t) == [];
    assert [] + BeamContinues(t) == BeamContinues(t);
    BeamContinuesHonour(t);
    NothingTerminated(BeamContinues(t));
  }

  /** What a score event does to the state once its value is in and the frontier is pruned: only queueing. */
  lemma PolicyOnlyContinues(c: Config, beam: BeamConfig, s: State, e: EngineEvent)
    requires WellFormed(s.tree) && ConfigOk(c) && c.policy == BeamPolicy(beam) && e.ValueScored?
    requires |s.tree.ActiveFrontier()| <= beam.width
    ensures PolicyPhase(c, s, e).Ok?
    ensures var d := PolicyPhase(c, s, e).value;
            d.s == s.(calls := s.calls + 1, adaptivePending := s.adaptivePending - {e.branch})
  {
    hide WellFormed, BeamContinues, BeamPruneAndContinue, PolicyCommands, ValidatePolicyCommands, ReclaimEach, KeepsCounts;
    WideBeamContinues(beam.width, s.tree);
    var s1 := s.(adaptivePending := s.adaptivePending - {e.branch});
    var followup := e.branch in s.adaptivePending;
    BeamAnswers(c, beam, s1, e, followup);
    QuietCommandsPass(s.tree, s.tree, BeamContinues(s.tree));
  }

  lemma BeamAnswers(c: Config, beam: BeamConfig, s: State, e: EngineEvent, followup: bool)
    requires WellFormed(s.tree) && ConfigOk(c) && c.policy == BeamPolicy(beam) && e.ValueScored?
    requires BeamPruneAndContinue(beam.width, s.tree) == Ok(Effect(s.tree, BeamContinues(s.tree)))
    ensures PolicyCommands(c, s, e, followup) == Ok(Decision(s.(calls := s.calls + 1), BeamContinues(s.tree)))
  {
    hide BeamPruneAndContinue, BeamContinues, WellFormed;
    assert [] + BeamContinues(s.tree) == BeamContinues(s.tree);
  }

  // ---------------------------------------------------------------------------
  // One answer
  // ---------------------------------------------------------------------------

  function Recorded(s: State, b: nat, value: real): State
    requires s.tree.ActiveAt(b)
  {
    s.(tree := s.tree.(nodes := s.tree.nodes[b := s.tree.nodes[b].(value := value, hasValue := true)]),
       pending := s.pending - {b})
  }

  function ValueFor(b: nat, value: real): EngineEvent {
    ValueScored(Finite(value), b)
  }

  /** The value is recorded and nothing else happens in the first half of the event. */
  lemma AnswerIsRecorded(c: Config, s: State, b: nat, value: real)
    requires Open(s) && b in s.pending && c.scorer.None?
    ensures s.tree.ActiveAt(b) && CheckEvent(c, s, ValueFor(b, value)).Ok?
    ensures ApplyEvent(c, s, ValueFor(b, value)) == Ok(Phase(Recorded(s, b, value), [], false))
    ensures WellFormed(Recorded(s, b, value).tree) && NoOrphans(Recorded(s, b, value).tree)
  {
    assert Deferred(s.tree, b) && NodeOk(s.tree, b);
    SameStructureWellFormed(s.tree, Recorded(s, b, value).tree);
    assert s.terminals - {b} == map[];
  }

  /** The frontier is no larger than the round. */
  lemma FrontierFits(t: Tree, all: seq<nat>)
    requires Distinct(all) && forall b: nat :: t.ActiveAt(b) ==> b in all
    ensures |t.ActiveFrontier()| <= |all|
  {
    FrontierDistinct(t);
    DistinctCount(t.ActiveFrontier());
    DistinctCount(all);
    C.SubsetCount(Elements(t.ActiveFrontier()), Elements(all));
  }

  /** The state an answer leads to, before the event is counted. */
  ghost predicate Answered(s: State, b: nat, value: real, r: State)
    requires s.tree.ActiveAt(b)
  {
    var recorded := Recorded(s, b, value);
    && WellFormed(r.tree) && NoOrphans(r.tree)
    && OnlyEnds(recorded.tree, r.tree)
    && (forall i: nat :: r.tree.ActiveAt(i) <==> recorded.tree.ActiveAt(i) && !IsVictim(recorded.tree, 0.0, i))
    && r.pending == (map x | x in recorded.pending && r.tree.LiveAt(x) :: recorded.pending[x])
    && r.terminals == map[]
    && r.accepted == s.accepted
  }

  lemma AnswerFinishes(c: Config, beam: BeamConfig, s: State, b: nat, value: real)
    requires RoundConfig(c, beam, |s.tree.ActiveFrontier()|) && Open(s) && b in s.pending
    ensures s.tree.ActiveAt(b)
    ensures ProcessEvent(c, s, ValueFor(b, value)).Ok? && Answered(s, b, value, ProcessEvent(c, s, ValueFor(b, value)).value)
  {
    hide WellFormed, NoOrphans, IsVictim, BeamPolicy, SpeculativePrune, EndsBy, Answered, Recorded, Open;
    hide ApplyEvent, CheckEvent, FinishEvent;
    AnswerIsRecorded(c, s, b, value);
    RecordedFields(s, b, value);
    var r := Recorded(s, b, value);
    SpeculativePruneSpec(r.tree, c.margin);
    var pruned := SpeculativePrune(r.tree, c.margin).value;
    EndsByFacts(r.tree, pruned);
    NoMoreActive(s.tree, pruned.tree);
    FinishAnswer(c, beam, r, ValueFor(b, value), pruned);
    AnsweredWhole(s, b, value, pruned.tree, FinishEvent(c, Phase(r, [], false), ValueFor(b, value)).value);
  }

  lemma RecordedFields(s: State, b: nat, value: real)
    requires Open(s) && s.tree.ActiveAt(b)
    ensures var r := Recorded(s, b, value);
            && r.terminals == map[] && r.accepted == s.accepted
            && forall i: nat :: r.tree.ActiveAt(i) <==> s.tree.ActiveAt(i)
  {
  }

  lemma EndsByFacts(a: Tree, e: Effect)
    requires EndsBy(a, e)
    ensures WellFormed(e.tree) && OnlyEnds(a, e.tree)
  {
  }

  lemma AnsweredWhole(s: State, b: nat, value: real, pruned: Tree, q: State)
    requires s.tree.ActiveAt(b) && WellFormed(pruned) && NoOrphans(pruned) && OnlyEnds(Recorded(s, b, value).tree, pruned)
    requires forall i: nat :: pruned.ActiveAt(i) <==>
               Recorded(s, b, value).tree.ActiveAt(i) && !IsVictim(Recorded(s, b, value).tree, 0.0, i)
    requires var r := Recorded(s, b, value);
             && q.tree == pruned && q.terminals == map[] && q.accepted == s.accepted
             && q.pending == map x | x in r.pending && r.tree.LiveAt(x) && pruned.LiveAt(x) :: r.pending[x]
    ensures Answered(s, b, value, q)
  {
    hide WellFormed, NoOrphans, IsVictim, Recorded;
    EndsKeepLive(Recorded(s, b, value).tree, pruned);
  }

  lemma NoMoreActive(a: Tree, b: Tree)
    requires forall i: nat :: b.ActiveAt(i) ==> a.ActiveAt(i)
    ensures |b.ActiveFrontier()| <= |a.ActiveFrontier()|
  {
    FrontierDistinct(a);
    FrontierFits(b, a.ActiveFrontier());
  }

  lemma EndsKeepLive(a: Tree, b: Tree)
    requires OnlyEnds(a, b)
    ensures forall x: nat :: b.LiveAt(x) ==> a.LiveAt(x)
  {
  }

  /** From the recorded value through pruning, the policy and the queue. */
  lemma FinishAnswer(c: Config, beam: BeamConfig, r: State, e: EngineEvent, pruned: Effect)
    requires ConfigOk(c) && c.policy == BeamPolicy(beam) && e.ValueScored?
    requires WellFormed(r.tree) && r.terminals == map[] && WellFormed(pruned.tree)
    requires SpeculativePrune(r.tree, c.margin) == Ok(pruned) && |pruned.tree.ActiveFrontier()| <= beam.width
    ensures FinishEvent(c, Phase(r, [], false), e).Ok?
    ensures var q := FinishEvent(c, Phase(r, [], false), e).value;
            && q.tree == pruned.tree && q.terminals == map[] && q.accepted == r.accepted
            && q.pending == map x | x in r.pending && r.tree.LiveAt(x) && pruned.tree.LiveAt(x) :: r.pending[x]
  {
    hide WellFormed, BeamPolicy, PolicyPhase, SpeculativePrune, Enqueue;
    var s1 := RetainLive(r);
    var s2 := s1.(tree := pruned.tree);
    assert s2.terminals == map[];
    PolicyOnlyContinues(c, beam, s2, e);
    var d := PolicyPhase(c, s2, e).value;
    EnqueueKeepsTree(RetainLive(d.s), [] + pruned.commands + d.commands);
    assert RetainLive(d.s).terminals == map[];
  }

  lemma AwaitedSurvives(s: State, b: nat, value: real, r: State, x: nat)
    requires Open(s) && s.tree.ActiveAt(b) && Answered(s, b, value, r) && x in s.pending && x != b
    ensures Deferred(r.tree, x)
  {
    hide WellFormed, NoOrphans, IsVictim;
    assert Deferred(s.tree, x);
    UnscoredIsNoVictim(Recorded(s, b, value).tree, x);
  }

  lemma AnsweredFields(s: State, b: nat, value: real, r: State)
    requires s.tree.ActiveAt(b) && Answered(s, b, value, r)
    ensures WellFormed(r.tree) && NoOrphans(r.tree) && r.terminals == map[] && r.accepted == s.accepted
    ensures forall x :: x in r.pending <==> x in s.pending && x != b && r.tree.LiveAt(x)
    ensures forall x :: x in r.pending ==> r.pending[x] == s.pending[x]
    ensures forall i: nat :: r.tree.ActiveAt(i) ==> s.tree.ActiveAt(i)
  {
    hide WellFormed, NoOrphans, IsVictim, OnlyEnds;
  }

  lemma AnsweredLogprobs(s: State, b: nat, value: real, r: State)
    requires s.tree.ActiveAt(b) && Answered(s, b, value, r)
    ensures SameLogprobs(s.tree, r.tree)
  {
    hide WellFormed, NoOrphans, IsVictim;
  }

  /** Whoever else was awaited still is, with its deadline. */
  lemma AnswerLeavesOpen(s: State, b: nat, value: real, r: State)
    requires Open(s) && b in s.pending && s.tree.ActiveAt(b) && Answered(s, b, value, r)
    ensures Open(r) && r.pending == s.pending - {b} && SameLogprobs(s.tree, r.tree)
    ensures |r.tree.ActiveFrontier()| <= |s.tree.ActiveFrontier()|
  {
    hide WellFormed, NoOrphans, Answered, SameLogprobs, Recorded, Deferred, Open;
    AnsweredFields(s, b, value, r);
    AnsweredLogprobs(s, b, value, r);
    forall x | x in s.pending && x != b
      ensures Deferred(r.tree, x)
    {
      AwaitedSurvives(s, b, value, r, x);
    }
    NoMoreActive(s.tree, r.tree);
    OpenAgain(s, b, r);
  }

  lemma OpenAgain(s: State, b: nat, r: State)
    requires WellFormed(r.tree) && NoOrphans(r.tree) && r.terminals == map[]
    requires forall x :: x in s.pending && x != b ==> Deferred(r.tree, x)
    requires forall x :: x in r.pending <==> x in s.pending && x != b && r.tree.LiveAt(x)
    requires forall x :: x in r.pending ==> r.pending[x] == s.pending[x]
    ensures Open(r) && r.pending == s.pending - {b}
  {
    hide WellFormed, NoOrphans;
    forall x | x in s.pending && x != b ensures r.tree.LiveAt(x) { assert Deferred(r.tree, x); }
  }

  lemma UnscoredIsNoVictim(t: Tree, x: nat)
    requires Deferred(t, x)
    ensures !IsVictim(t, 0.0, x)
  {
  }

  lemma {:induction false} BestExists(values: C.Scores, answered: set<nat>)
    requires answered != {} && answered <= values.Keys
    ensures exists b :: BestIn(values, answered, b)
    decreases |answered|
  {
    var x :| x in answered;
    var rest := answered - {x};
    if rest == {} {
      assert answered == {x};
      assert BestIn(values, answered, x);
    } else {
      BestExists(values, rest);
      var b :| BestIn(values, rest, b);
      assert answered == rest + {x};
      assert BestIn(values, answered, if values[x] > values[b] then x else b);
    }
  }

  /** Among the best so far and the newcomer, those that trail nobody are the best with the newcomer. */
  lemma BestWithNext(values: C.Scores, answered: set<nat>, x: nat, b: nat)
    requires x in values && answered <= values.Keys
    ensures BestIn(values, answered + {x}, b) <==>
              && (b == x || BestIn(values, answered, b))
              && !(exists j: nat :: (j == x || BestIn(values, answered, j)) && j in values && b in values && values[j] - values[b] > 0.0)
  {
    if answered != {} {
      BestExists(values, answered);
      var top :| BestIn(values, answered, top);
      if (b == x || BestIn(values, answered, b)) && values[top] <= values[b] && values[x] <= values[b] {
        assert BestIn(values, answered + {x}, b);
      }
    }
  }

  /** The scored branches once the value is recorded. */
  lemma RecordedScores(s: State, values: C.Scores, all: set<nat>, b: nat)
    requires Open(s) && Standing(s, values, all) && b in s.pending && s.tree.ActiveAt(b)
    ensures ScoredAre(Recorded(s, b, values[b]).tree, values, all - s.pending.Keys, b)
  {
    hide WellFormed, NoOrphans;
    var r, answered := Recorded(s, b, values[b]), all - s.pending.Keys;
    forall j: nat
      ensures r.tree.ActiveAt(j) && r.tree.nodes[j].hasValue <==> j == b || BestIn(values, answered, j)
    {
      if j in s.pending { assert Deferred(s.tree, j); }
    }
  }

  /** In terms of values: the scored active branches, and who of them trails another. */
  ghost predicate ScoredAre(t: Tree, values: C.Scores, answered: set<nat>, b: nat) {
    forall j: nat ::
      && (t.ActiveAt(j) && t.nodes[j].hasValue <==> j == b || BestIn(values, answered, j))
      && (t.ActiveAt(j) && t.nodes[j].hasValue ==> j in values && t.nodes[j].value == values[j])
  }

  lemma VictimsByValue(t: Tree, values: C.Scores, answered: set<nat>, b: nat, i: nat)
    requires b in values && answered <= values.Keys && ScoredAre(t, values, answered, b)
    requires i == b || BestIn(values, answered, i)
    ensures i in values
    ensures IsVictim(t, 0.0, i) <==> exists j: nat :: (j == b || BestIn(values, answered, j)) && j in values && values[j] - values[i] > 0.0
  {
    assert t.ActiveAt(i) && t.nodes[i].hasValue && t.nodes[i].value == values[i];
    if IsVictim(t, 0.0, i) {
      var j: nat :| t.ActiveAt(j) && t.nodes[j].hasValue && t.nodes[j].value - t.nodes[i].value > 0.0;
      assert (j == b || BestIn(values, answered, j)) && values[j] - values[i] > 0.0;
    }
    if j: nat :| (j == b || BestIn(values, answered, j)) && j in values && values[j] - values[i] > 0.0 {
      assert t.ActiveAt(j) && t.nodes[j].hasValue && t.nodes[j].value - t.nodes[i].value > 0.0;
    }
  }

  /** Who is active after an answer. */
  lemma ActiveAfterAnswer(s: State, values: C.Scores, answered: set<nat>, b: nat, r: State, i: nat)
    requires s.tree.ActiveAt(b) && b in values && answered <= values.Keys && Answered(s, b, values[b], r)
    requires forall x :: x in s.pending ==> Deferred(s.tree, x)
    requires forall j: nat :: s.tree.ActiveAt(j) <==> j in s.pending || BestIn(values, answered, j)
    requires ScoredAre(Recorded(s, b, values[b]).tree, values, answered, b)
    requires b in s.pending && answered !! s.pending.Keys
    ensures r.tree.ActiveAt(i) <==> (i in s.pending && i != b) || BestIn(values, answered + {b}, i)
  {
    hide WellFormed, NoOrphans, OnlyEnds, BestIn, IsVictim, ScoredAre;
    BestWithNext(values, answered, b, i);
    var recorded := Recorded(s, b, values[b]);
    NotAwaitedNotBest(values, answered, s.pending.Keys, i);
    if i in s.pending && i != b {
      assert Deferred(s.tree, i);
      UnscoredIsNoVictim(recorded.tree, i);
    } else if i == b || BestIn(values, answered, i) {
      VictimsByValue(recorded.tree, values, answered, b, i);
    }
  }

  lemma NotAwaitedNotBest(values: C.Scores, answered: set<nat>, awaited: set<nat>, i: nat)
    requires answered !! awaited
    ensures i in awaited ==> !BestIn(values, answered, i)
  {
  }

  lemma AnswerLeavesStanding(s: State, values: C.Scores, all: set<nat>, b: nat, r: State)
    requires Open(s) && Standing(s, values, all) && b in s.pending && s.tree.ActiveAt(b)
    requires Answered(s, b, values[b], r)
    ensures Standing(r, values, all)
  {
    hide WellFormed, NoOrphans, OnlyEnds, BestIn, Answered, Recorded, Deferred, ScoredAre, Open, SameLogprobs;
    AnswerLeavesOpen(s, b, values[b], r);
    RecordedScores(s, values, all, b);
    ValuesStay(s, values, all, b, r);
    AwaitedAreDeferred(s);
    var answered := all - s.pending.Keys;
    assert all - r.pending.Keys == answered + {b};
    StandingIsActive(s, values, all);
    hide Standing;
    forall i: nat
      ensures r.tree.ActiveAt(i) <==> i in r.pending || BestIn(values, all - r.pending.Keys, i)
    {
      ActiveAfterAnswer(s, values, answered, b, r, i);
    }
    StandingAgain(s, values, all, r);
  }

  lemma AwaitedAreDeferred(s: State)
    requires Open(s)
    ensures forall x :: x in s.pending ==> Deferred(s.tree, x)
  {
  }

  lemma StandingIsActive(s: State, values: C.Scores, all: set<nat>)
    requires Standing(s, values, all)
    ensures forall j: nat :: s.tree.ActiveAt(j) <==> j in s.pending || BestIn(values, all - s.pending.Keys, j)
    ensures s.pending.Keys <= all <= values.Keys
  {
    hide BestIn;
  }

  lemma StandingAgain(s: State, values: C.Scores, all: set<nat>, r: State)
    requires s.pending.Keys <= all <= values.Keys && r.pending.Keys <= s.pending.Keys
    requires forall i: nat :: r.tree.ActiveAt(i) <==> i in r.pending || BestIn(values, all - r.pending.Keys, i)
    requires forall i: nat :: r.tree.ActiveAt(i) && i !in r.pending ==>
             i in values && r.tree.nodes[i].hasValue && r.tree.nodes[i].value == values[i]
    ensures Standing(r, values, all)
  {
    hide BestIn;
  }

  lemma ValuesStay(s: State, values: C.Scores, all: set<nat>, b: nat, r: State)
    requires Standing(s, values, all) && b in s.pending && s.tree.ActiveAt(b) && Answered(s, b, values[b], r)
    requires r.pending == s.pending - {b}
    ensures forall i: nat :: r.tree.ActiveAt(i) && i !in r.pending ==>
            i in values && r.tree.nodes[i].hasValue && r.tree.nodes[i].value == values[i]
  {
    hide WellFormed, NoOrphans, IsVictim;
  }

  lemma {:induction false} NoneExpired(s: State, n: nat)
    requires forall b :: b in s.pending ==> s.pending[b] > s.accepted
    ensures ExpiredBelow(s, n) == []
  {
    if n > 0 { NoneExpired(s, n - 1); }
  }

  /** Counting the event expires nobody, since everyone still waiting is in time. */
  lemma NobodyExpires(c: Config, s: State)
    requires WellFormed(s.tree) && ConfigOk(c) && forall b :: b in s.pending ==> s.pending[b] > s.accepted
    ensures ResolveEach(c, s, ExpiredBelow(s, |s.tree.nodes|)) == Ok(s)
  {
    NoneExpired(s, |s.tree.nodes|);
  }

  // ---------------------------------------------------------------------------
  // One event of the engine, and the answers that fall due with it
  // ---------------------------------------------------------------------------

  /** One answer, with what it leaves. */
  lemma AnswerStep(c: Config, beam: BeamConfig, s: State, b: nat, value: real, values: C.Scores, all: set<nat>)
    requires RoundConfig(c, beam, |s.tree.ActiveFrontier()|) && Open(s) && b in s.pending
    ensures WellFormed(s.tree) && ConfigOk(c) && ProcessEvent(c, s, ValueFor(b, value)).Ok?
    ensures var r := ProcessEvent(c, s, ValueFor(b, value)).value;
            && Open(r) && r.pending == s.pending - {b} && r.accepted == s.accepted && SameLogprobs(s.tree, r.tree)
            && RoundConfig(c, beam, |r.tree.ActiveFrontier()|)
            && (Standing(s, values, all) && values[b] == value ==> Standing(r, values, all))
  {
    OpenIsWellFormed(c, beam, s);
    hide WellFormed, NoOrphans, Answered, Open, Standing, SameLogprobs, BeamPolicy, ProcessEvent, ConfigOk;
    AnswerFinishes(c, beam, s, b, value);
    var r := ProcessEvent(c, s, ValueFor(b, value)).value;
    AnsweredFields(s, b, value, r);
    AnswerLeavesOpen(s, b, value, r);
    if Standing(s, values, all) && values[b] == value { AnswerLeavesStanding(s, values, all, b, r); }
  }

  lemma OpenIsWellFormed(c: Config, beam: BeamConfig, s: State)
    requires RoundConfig(c, beam, |s.tree.ActiveFrontier()|) && Open(s)
    ensures WellFormed(s.tree) && ConfigOk(c)
    ensures forall b :: b in s.pending ==> s.tree.Has(b)
  {
    forall b | b in s.pending ensures s.tree.Has(b) { assert Deferred(s.tree, b) && NodeOk(s.tree, b); }
  }

  lemma {:induction false} ExpiredAscend(s: State, n: nat)
    ensures Distinct(ExpiredBelow(s, n))
    ensures forall b :: b in ExpiredBelow(s, n) ==> b in s.pending
  {
    if n > 0 {
      ExpiredAscend(s, n - 1);
      var rest := ExpiredBelow(s, n - 1);
      forall k | 0 <= k < |rest| ensures rest[k] != n - 1 { assert rest[k] in rest; }
    }
  }

  /** The late branches are answered with their logprobs, one after the other. */
  lemma {:induction false} AnswerLate(c: Config, beam: BeamConfig, s: State, expired: seq<nat>, values: C.Scores, all: set<nat>)
    requires RoundConfig(c, beam, |s.tree.ActiveFrontier()|) && Open(s) && Distinct(expired)
    requires forall b :: b in expired ==> b in s.pending && b < |s.tree.nodes|
    ensures WellFormed(s.tree) && ConfigOk(c) && ResolveEach(c, s, expired).Ok?
    ensures var r := ResolveEach(c, s, expired).value;
            && Open(r) && r.pending == s.pending - Elements(expired) && r.accepted == s.accepted
            && SameLogprobs(s.tree, r.tree) && RoundConfig(c, beam, |r.tree.ActiveFrontier()|)
            && (Standing(s, values, all) && LogprobsAre(s.tree, values, expired) ==> Standing(r, values, all))
    decreases |expired|
  {
    hide WellFormed, Open, Standing, ProcessEvent, RoundConfig, ValueFor, ConfigOk, SameLogprobs, LogprobsAre;
    OpenIsWellFormed(c, beam, s);
    if expired == [] {
      assert s.pending - Elements(expired) == s.pending;
      SameLogprobsRefl(s.tree);
    } else {
      var b := expired[0];
      assert b in expired;
      var value := s.tree.nodes[b].logprob;
      FirstAndRest(expired);
      AnswerStep(c, beam, s, b, value, values, all);
      AnswerIsScore(b, value);
      var next := ProcessEvent(c, s, ValueFor(b, value)).value;
      SameLogprobsLength(s.tree, next.tree);
      AnswerLate(c, beam, next, expired[1..], values, all);
      var r := ResolveEach(c, next, expired[1..]).value;
      SameLogprobsThen(s.tree, next.tree, r.tree);
      assert s.pending - {b} - Elements(expired[1..]) == s.pending - Elements(expired);
      if LogprobsAre(s.tree, values, expired) { LogprobsRest(s.tree, next.tree, values, expired); }
    }
  }

  ghost predicate LogprobsAre(t: Tree, values: C.Scores, ids: seq<nat>) {
    forall k :: 0 <= k < |ids| ==> ids[k] < |t.nodes| && ids[k] in values && values[ids[k]] == t.nodes[ids[k]].logprob
  }

  lemma LogprobsRest(t: Tree, next: Tree, values: C.Scores, ids: seq<nat>)
    requires ids != [] && LogprobsAre(t, values, ids) && SameLogprobs(t, next)
    ensures ids[0] in values && ids[0] < |t.nodes| && values[ids[0]] == t.nodes[ids[0]].logprob
    ensures LogprobsAre(next, values, ids[1..])
  {
  }

  lemma AnswerIsScore(b: nat, value: real)
    ensures ValueFor(b, value) == ValueScored(Finite(value), b)
  {
  }

  lemma FirstAndRest(ids: seq<nat>)
    requires ids != [] && Distinct(ids)
    ensures Distinct(ids[1..]) && ids[0] !in ids[1..] && Elements(ids) == {ids[0]} + Elements(ids[1..])
    ensures forall b :: b in ids[1..] ==> b in ids && b != ids[0]
  {
    assert ids == [ids[0]] + ids[1..];
  }

  lemma SameLogprobsRefl(t: Tree)
    ensures SameLogprobs(t, t)
  {
  }

  lemma SameLogprobsLength(a: Tree, b: Tree)
    requires SameLogprobs(a, b)
    ensures |a.nodes| == |b.nodes|
  {
  }

  lemma SameLogprobsThen(a: Tree, b: Tree, c: Tree)
    requires SameLogprobs(a, b) && SameLogprobs(b, c)
    ensures SameLogprobs(a, c)
  {
  }

  /** Who is still awaited after the branch b is answered by the engine and the event is counted. */
  ghost function LeftAfter(s: State, b: nat): map<nat, nat> {
    map x | x in s.pending && x != b && s.pending[x] > s.accepted + 1 :: s.pending[x]
  }

  /** The engine's value for b, and the logprobs of those that become due with this event. */
  ghost predicate AnswersAre(s: State, b: nat, value: real, values: C.Scores) {
    && b in values && values[b] == value
    && forall x :: x in s.pending && x != b && s.pending[x] <= s.accepted + 1 ==>
         x < |s.tree.nodes| && x in values && values[x] == s.tree.nodes[x].logprob
  }

  /** A score of the engine, counted, with the late answers that come with it. */
  lemma FeedAnswer(c: Config, beam: BeamConfig, s: State, b: nat, value: real, values: C.Scores, all: set<nat>)
    requires RoundConfig(c, beam, |s.tree.ActiveFrontier()|) && Open(s) && b in s.pending && s.accepted + 1 <= U64_MAX
    ensures WellFormed(s.tree) && ConfigOk(c) && FeedEvent(c, s, ValueFor(b, value)).Ok?
    ensures var r := FeedEvent(c, s, ValueFor(b, value)).value;
            && Open(r) && r.pending == LeftAfter(s, b) && r.accepted == s.accepted + 1
            && SameLogprobs(s.tree, r.tree) && RoundConfig(c, beam, |r.tree.ActiveFrontier()|)
            && (Standing(s, values, all) && AnswersAre(s, b, value, values) ==> Standing(r, values, all))
  {
    hide WellFormed, Open, Standing, ProcessEvent, RoundConfig, ValueFor, ConfigOk, SameLogprobs, ResolveEach;
    hide ExpiredBelow, AnswersAre, LogprobsAre, LeftAfter, Distinct;
    AnswerStep(c, beam, s, b, value, values, all);
    var next := ProcessEvent(c, s, ValueFor(b, value)).value;
    var counted := next.(accepted := s.accepted + 1);
    Counted(next, counted, values, all);
    OpenIsWellFormed(c, beam, counted);
    var expired := ExpiredBelow(counted, |counted.tree.nodes|);
    ExpiredAscend(counted, |counted.tree.nodes|);
    ExpiredInTree(counted);
    AnswerLate(c, beam, counted, expired, values, all);
    var r := ResolveEach(c, counted, expired).value;
    SameLogprobsThen(s.tree, next.tree, r.tree);
    WhoIsLeft(c, beam, s, b, counted, r);
    if AnswersAre(s, b, value, values) { LateLogprobs(s, b, value, values, counted); }
  }

  lemma Counted(s: State, r: State, values: C.Scores, all: set<nat>)
    requires r == s.(accepted := r.accepted)
    ensures Open(s) ==> Open(r)
    ensures Standing(s, values, all) ==> Standing(r, values, all)
  {
    hide WellFormed, NoOrphans, BestIn;
  }

  lemma ExpiredInTree(s: State)
    ensures forall b :: b in ExpiredBelow(s, |s.tree.nodes|) ==> b < |s.tree.nodes|
  {
  }

  lemma WhoIsLeft(c: Config, beam: BeamConfig, s: State, b: nat, counted: State, r: State)
    requires Open(counted) && counted.pending == s.pending - {b} && counted.accepted == s.accepted + 1
    requires r.pending == counted.pending - Elements(ExpiredBelow(counted, |counted.tree.nodes|))
    ensures r.pending == LeftAfter(s, b)
  {
    hide WellFormed, NoOrphans;
    forall x | x in counted.pending ensures x < |counted.tree.nodes| { assert Deferred(counted.tree, x); }
  }

  lemma LateLogprobs(s: State, b: nat, value: real, values: C.Scores, counted: State)
    requires AnswersAre(s, b, value, values) && SameLogprobs(s.tree, counted.tree)
    requires counted.pending == s.pending - {b} && counted.accepted == s.accepted + 1
    ensures values[b] == value
    ensures LogprobsAre(counted.tree, values, ExpiredBelow(counted, |counted.tree.nodes|))
  {
    var expired: seq<nat> := ExpiredBelow(counted, |counted.tree.nodes|);
    forall k | 0 <= k < |expired|
      ensures expired[k] < |counted.tree.nodes| && expired[k] in values && values[expired[k]] == counted.tree.nodes[expired[k]].logprob
    {
      assert expired[k] in expired;
    }
  }
}
