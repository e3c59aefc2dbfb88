/** The values of branches through whole events: who is scored keeps its value, and no branch is left that trails by
    more than the margin (scheduler/src/scheduler.rs). */
module Values {
  import opened Common
  import opened Arena
  import opened Commands
  import opened CommandStream
  import opened Lifecycle
  import opened Termination
  import opened Scheduler
  import opened Accounts

  // ---------------------------------------------------------------------------
  // Values through an event
  // ---------------------------------------------------------------------------

  /** No ended node is active again, no old one has another value or logprob, and no new one has a value. */
  ghost predicate ValuesKept(a: Tree, b: Tree) {
    && |a.nodes| <= |b.nodes|
    && (forall i: nat :: i < |a.nodes| && b.ActiveAt(i) ==>
          && a.ActiveAt(i) && b.nodes[i].logprob == a.nodes[i].logprob
          && b.nodes[i].value == a.nodes[i].value && b.nodes[i].hasValue == a.nodes[i].hasValue)
    && forall i: nat :: |a.nodes| <= i && b.ActiveAt(i) ==> !b.nodes[i].hasValue
  }

  /** No scored active branch trails another by more than the margin, if there is one. */
  ghost predicate NoneTrails(t: Tree, margin: Option<real>) {
    margin.Some? ==> forall i: nat :: !IsVictim(t, margin.value, i)
  }

  lemma ValuesKeptThen(a: Tree, b: Tree, c: Tree)
    requires ValuesKept(a, b) && ValuesKept(b, c)
    ensures ValuesKept(a, c)
  {
  }

  lemma EndsKeepValues(a: Tree, b: Tree)
    requires OnlyEnds(a, b)
    ensures ValuesKept(a, b)
  {
  }

  lemma NoneTrailsThen(a: Tree, b: Tree, margin: Option<real>)
    requires NoneTrails(a, margin) && ValuesKept(a, b)
    ensures NoneTrails(b, margin)
  {
    if margin.Some? {
      forall i: nat | IsVictim(b, margin.value, i)
        ensures IsVictim(a, margin.value, i)
      {
        var j: nat :| b.ActiveAt(j) && b.nodes[j].hasValue && b.nodes[j].value - b.nodes[i].value > margin.value;
        assert a.ActiveAt(j) && a.ActiveAt(i);
      }
    }
  }

  /** The speculative prune takes every branch that trails. */
  lemma PruneLeavesNoneTrailing(t: Tree, margin: Option<real>)
    requires WellFormed(t) && NoOrphans(t) && (margin.Some? ==> margin.value >= 0.0)
    ensures SpeculativePrune(t, margin).Ok?
    ensures var pruned := SpeculativePrune(t, margin).value.tree;
            NoneTrails(pruned, margin) && ValuesKept(t, pruned) && NoOrphans(pruned)
  {
    hide WellFormed, NoOrphans, SpeculativePrune, Replays, ValuesKept;
    SpeculativePruneSpec(t, margin);
    var pruned := SpeculativePrune(t, margin).value.tree;
    EndsKeepValues(t, pruned);
    if margin.Some? { SurvivorsDoNotTrail(t, pruned, margin.value); }
  }

  lemma SurvivorsDoNotTrail(t: Tree, pruned: Tree, margin: real)
    requires OnlyEnds(t, pruned) && forall i: nat :: pruned.ActiveAt(i) <==> t.ActiveAt(i) && !IsVictim(t, margin, i)
    ensures NoneTrails(pruned, Some(margin))
  {
  }

  lemma {:induction false} ReplayActivatesNone(t: Tree, commands: seq<Command>)
    requires WellFormed(t) && Replay(t, commands).Ok?
    ensures var r := Replay(t, commands).value;
            |t.nodes| <= |r.nodes| && forall i: nat :: i < |t.nodes| && r.ActiveAt(i) ==> t.ActiveAt(i)
    decreases |commands|
  {
    if commands != [] {
      var next := Apply(t, commands[0]).value;
      ApplyKeepsWellFormed(t, commands[0]);
      ReplayActivatesNone(next, commands[1..]);
    }
  }

  lemma CountsKeepValues(a: Tree, commands: seq<Command>, b: Tree)
    requires WellFormed(a) && KeepsCounts(a, b) && Replays(a, commands, b)
    ensures ValuesKept(a, b)
  {
    hide WellFormed, Replay;
    ReplayActivatesNone(a, commands);
    var r := Replay(a, commands).value;
    forall i: nat | b.ActiveAt(i)
      ensures r.ActiveAt(i)
    {
      assert SameShape(r.nodes[i], b.nodes[i]);
    }
    forall i: nat | |a.nodes| <= i && b.ActiveAt(i)
      ensures !b.nodes[i].hasValue
    {
      assert InheritsParent(b, i);
    }
  }

  lemma PolicyKeepsValues(c: Config, s: State, e: EngineEvent)
    requires WellFormed(s.tree) && ConfigOk(c) && Honest(c.policy)
    requires e.TokenSampled? && e.entropy.Some? ==> e.entropy.value.Finite?
    requires PolicyPhase(c, s, e).Ok?
    ensures ValuesKept(s.tree, PolicyPhase(c, s, e).value.s.tree)
  {
    hide WellFormed, PolicyCommands, ValidatePolicyCommands, Replays, KeepsCounts, ReclaimEach, ValuesKept, Honest, OnlyEnds;
    var s1 := if e.ValueScored? then s.(adaptivePending := s.adaptivePending - {e.branch}) else s;
    var followup := e.ValueScored? && e.branch in s.adaptivePending;
    PolicyCommandsKeepCounts(c, s1, e, followup);
    var d := PolicyCommands(c, s1, e, followup).value;
    PolicyKeepsCap(c, s1, e, followup);
    ValidatedTree(s.tree, d.s.tree, d.commands);
    CountsKeepValues(s.tree, d.commands, d.s.tree);
    ReclaimEachSpec(d.s.tree, TerminatedBy(d.commands));
    var up := ReclaimEach(d.s.tree, TerminatedBy(d.commands));
    EndsKeepValues(d.s.tree, up.tree);
    ValuesKeptThen(s.tree, d.s.tree, up.tree);
  }

  lemma PolicyKeepsCap(c: Config, s: State, e: EngineEvent, followup: bool)
    requires WellFormed(s.tree) && ConfigOk(c)
    requires e.TokenSampled? && e.entropy.Some? ==> e.entropy.value.Finite?
    requires PolicyCommands(c, s, e, followup).Ok?
    ensures PolicyCommands(c, s, e, followup).value.s.tree.cap == s.tree.cap
  {
    hide WellFormed;
  }

  lemma NoneActiveNoneTrails(t: Tree, margin: Option<real>)
    requires AllTerminal(t)
    ensures NoneTrails(t, margin)
  {
    forall i: nat
      ensures !t.ActiveAt(i)
    {
      if i < |t.nodes| { assert t.TerminalAt(i); }
    }
  }

  /** The second half of an event keeps the values and leaves none that trails. */
  lemma FinishKeepsValues(c: Config, ph: Phase, e: EngineEvent)
    requires WellFormed(ph.s.tree) && NoOrphans(ph.s.tree) && ConfigOk(c) && Honest(c.policy)
    requires e.TokenSampled? ==> !e.eos && (e.entropy.Some? ==> e.entropy.value.Finite?)
    requires FinishEvent(c, ph, e).Ok?
    ensures ValuesKept(ph.s.tree, FinishEvent(c, ph, e).value.tree) && NoneTrails(FinishEvent(c, ph, e).value.tree, c.margin)
  {
    hide WellFormed, NoOrphans, TerminateTree, SpeculativePrune, PolicyPhase, AllTerminal, OnlyEnds, ValuesKept, NoneTrails, Honest;
    hide Enqueue, Wins;
    if ph.exhausted {
      TerminateTreeSpec(ph.s.tree, TreeBudgetExhausted);
      var ended := TerminateTree(ph.s.tree, TreeBudgetExhausted).value;
      var final := ph.s.(tree := ended.tree, pending := map[], terminals := map[], adaptivePending := {});
      EnqueueKeepsTree(final, ph.emitted + ended.commands);
      EndsKeepValues(ph.s.tree, ended.tree);
      NoneActiveNoneTrails(ended.tree, c.margin);
    } else {
      FinishContinuingKeepsValues(c, ph, e);
    }
  }

  lemma FinishContinuingKeepsValues(c: Config, ph: Phase, e: EngineEvent)
    requires WellFormed(ph.s.tree) && NoOrphans(ph.s.tree) && ConfigOk(c) && Honest(c.policy)
    requires e.TokenSampled? ==> !e.eos && (e.entropy.Some? ==> e.entropy.value.Finite?)
    requires !ph.exhausted && FinishEvent(c, ph, e).Ok?
    ensures ValuesKept(ph.s.tree, FinishEvent(c, ph, e).value.tree) && NoneTrails(FinishEvent(c, ph, e).value.tree, c.margin)
  {
    hide WellFormed, NoOrphans, SpeculativePrune, PolicyPhase, FinishEvent, Enqueue, ValuesKept, NoneTrails, Honest, OnlyEnds;
    var pruned, d := FinishContinuingForm(c, ph, e);
    PruneLeavesNoneTrailing(ph.s.tree, c.margin);
    var s2 := RetainLive(ph.s).(tree := pruned.tree);
    if s2.terminals == map[] {
      PolicyKeepsValues(c, s2, e);
    } else {
      SameValues(pruned.tree);
    }
    ValuesKeptThen(ph.s.tree, pruned.tree, d.s.tree);
    NoneTrailsThen(pruned.tree, d.s.tree, c.margin);
    EnqueueKeepsTree(RetainLive(d.s), ph.emitted + pruned.commands + d.commands);
  }

  lemma SameValues(t: Tree)
    ensures ValuesKept(t, t)
  {
  }
}
