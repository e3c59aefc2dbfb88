/** For which reason and in which order branches are killed (scheduler/src/scheduler.rs). */
module KillReasons {
  import opened Common
  import opened Arena
  import opened Commands
  import opened Ranking
  import opened Lifecycle
  import opened Termination
  import opened Choices
  import opened Scheduler

  ghost predicate KillsFor(commands: seq<Command>, reason: KillReason) {
    forall k :: 0 <= k < |commands| ==> commands[k].KillBranch? && commands[k].reason == reason
  }

  lemma KillsForThen(xs: seq<Command>, ys: seq<Command>, reason: KillReason)
    requires KillsFor(xs, reason) && KillsFor(ys, reason)
    ensures KillsFor(xs + ys, reason)
  {
  }

  /** A reclaimed ancestor is killed as one. */
  lemma {:induction false} ReclaimReasons(t: Tree, b: nat)
    requires WellFormed(t) && b < |t.nodes|
    ensures KillsFor(Reclaim(t, b).commands, AncestorReclaimed)
    decreases b
  {
    assert NodeOk(t, b);
    if t.nodes[b].parent.Some? {
      var p := t.nodes[b].parent.value;
      if t.nodes[p].state.IsTerminal() {
        ReclaimReasons(t, p);
      } else if t.AllChildrenTerminal(p) {
        TerminateKeepsWellFormed(t, p, Killed);
        ReclaimReasons(t.WithState(p, Killed), p);
        KillsForThen([KillBranch(p, AncestorReclaimed)], Reclaim(t.WithState(p, Killed), p).commands, AncestorReclaimed);
      }
    }
  }

  // ---------------------------------------------------------------------------
  // Speculative pruning
  // ---------------------------------------------------------------------------

  /** The victims one after the other, each followed by the ancestors that it leaves childless. */
  ghost predicate Speculative(commands: seq<Command>, victims: seq<nat>)
    decreases |victims|
  {
    if victims == [] then commands == []
    else
      && commands != [] && commands[0] == KillBranch(victims[0], SpeculativeKill)
      && exists n :: 1 <= n <= |commands| && KillsFor(commands[1..n], AncestorReclaimed) && Speculative(commands[n..], victims[1..])
  }

  lemma {:induction false} PruneEachReasons(t: Tree, victims: seq<nat>)
    requires WellFormed(t) && PruneEach(t, victims).Ok?
    ensures Speculative(PruneEach(t, victims).value.commands, victims)
    decreases |victims|
  {
    hide WellFormed;
    if victims != [] {
      KillAndReclaimWellFormed(t, victims[0], SpeculativeKill);
      KilledInTree(t, victims[0]);
      var killed := Kill(t, victims[0]).value;
      ReclaimReasons(killed, victims[0]);
      var up := Reclaim(killed, victims[0]).commands;
      var first := KillAndReclaim(t, victims[0], SpeculativeKill).value;
      PruneEachReasons(first.tree, victims[1..]);
      var rest := PruneEach(first.tree, victims[1..]).value.commands;
      var all := PruneEach(t, victims).value.commands;
      assert first.commands == [KillBranch(victims[0], SpeculativeKill)] + up;
      assert all == first.commands + rest;
      var n := |first.commands|;
      assert all[1..n] == up && all[n..] == rest;
    }
  }

  lemma KilledInTree(t: Tree, b: nat)
    requires WellFormed(t) && Kill(t, b).Ok?
    ensures WellFormed(Kill(t, b).value) && b < |Kill(t, b).value.nodes|
  {
    KillKeepsWellFormed(t, b);
  }

  /** A speculative prune kills its victims in id order as speculative kills, and each time the ancestors left childless. */
  lemma PruneReasons(t: Tree, margin: real) returns (victims: seq<nat>)
    requires WellFormed(t) && NoOrphans(t) && margin >= 0.0
    ensures SpeculativePrune(t, Some(margin)).Ok?
    ensures Ascending(victims) && forall i: nat :: i in victims <==> IsVictim(t, margin, i)
    ensures Speculative(SpeculativePrune(t, Some(margin)).value.commands, victims)
  {
    SpeculativePruneSpec(t, Some(margin));
    victims := Victims(t, margin);
    VictimsSpec(t, margin);
    VictimsAscend(t, margin);
    PruneEachReasons(t, victims);
  }

  lemma VictimsAscend(t: Tree, margin: real)
    ensures Ascending(Victims(t, margin))
  {
    var scored := Scored(t, t.ActiveFrontier());
    if scored != [] {
      ScoredDistinct(t, t.ActiveFrontier());
      TrailingDistinct(t, scored, BestScored(t, scored), margin);
      SortByIdAscends(t, Trailing(t, scored, BestScored(t, scored), margin));
    }
  }

  // ---------------------------------------------------------------------------
  // Termination
  // ---------------------------------------------------------------------------

  lemma {:induction false} KillExpandedReasons(t: Tree, ids: seq<nat>, reason: KillReason)
    requires KillExpanded(t, ids, reason).Ok?
    ensures KillsFor(KillExpanded(t, ids, reason).value.commands, reason)
    decreases |ids|
  {
    if ids != [] {
      if ids[0] < |t.nodes| && t.nodes[ids[0]].state == Expanded {
        KillExpandedReasons(Kill(t, ids[0]).value, ids[1..], reason);
      } else {
        KillExpandedReasons(t, ids[1..], reason);
      }
    }
  }

  /** The deepest nodes first, and among equally deep ones the newest. */
  ghost predicate DeepestFirst(t: Tree, ids: seq<nat>) {
    && InTree(t, ids)
    && forall i, j :: 0 <= i < j < |ids| ==>
         var x, y := t.nodes[ids[i]].depth, t.nodes[ids[j]].depth; y < x || (y == x && ids[j] < ids[i])
  }

  lemma {:induction false} ReclaimableDistinct(t: Tree, n: nat)
    requires n <= |t.nodes|
    ensures Distinct(ReclaimableBelow(t, n))
  {
    if n > 0 { ReclaimableDistinct(t, n - 1); }
  }

  lemma ReclaimableDeepestFirst(t: Tree)
    ensures DeepestFirst(t, Reclaimable(t))
  {
    ReclaimableDistinct(t, |t.nodes|);
    SortRanks(t, ByDepth, ReclaimableBelow(t, |t.nodes|));
    var ids := Reclaimable(t);
    forall i, j | 0 <= i < j < |ids|
      ensures var x, y := t.nodes[ids[i]].depth, t.nodes[ids[j]].depth; y < x || (y == x && ids[j] < ids[i])
    {
      assert Ahead(t, ByDepth, ids[i], ids[j]);
    }
  }

  /** What a list of reclaimable nodes turns into: a kill for each, in order. */
  lemma {:induction false} KillExpandedCommands(t: Tree, ids: seq<nat>, reason: KillReason)
    requires WellFormed(t) && Closable(t, ids) && Distinct(ids) && forall k :: 0 <= k < |ids| ==> t.nodes[ids[k]].state == Expanded
    ensures KillExpanded(t, ids, reason).Ok?
    ensures KillExpanded(t, ids, reason).value.commands == seq(|ids|, k requires 0 <= k < |ids| => KillBranch(ids[k], reason))
    decreases |ids|
  {
    hide WellFormed, EndsBy, KillsOnly;
    if ids != [] {
      assert ids == [ids[0]] + ids[1..];
      CloseOne(t, ids[0], reason, ids[1..]);
      KillExpandedCommands(Kill(t, ids[0]).value, ids[1..], reason);
    }
  }

  /** One round of closing kills takes every expanded node whose children are all terminal, deepest first. */
  lemma RoundCommands(t: Tree, reason: KillReason) returns (ids: seq<nat>)
    requires WellFormed(t)
    ensures DeepestFirst(t, ids) && forall i: nat :: i in ids <==> i < |t.nodes| && t.nodes[i].state == Expanded && t.AllChildrenTerminal(i)
    ensures KillExpanded(t, Reclaimable(t), reason).Ok?
    ensures KillExpanded(t, Reclaimable(t), reason).value.commands == seq(|ids|, k requires 0 <= k < |ids| => KillBranch(ids[k], reason))
  {
    ids := Reclaimable(t);
    ReclaimableDeepestFirst(t);
    forall i, j | 0 <= i < j < |ids| ensures ids[i] != ids[j] { assert ids[i] < |t.nodes|; }
    forall k | 0 <= k < |ids|
      ensures t.nodes[ids[k]].state == Expanded && t.AllChildrenTerminal(ids[k])
    {
      assert ids[k] in ids;
    }
    hide WellFormed, Reclaimable, KillExpanded;
    KillExpandedCommands(t, ids, reason);
  }

  lemma {:induction false} CloseRoundsReasons(t: Tree, reason: KillReason)
    requires WellFormed(t) && CloseRounds(t, reason).Ok?
    ensures KillsFor(CloseRounds(t, reason).value.commands, reason)
    decreases ExpandedBelow(t, |t.nodes|)
  {
    hide WellFormed, KillExpanded, Reclaimable, EndsBy, KillsOnly, KillsFor;
    NothingKilled(reason);
    if Reclaimable(t) != [] {
      RoundSpec(t, reason);
      var round := KillExpanded(t, Reclaimable(t), reason).value;
      KillExpandedReasons(t, Reclaimable(t), reason);
      CloseRoundsReasons(round.tree, reason);
      KillsForThen(round.commands, CloseRounds(round.tree, reason).value.commands, reason);
    }
  }

  lemma NothingKilled(reason: KillReason)
    ensures KillsFor([], reason)
  {
  }

  /** Termination kills the losers of the frontier in id order, then finalizes the winner, then closes the expanded
      nodes, all for the given reason. */
  lemma TerminationCommands(t: Tree, reason: KillReason) returns (losers: seq<nat>, closing: seq<Command>)
    requires WellFormed(t)
    ensures TerminateTree(t, reason).Ok? && KillsFor(closing, reason) && Ascending(losers)
    ensures forall i: nat :: i in losers <==> t.ActiveAt(i) && !Wins(t, i)
    ensures var kills := seq(|losers|, k requires 0 <= k < |losers| => KillBranch(losers[k], reason));
            && (forall w: nat :: Wins(t, w) ==> TerminateTree(t, reason).value.commands == kills + [FinalizeBranch(w)] + closing)
            && ((forall i: nat :: !t.ActiveAt(i)) ==> TerminateTree(t, reason).value.commands == closing)
  {
    hide WellFormed, KillEach, Sort, CloseRounds, EndsBy, Wins, Finalize, TerminateTree, Ranked, KillsFor, Ascending, AllTerminal;
    TerminateTreeSpec(t, reason);
    RankedFrontier(t, ByTier);
    var ranked := Sort(t, ByTier, t.ActiveFrontier());
    if ranked == [] {
      losers := [];
      closing := ClosedAlone(t, reason);
      NobodyWins(t);
    } else {
      FirstWins(t, ranked);
      losers, closing := ClosedAfterWinner(t, ranked, reason);
      assert ranked[0] in ranked;
    }
  }

  lemma ClosedAlone(t: Tree, reason: KillReason) returns (closing: seq<Command>)
    requires WellFormed(t) && t.ActiveFrontier() == [] && TerminateTree(t, reason).Ok?
    ensures TerminateTree(t, reason).value.commands == closing && KillsFor(closing, reason) && Ascending([])
  {
    hide WellFormed, CloseRounds;
    closing := CloseRounds(t, reason).value.commands;
    CloseRoundsReasons(t, reason);
  }

  lemma ClosedAfterWinner(t: Tree, ranked: seq<nat>, reason: KillReason) returns (losers: seq<nat>, closing: seq<Command>)
    requires WellFormed(t) && ranked == Sort(t, ByTier, t.ActiveFrontier()) && ranked != [] && TerminateTree(t, reason).Ok?
    requires InTree(t, ranked) && Distinct(ranked) && forall i: nat :: i in ranked <==> t.ActiveAt(i)
    ensures Ascending(losers) && KillsFor(closing, reason)
    ensures forall i: nat :: i in losers <==> t.ActiveAt(i) && i != ranked[0]
    ensures TerminateTree(t, reason).value.commands
         == seq(|losers|, k requires 0 <= k < |losers| => KillBranch(losers[k], reason)) + [FinalizeBranch(ranked[0])] + closing
  {
    hide WellFormed, KillEach, Sort, CloseRounds, Finalize, Ascending, KillsFor;
    losers := Sort(t, ById, ranked[1..]);
    LosersSpec(t, ranked);
    DistinctRest(ranked);
    SortByIdAscends(t, ranked[1..]);
    KillEachCommands(t, losers, reason);
    KillEachWellFormed(t, losers, reason);
    var won := Finalize(KillEach(t, losers, reason).value.tree, ranked[0]).value;
    FinalizeKeepsWellFormed(KillEach(t, losers, reason).value.tree, ranked[0]);
    closing := CloseRounds(won, reason).value.commands;
    CloseRoundsReasons(won, reason);
  }

  lemma DistinctRest(ids: seq<nat>)
    requires ids != [] && Distinct(ids)
    ensures Distinct(ids[1..])
  {
  }

  // ---------------------------------------------------------------------------
  // In the queue
  // ---------------------------------------------------------------------------

  lemma {:induction false} QueuedFrom(s: State, commands: seq<Command>)
    ensures forall x :: x in Enqueue(s, commands).queue ==> x in s.queue || x in commands
    decreases |commands|
  {
    if commands != [] {
      var next := EnqueueOne(s, commands[0]);
      QueuedFrom(next, commands[1..]);
      forall x | x in next.queue ensures x in s.queue || x in commands { assert commands[0] in commands; }
    }
  }

  /** What a drain adds to the queue are kills of a drained tree and the winner's end. */
  lemma DrainReasons(s: State)
    requires WellFormed(s.tree) && Drain(s).Ok?
    ensures forall x :: x in Drain(s).value.queue ==>
              x in s.queue || (x.KillBranch? && x.reason == Drained) || (x.FinalizeBranch? && Wins(s.tree, x.branch))
  {
    var losers, closing := TerminationCommands(s.tree, Drained);
    TerminateTreeSpec(s.tree, Drained);
    hide WellFormed, TerminateTree, Wins;
    var ended := TerminateTree(s.tree, Drained).value;
    var cleared := s.(tree := ended.tree, outstanding := {}, pending := map[], terminals := map[], adaptivePending := {});
    QueuedFrom(cleared, ended.commands);
    EndingCommands(s.tree, ended.commands, Drained, losers, closing);
  }

  lemma EndingCommands(t: Tree, commands: seq<Command>, reason: KillReason, losers: seq<nat>, closing: seq<Command>)
    requires KillsFor(closing, reason)
    requires var kills := seq(|losers|, k requires 0 <= k < |losers| => KillBranch(losers[k], reason));
             commands == closing || exists w :: Wins(t, w) && commands == kills + [FinalizeBranch(w)] + closing
    ensures forall x :: x in commands ==> (x.KillBranch? && x.reason == reason) || (x.FinalizeBranch? && Wins(t, x.branch))
  {
    hide Wins;
  }

  /** What the end of a spent tree adds to the queue, beside what the event itself emitted. */
  lemma SpentReasons(c: Config, ph: Phase, e: EngineEvent)
    requires WellFormed(ph.s.tree) && ConfigOk(c) && ph.exhausted
    requires e.TokenSampled? && e.entropy.Some? ==> e.entropy.value.Finite?
    requires FinishEvent(c, ph, e).Ok?
    ensures var r := FinishEvent(c, ph, e).value;
            && r.pending == map[] && r.terminals == map[] && r.adaptivePending == {}
            && forall x :: x in r.queue ==>
                 || x in ph.s.queue || x in ph.emitted || (x.KillBranch? && x.reason == TreeBudgetExhausted)
                 || (x.FinalizeBranch? && Wins(ph.s.tree, x.branch))
  {
    var losers, closing := TerminationCommands(ph.s.tree, TreeBudgetExhausted);
    TerminateTreeSpec(ph.s.tree, TreeBudgetExhausted);
    hide WellFormed, TerminateTree, Wins;
    var ended := TerminateTree(ph.s.tree, TreeBudgetExhausted).value;
    var cleared := ph.s.(tree := ended.tree, pending := map[], terminals := map[], adaptivePending := {});
    QueuedFrom(cleared, ph.emitted + ended.commands);
    EnqueueKeepsTree(cleared, ph.emitted + ended.commands);
    EndingCommands(ph.s.tree, ended.commands, TreeBudgetExhausted, losers, closing);
  }
}
