/** Terminating the whole tree: one branch wins, everything else is killed, leaves first
    (scheduler/src/scheduler.rs, terminate_tree). */
module Termination {
  import opened Common
  import opened Arena
  import opened Commands
  import opened Ranking
  import opened Lifecycle

  function KillEach(t: Tree, ids: seq<nat>, reason: KillReason): Result<Effect>
    decreases |ids|
  {
    if ids == [] then Ok(Effect(t, []))
    else
      var killed :- Kill(t, ids[0]);
      var rest :- KillEach(killed, ids[1..], reason);
      Ok(Effect(rest.tree, [KillBranch(ids[0], reason)] + rest.commands))
  }

  /** Only nodes that are still Expanded are killed. */
  function KillExpanded(t: Tree, ids: seq<nat>, reason: KillReason): Result<Effect>
    decreases |ids|
  {
    if ids == [] then Ok(Effect(t, []))
    else if ids[0] < |t.nodes| && t.nodes[ids[0]].state == Expanded then
      var killed :- Kill(t, ids[0]);
      var rest :- KillExpanded(killed, ids[1..], reason);
      Ok(Effect(rest.tree, [KillBranch(ids[0], reason)] + rest.commands))
    else KillExpanded(t, ids[1..], reason)
  }

  /** Expanded nodes below n all of whose children are terminal. */
  function ReclaimableBelow(t: Tree, n: nat): (ids: seq<nat>)
    requires n <= |t.nodes|
    ensures InTree(t, ids)
    ensures forall i: nat :: i in ids <==> i < n && t.nodes[i].state == Expanded && t.AllChildrenTerminal(i)
    ensures forall k :: 0 <= k < |ids| ==> t.nodes[ids[k]].state == Expanded && t.AllChildrenTerminal(ids[k])
  {
    if n == 0 then []
    else
      var rest := ReclaimableBelow(t, n - 1);
      if t.nodes[n - 1].state == Expanded && t.AllChildrenTerminal(n - 1) then rest + [n - 1] else rest
  }

  function Reclaimable(t: Tree): (ids: seq<nat>)
    ensures InTree(t, ids)
    ensures forall i: nat :: i in ids <==> i < |t.nodes| && t.nodes[i].state == Expanded && t.AllChildrenTerminal(i)
  {
    Sort(t, ByDepth, ReclaimableBelow(t, |t.nodes|))
  }

  function ExpandedBelow(t: Tree, n: nat): nat
    requires n <= |t.nodes|
  {
    if n == 0 then 0 else ExpandedBelow(t, n - 1) + if t.nodes[n - 1].state == Expanded then 1 else 0
  }

  lemma {:induction false} EndingShrinksExpanded(a: Tree, b: Tree, n: nat)
    requires OnlyEnds(a, b) && n <= |a.nodes|
    ensures ExpandedBelow(b, n) <= ExpandedBelow(a, n)
    ensures (exists i :: 0 <= i < n && a.nodes[i].state == Expanded && b.nodes[i].state != Expanded) ==>
              ExpandedBelow(b, n) < ExpandedBelow(a, n)
  {
    if n > 0 {
      EndingShrinksExpanded(a, b, n - 1);
      assert b.nodes[n - 1].state == Expanded ==> a.nodes[n - 1].state == Expanded;
    }
  }

  /** Each of these nodes was killed already or can be killed now. */
  ghost predicate Closable(t: Tree, ids: seq<nat>) {
    && InTree(t, ids)
    && forall k :: 0 <= k < |ids| ==>
         || t.nodes[ids[k]].state == Killed
         || (t.nodes[ids[k]].state == Expanded && t.AllChildrenTerminal(ids[k]))
  }

  /** Only kills happened, in the tree and in the commands. */
  ghost predicate KillsOnly(t: Tree, e: Effect) {
    && |t.nodes| == |e.tree.nodes|
    && (forall i :: 0 <= i < |t.nodes| ==>
          e.tree.nodes[i].state == t.nodes[i].state || (e.tree.nodes[i].state == Killed && t.nodes[i].state.IsLive()))
    && forall c :: c in e.commands ==> c.KillBranch?
  }

  lemma KillsThen(t: Tree, e: Effect, f: Effect)
    requires KillsOnly(t, e) && KillsOnly(e.tree, f)
    ensures KillsOnly(t, Effect(f.tree, e.commands + f.commands))
  {
  }

  lemma CloseOne(t: Tree, b: nat, reason: KillReason, ids: seq<nat>)
    requires WellFormed(t) && Closable(t, [b] + ids) && b < |t.nodes| && t.nodes[b].state == Expanded
    ensures Kill(t, b) == Ok(t.WithState(b, Killed))
    ensures EndsBy(t, Effect(t.WithState(b, Killed), [KillBranch(b, reason)]))
    ensures KillsOnly(t, Effect(t.WithState(b, Killed), [KillBranch(b, reason)]))
    ensures WellFormed(t.WithState(b, Killed)) && Closable(t.WithState(b, Killed), ids)
  {
    assert ([b] + ids)[0] == b;
    assert NodeOk(t, b);
    assert !t.AnyChildLive(b);
    EndsOne(t, b, KillBranch(b, reason));
    var killed := t.WithState(b, Killed);
    forall k | 0 <= k < |ids|
      ensures ids[k] < |t.nodes|
      ensures killed.nodes[ids[k]].state == Killed || (killed.nodes[ids[k]].state == Expanded && killed.AllChildrenTerminal(ids[k]))
    {
      assert ([b] + ids)[k + 1] == ids[k];
    }
  }

  lemma {:induction false} KillExpandedSpec(t: Tree, ids: seq<nat>, reason: KillReason)
    requires WellFormed(t) && Closable(t, ids)
    ensures KillExpanded(t, ids, reason).Ok?
    ensures EndsBy(t, KillExpanded(t, ids, reason).value)
    ensures KillsOnly(t, KillExpanded(t, ids, reason).value)
    ensures ids != [] ==> KillExpanded(t, ids, reason).value.tree.nodes[ids[0]].state == Killed
    decreases |ids|
  {
    if ids == [] {
      EndsNothing(t);
    } else if t.nodes[ids[0]].state == Expanded {
      hide WellFormed, EndsBy;
      var b := ids[0];
      assert ids == [b] + ids[1..];
      CloseOne(t, b, reason, ids[1..]);
      var killed := Kill(t, b).value;
      KillExpandedSpec(killed, ids[1..], reason);
      var first, rest := Effect(killed, [KillBranch(b, reason)]), KillExpanded(killed, ids[1..], reason).value;
      EndsThen(t, first, rest);
      KillsThen(t, first, rest);
    } else {
      KillExpandedSpec(t, ids[1..], reason);
      assert t.nodes[ids[0]].state == Killed;
    }
  }

  /** One round kills something, so the next round has fewer expanded nodes to look at. */
  lemma RoundSpec(t: Tree, reason: KillReason)
    requires WellFormed(t) && Reclaimable(t) != []
    ensures KillExpanded(t, Reclaimable(t), reason).Ok?
    ensures var round := KillExpanded(t, Reclaimable(t), reason).value;
            && EndsBy(t, round)
            && KillsOnly(t, round)
            && WellFormed(round.tree)
            && |round.tree.nodes| == |t.nodes|
            && ExpandedBelow(round.tree, |t.nodes|) < ExpandedBelow(t, |t.nodes|)
            && (t.ActiveFrontier() == [] ==> round.tree.ActiveFrontier() == [])
  {
    var ids := Reclaimable(t);
    forall k | 0 <= k < |ids|
      ensures t.nodes[ids[k]].state == Expanded && t.AllChildrenTerminal(ids[k])
    {
      assert ids[k] in ids;
    }
    KillExpandedSpec(t, ids, reason);
    var round := KillExpanded(t, ids, reason).value;
    assert t.nodes[ids[0]].state == Expanded;
    EndingShrinksExpanded(t, round.tree, |t.nodes|);
    if t.ActiveFrontier() == [] {
      FrontierStaysEmpty(t, round.tree);
    }
  }

  lemma FrontierStaysEmpty(a: Tree, b: Tree)
    requires OnlyEnds(a, b) && a.ActiveFrontier() == []
    ensures b.ActiveFrontier() == []
  {
    assert forall i: nat :: i !in a.ActiveFrontier();
    NothingActive(b);
  }

  lemma NothingActive(t: Tree)
    requires forall i: nat :: !t.ActiveAt(i)
    ensures t.ActiveFrontier() == []
  {
  }

  /** Rounds of reclamation until no expanded node has only terminal children. */
  function CloseRounds(t: Tree, reason: KillReason): (r: Result<Effect>)
    requires WellFormed(t)
    decreases ExpandedBelow(t, |t.nodes|)
  {
    var ids := Reclaimable(t);
    if ids == [] then Ok(Effect(t, []))
    else
      RoundSpec(t, reason);
      var round := KillExpanded(t, ids, reason).value;
      var rest :- CloseRounds(round.tree, reason);
      Ok(Effect(rest.tree, round.commands + rest.commands))
  }

  lemma {:induction false} CloseRoundsSpec(t: Tree, reason: KillReason)
    requires WellFormed(t) && t.ActiveFrontier() == []
    ensures CloseRounds(t, reason).Ok?
    ensures EndsBy(t, CloseRounds(t, reason).value)
    ensures KillsOnly(t, CloseRounds(t, reason).value)
    ensures AllTerminal(CloseRounds(t, reason).value.tree)
    decreases ExpandedBelow(t, |t.nodes|)
  {
    var ids := Reclaimable(t);
    if ids == [] {
      EndsNothing(t);
      NoReclaimableMeansTerminal(t, |t.nodes| - 1);
    } else {
      hide WellFormed, EndsBy;
      RoundSpec(t, reason);
      var round := KillExpanded(t, ids, reason).value;
      CloseRoundsSpec(round.tree, reason);
      var rest := CloseRounds(round.tree, reason).value;
      EndsThen(t, round, rest);
      KillsThen(t, round, rest);
    }
  }

  ghost predicate AllTerminal(t: Tree) {
    forall i: nat :: i < |t.nodes| ==> t.TerminalAt(i)
  }

  /** From the newest node downwards: with no active and no reclaimable node, every node is terminal. */
  lemma {:induction false} NoReclaimableMeansTerminal(t: Tree, n: nat)
    requires WellFormed(t) && t.ActiveFrontier() == [] && Reclaimable(t) == [] && n < |t.nodes|
    ensures forall i :: |t.nodes| - 1 - n <= i < |t.nodes| ==> t.TerminalAt(i)
  {
    if n > 0 { NoReclaimableMeansTerminal(t, n - 1); }
    var i := |t.nodes| - 1 - n;
    assert NodeOk(t, i);
    assert i !in t.ActiveFrontier() && i !in Reclaimable(t);
  }

  lemma {:induction false} KillEachSpec(t: Tree, ids: seq<nat>, reason: KillReason)
    requires WellFormed(t) && Distinct(ids)
    requires forall k :: 0 <= k < |ids| ==> t.ActiveAt(ids[k])
    ensures KillEach(t, ids, reason).Ok?
    ensures EndsBy(t, KillEach(t, ids, reason).value)
    ensures KillsOnly(t, KillEach(t, ids, reason).value)
    ensures forall i: nat :: KillEach(t, ids, reason).value.tree.ActiveAt(i) <==> t.ActiveAt(i) && i !in ids
    decreases |ids|
  {
    if ids == [] {
      EndsNothing(t);
    } else {
      var b := ids[0];
      assert ids == [b] + ids[1..];
      KillOneActive(t, b, reason);
      hide WellFormed, EndsBy;
      var killed := t.WithState(b, Killed);
      KillEachSpec(killed, ids[1..], reason);
      var first, rest := Effect(killed, [KillBranch(b, reason)]), KillEach(killed, ids[1..], reason).value;
      EndsThen(t, first, rest);
      KillsThen(t, first, rest);
    }
  }

  lemma KillOneActive(t: Tree, b: nat, reason: KillReason)
    requires WellFormed(t) && t.ActiveAt(b)
    ensures Kill(t, b) == Ok(t.WithState(b, Killed))
    ensures EndsBy(t, Effect(t.WithState(b, Killed), [KillBranch(b, reason)]))
    ensures WellFormed(t.WithState(b, Killed))
  {
    assert NodeOk(t, b);
    EndsOne(t, b, KillBranch(b, reason));
  }

  function TerminateTree(t: Tree, reason: KillReason): (r: Result<Effect>)
    requires WellFormed(t)
  {
    var ranked := Sort(t, ByTier, t.ActiveFrontier());
    if ranked == [] then CloseRounds(t, reason)
    else
      var kills :- KillEach(t, Sort(t, ById, ranked[1..]), reason);
      var won :- Finalize(kills.tree, ranked[0]);
      KillEachWellFormed(t, Sort(t, ById, ranked[1..]), reason);
      FinalizeKeepsWellFormed(kills.tree, ranked[0]);
      var rest :- CloseRounds(won, reason);
      Ok(Effect(rest.tree, kills.commands + [FinalizeBranch(ranked[0])] + rest.commands))
  }

  lemma {:induction false} KillEachWellFormed(t: Tree, ids: seq<nat>, reason: KillReason)
    requires WellFormed(t) && KillEach(t, ids, reason).Ok?
    ensures WellFormed(KillEach(t, ids, reason).value.tree)
    decreases |ids|
  {
    if ids != [] {
      KillKeepsWellFormed(t, ids[0]);
      KillEachWellFormed(Kill(t, ids[0]).value, ids[1..], reason);
    }
  }

  lemma {:induction false} RankedFrontier(t: Tree, o: Order)
    ensures var ranked := Sort(t, o, t.ActiveFrontier());
            Ranked(t, o, ranked) && Distinct(ranked) && forall i: nat :: i in ranked <==> t.ActiveAt(i)
  {
    SortRanks(t, o, t.ActiveFrontier());
  }

  /** A scored branch outranks every unscored one; scored ones compare their values and unscored ones their logprobs;
      the lower id wins a tie. */
  ghost predicate Outranks(x: BranchNode, y: BranchNode) {
    if x.hasValue then y.hasValue ==> y.value < x.value || (y.value == x.value && x.id < y.id)
    else !y.hasValue && (y.logprob < x.logprob || (y.logprob == x.logprob && x.id < y.id))
  }

  /** The branch terminate_tree finalizes: it outranks every other active branch. */
  ghost predicate Wins(t: Tree, best: nat) {
    && t.ActiveAt(best)
    && forall i: nat :: t.ActiveAt(i) && i != best ==> Outranks(t.nodes[best], t.nodes[i])
  }

  lemma TierOutranks(t: Tree, a: nat, b: nat)
    requires WellFormed(t) && a < |t.nodes| && b < |t.nodes|
    ensures Ahead(t, ByTier, a, b) <==> Outranks(t.nodes[a], t.nodes[b])
  {
    assert NodeOk(t, a) && NodeOk(t, b);
  }

  /** Termination never fails, leaves every node terminal, and finalizes exactly the winning branch. */
  lemma {:induction false} TerminateTreeSpec(t: Tree, reason: KillReason)
    requires WellFormed(t)
    ensures TerminateTree(t, reason).Ok?
    ensures EndsBy(t, TerminateTree(t, reason).value)
    ensures AllTerminal(TerminateTree(t, reason).value.tree)
    ensures forall i: nat :: i < |t.nodes| ==>
              (TerminateTree(t, reason).value.tree.nodes[i].state == Finalized <==> t.nodes[i].state == Finalized || Wins(t, i))
    ensures forall c :: c in TerminateTree(t, reason).value.commands ==> c.KillBranch? || (c.FinalizeBranch? && Wins(t, c.branch))
    ensures t.ActiveFrontier() != [] ==> exists i :: Wins(t, i)
  {
    RankedFrontier(t, ByTier);
    if t.ActiveFrontier() == [] {
      TerminateWithoutFrontier(t, reason);
      NobodyWins(t);
    } else {
      var ranked := Sort(t, ByTier, t.ActiveFrontier());
      FirstWins(t, ranked);
      assert Wins(t, ranked[0]);
      TerminateWithFrontier(t, ranked, reason);
    }
  }

  lemma TerminateWithoutFrontier(t: Tree, reason: KillReason)
    requires WellFormed(t) && t.ActiveFrontier() == []
    ensures TerminateTree(t, reason) == CloseRounds(t, reason)
    ensures TerminateTree(t, reason).Ok?
    ensures EndsBy(t, TerminateTree(t, reason).value)
    ensures KillsOnly(t, TerminateTree(t, reason).value)
    ensures AllTerminal(TerminateTree(t, reason).value.tree)
  {
    hide WellFormed, EndsBy, AllTerminal, KillsOnly;
    CloseRoundsSpec(t, reason);
  }

  /** With `best` first in the ranked frontier, termination finalizes `best` and kills the rest. */
  ghost predicate Crowns(t: Tree, e: Effect, best: nat) {
    && EndsBy(t, e)
    && AllTerminal(e.tree)
    && (forall i: nat :: i < |t.nodes| ==> (e.tree.nodes[i].state == Finalized <==> t.nodes[i].state == Finalized || i == best))
    && (forall c :: c in e.commands ==> c.KillBranch? || c == FinalizeBranch(best))
  }

  lemma TerminateWithFrontier(t: Tree, ranked: seq<nat>, reason: KillReason)
    requires WellFormed(t) && ranked == Sort(t, ByTier, t.ActiveFrontier()) && ranked != []
    requires InTree(t, ranked) && Distinct(ranked) && forall i: nat :: i in ranked <==> t.ActiveAt(i)
    ensures TerminateTree(t, reason).Ok?
    ensures Crowns(t, TerminateTree(t, reason).value, ranked[0])
  {
    hide WellFormed, EndsBy, AllTerminal, KillsOnly, Crowns;
    var kills, won := CrownSpec(t, ranked, reason);
    CloseRoundsSpec(won, reason);
    var rest := CloseRounds(won, reason).value;
    EndsThen(t, Effect(won, kills.commands + [FinalizeBranch(ranked[0])]), rest);
    CrownsAfterRounds(t, kills, won, rest, ranked[0]);
  }

  lemma CrownsAfterRounds(t: Tree, kills: Effect, won: Tree, rest: Effect, best: nat)
    requires EndsBy(t, Effect(rest.tree, kills.commands + [FinalizeBranch(best)] + rest.commands))
    requires AllTerminal(rest.tree) && |won.nodes| == |t.nodes| && KillsOnly(won, rest)
    requires forall c :: c in kills.commands ==> c.KillBranch?
    requires forall i: nat :: i < |t.nodes| ==> (won.nodes[i].state == Finalized <==> t.nodes[i].state == Finalized || i == best)
    ensures Crowns(t, Effect(rest.tree, kills.commands + [FinalizeBranch(best)] + rest.commands), best)
  {
    hide EndsBy, AllTerminal;
    OneFinalizeAmongKills(kills.commands, best, rest.commands);
    FinalizedAfterKills(t, won, rest, best);
  }

  lemma OneFinalizeAmongKills(before: seq<Command>, best: nat, after: seq<Command>)
    requires forall c :: c in before ==> c.KillBranch?
    requires forall c :: c in after ==> c.KillBranch?
    ensures forall c :: c in before + [FinalizeBranch(best)] + after ==> c.KillBranch? || c == FinalizeBranch(best)
  {
  }

  lemma FinalizedAfterKills(t: Tree, won: Tree, rest: Effect, best: nat)
    requires |won.nodes| == |t.nodes| && KillsOnly(won, rest)
    requires forall i: nat :: i < |t.nodes| ==> (won.nodes[i].state == Finalized <==> t.nodes[i].state == Finalized || i == best)
    ensures forall i: nat :: i < |t.nodes| ==>
              (rest.tree.nodes[i].state == Finalized <==> t.nodes[i].state == Finalized || i == best)
  {
  }

  lemma NobodyWins(t: Tree)
    requires t.ActiveFrontier() == []
    ensures forall i: nat :: !Wins(t, i)
  {
    assert forall i: nat :: i !in t.ActiveFrontier();
  }

  /** Killing everything but the winner and finalizing it leaves nothing active. */
  lemma CrownSpec(t: Tree, ranked: seq<nat>, reason: KillReason) returns (kills: Effect, won: Tree)
    requires WellFormed(t) && InTree(t, ranked) && ranked != [] && Distinct(ranked)
    requires forall i: nat :: i in ranked <==> t.ActiveAt(i)
    ensures KillEach(t, Sort(t, ById, ranked[1..]), reason) == Ok(kills)
    ensures Finalize(kills.tree, ranked[0]) == Ok(won)
    ensures WellFormed(won) && won.ActiveFrontier() == []
    ensures EndsBy(t, Effect(won, kills.commands + [FinalizeBranch(ranked[0])]))
    ensures forall c :: c in kills.commands ==> c.KillBranch?
    ensures |won.nodes| == |t.nodes|
    ensures forall i: nat :: i < |t.nodes| ==>
              (won.nodes[i].state == Finalized <==> t.nodes[i].state == Finalized || i == ranked[0])
  {
    var best := ranked[0];
    var victims := Sort(t, ById, ranked[1..]);
    LosersSpec(t, ranked);
    KillEachSpec(t, victims, reason);
    kills := KillEach(t, victims, reason).value;
    assert WellFormed(kills.tree) && |kills.tree.nodes| == |t.nodes|;
    FinalizeOneActive(kills.tree, best);
    won := kills.tree.WithState(best, Finalized);
    hide WellFormed, EndsBy;
    EndsThen(t, kills, Effect(won, [FinalizeBranch(best)]));
    assert forall i: nat :: won.ActiveAt(i) ==> kills.tree.ActiveAt(i) && i != best;
    NothingActive(won);
  }

  lemma LosersSpec(t: Tree, ranked: seq<nat>)
    requires InTree(t, ranked) && ranked != [] && Distinct(ranked)
    requires forall i: nat :: i in ranked <==> t.ActiveAt(i)
    ensures var losers := Sort(t, ById, ranked[1..]);
            && Distinct(losers)
            && (forall k :: 0 <= k < |losers| ==> t.ActiveAt(losers[k]))
            && (forall i: nat :: t.ActiveAt(i) <==> i == ranked[0] || i in losers)
            && ranked[0] !in losers
  {
    assert ranked == [ranked[0]] + ranked[1..];
    SortKeepsDistinct(t, ById, ranked[1..]);
    var losers := Sort(t, ById, ranked[1..]);
    forall k | 0 <= k < |losers|
      ensures t.ActiveAt(losers[k])
    {
      assert losers[k] in losers;
    }
  }

  lemma FinalizeOneActive(t: Tree, b: nat)
    requires WellFormed(t) && t.ActiveAt(b)
    ensures Finalize(t, b) == Ok(t.WithState(b, Finalized))
    ensures EndsBy(t, Effect(t.WithState(b, Finalized), [FinalizeBranch(b)]))
    ensures WellFormed(t.WithState(b, Finalized))
  {
    assert NodeOk(t, b);
    EndsOne(t, b, FinalizeBranch(b));
  }

  lemma FirstWins(t: Tree, ranked: seq<nat>)
    requires WellFormed(t) && InTree(t, ranked) && ranked != [] && Ranked(t, ByTier, ranked)
    requires forall i: nat :: i in ranked <==> t.ActiveAt(i)
    ensures forall i: nat :: Wins(t, i) <==> i == ranked[0]
  {
    hide WellFormed, Outranks;
    var best := ranked[0];
    assert best in ranked;
    forall i: nat | t.ActiveAt(i) && i != best
      ensures Outranks(t.nodes[best], t.nodes[i]) && !Wins(t, i)
    {
      assert i in ranked;
      TierOutranks(t, best, i);
      TierOutranks(t, i, best);
      AheadIsStrictTotal(t, ByTier, i, best, i);
    }
  }

  /** The branch that termination newly finalizes was active, scored if any active branch was, with the best value among
      the scored ones or the best logprob when none was, and every other active branch is killed. */
  lemma FinalizedIsBest(t: Tree, reason: KillReason, w: nat)
    requires WellFormed(t) && w < |t.nodes| && t.nodes[w].state != Finalized
    requires TerminateTree(t, reason).Ok? && TerminateTree(t, reason).value.tree.TerminalAt(w)
    requires TerminateTree(t, reason).value.tree.nodes[w].state == Finalized
    ensures t.ActiveAt(w)
    ensures forall i: nat :: t.ActiveAt(i) && i != w ==>
              TerminateTree(t, reason).value.tree.TerminalAt(i) && TerminateTree(t, reason).value.tree.nodes[i].state == Killed
    ensures (exists i: nat :: t.ActiveAt(i) && t.nodes[i].hasValue) ==>
              && t.nodes[w].hasValue
              && forall i: nat :: t.ActiveAt(i) && t.nodes[i].hasValue && i != w ==>
                   t.nodes[i].value < t.nodes[w].value || (t.nodes[i].value == t.nodes[w].value && w < i)
    ensures (forall i: nat :: t.ActiveAt(i) ==> !t.nodes[i].hasValue) ==>
              forall i: nat :: t.ActiveAt(i) && i != w ==>
                t.nodes[i].logprob < t.nodes[w].logprob || (t.nodes[i].logprob == t.nodes[w].logprob && w < i)
  {
    hide WellFormed, TerminateTree;
    TerminateTreeSpec(t, reason);
    var after := TerminateTree(t, reason).value.tree;
    forall i: nat | t.ActiveAt(i) && i != w
      ensures after.TerminalAt(i) && after.nodes[i].state == Killed && t.nodes[i].id == i && t.nodes[w].id == w
      ensures Outranks(t.nodes[w], t.nodes[i])
    {
      ActiveIds(t, i);
      ActiveIds(t, w);
      assert !Wins(t, i) by { assert Outranks(t.nodes[w], t.nodes[i]); }
    }
  }

  lemma ActiveIds(t: Tree, i: nat)
    requires WellFormed(t) && i < |t.nodes|
    ensures t.nodes[i].id == i
  {
    assert NodeOk(t, i);
  }
}
