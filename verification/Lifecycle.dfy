/** Ending branches: ancestor reclamation, speculative pruning and tree termination
    (scheduler/src/scheduler.rs). */
module Lifecycle {
  import opened Common
  import opened Arena
  import opened Commands
  import opened CommandStream
  import opened Ranking

  /** A tree after some commands were carried out on it, and those commands. */
  datatype Effect = Effect(tree: Tree, commands: seq<Command>)

  /** Nothing happened except that some live nodes became terminal. */
  ghost predicate OnlyEnds(a: Tree, b: Tree) {
    && a.cap == b.cap
    && |a.nodes| == |b.nodes|
    && forall i {:trigger b.nodes[i]} {:trigger a.nodes[i]} :: 0 <= i < |a.nodes| ==>
         && b.nodes[i] == a.nodes[i].(state := b.nodes[i].state)
         && (b.nodes[i].state == a.nodes[i].state || (a.nodes[i].state.IsLive() && b.nodes[i].state.IsTerminal()))
  }

  /** The commands end branches, nothing else, and replaying them gives the tree. */
  ghost predicate EndsBy(a: Tree, e: Effect) {
    && WellFormed(e.tree)
    && OnlyEnds(a, e.tree)
    && Replays(a, e.commands, e.tree)
  }

  lemma EndsNothing(a: Tree)
    requires WellFormed(a)
    ensures EndsBy(a, Effect(a, []))
  {
  }

  lemma EndsThen(a: Tree, e: Effect, f: Effect)
    requires EndsBy(a, e) && EndsBy(e.tree, f)
    ensures EndsBy(a, Effect(f.tree, e.commands + f.commands))
  {
    ReplaysTransitive(a, e.commands, e.tree, f.commands, f.tree);
  }

  lemma EndsOne(t: Tree, b: nat, c: Command)
    requires WellFormed(t) && b < |t.nodes|
    requires c.branch == b && (c.FinalizeBranch? || c.KillBranch?) && Apply(t, c).Ok?
    ensures EndsBy(t, Effect(Apply(t, c).value, [c]))
    ensures forall i: nat :: Orphan(Apply(t, c).value, i) ==> Orphan(t, i) || t.nodes[b].parent == Some(i)
  {
    var r := Apply(t, c).value;
    ApplyKeepsWellFormed(t, c);
    ReplaysOne(t, c, r);
    forall i: nat | i < |t.nodes| && t.AnyChildLive(i) && t.nodes[b].parent != Some(i)
      ensures r.AnyChildLive(i)
    {
      var d :| d in t.nodes[i].children && t.LiveAt(d);
      assert NodeOk(t, i);
      assert r.LiveAt(d) && d in r.nodes[i].children;
    }
  }

  // ---------------------------------------------------------------------------
  // Ancestor reclamation
  // ---------------------------------------------------------------------------

  /** Walks up from an ended branch and kills every expanded ancestor left without a live child. */
  function Reclaim(t: Tree, b: nat): (r: Effect)
    requires WellFormed(t) && b < |t.nodes|
    decreases b
  {
    assert NodeOk(t, b);
    match t.nodes[b].parent
    case None => Effect(t, [])
    case Some(p) =>
      if t.nodes[p].state.IsTerminal() then Reclaim(t, p)
      else if !t.AllChildrenTerminal(p) then Effect(t, [])
      else
        TerminateKeepsWellFormed(t, p, Killed);
        var rest := Reclaim(t.WithState(p, Killed), p);
        Effect(rest.tree, [KillBranch(p, AncestorReclaimed)] + rest.commands)
  }

  /** Reclamation emits exactly its kills, and afterwards no node is an orphan that was not one before;
      the parent of the ended branch is never one. */
  lemma {:induction false} ReclaimSpec(t: Tree, b: nat)
    requires WellFormed(t) && b < |t.nodes|
    ensures EndsBy(t, Reclaim(t, b))
    ensures forall i: nat :: Orphan(Reclaim(t, b).tree, i) ==> Orphan(t, i) && t.nodes[b].parent != Some(i)
    ensures forall i: nat :: t.ActiveAt(i) ==> Reclaim(t, b).tree.ActiveAt(i)
    decreases b
  {
    assert NodeOk(t, b);
    if t.nodes[b].parent.Some? {
      var p := t.nodes[b].parent.value;
      if t.nodes[p].state.IsTerminal() {
        ReclaimSpec(t, p);
      } else if !t.AllChildrenTerminal(p) {
        var c :| c in t.nodes[p].children && !t.TerminalAt(c);
        assert NodeOk(t, p);
        assert t.LiveAt(c);
        EndsNothing(t);
      } else {
        assert b in t.nodes[p].children;
        assert NodeOk(t, p);
        TerminateKeepsWellFormed(t, p, Killed);
        var t1 := t.WithState(p, Killed);
        assert Kill(t, p) == Ok(t1);
        EndsOne(t, p, KillBranch(p, AncestorReclaimed));
        ReclaimSpec(t1, p);
        EndsThen(t, Effect(t1, [KillBranch(p, AncestorReclaimed)]), Reclaim(t1, p));
      }
    } else {
      EndsNothing(t);
    }
  }

  /** Is i above b: its parent, or above that one? */
  ghost predicate Above(t: Tree, i: nat, b: nat)
    requires WellFormed(t) && b < |t.nodes|
    decreases b
  {
    assert NodeOk(t, b);
    t.nodes[b].parent.Some? && (i == t.nodes[b].parent.value || Above(t, i, t.nodes[b].parent.value))
  }

  /** Above a live node every node is kept open by the one below it. */
  lemma {:induction false} AboveLive(t: Tree, b: nat)
    requires WellFormed(t) && t.LiveAt(b)
    ensures forall i: nat :: Above(t, i, b) ==> !Orphan(t, i)
    decreases b
  {
    assert NodeOk(t, b);
    if t.nodes[b].parent.Some? {
      assert b in t.nodes[t.nodes[b].parent.value].children;
      AboveLive(t, t.nodes[b].parent.value);
    }
  }

  lemma {:induction false} SameAbove(t: Tree, r: Tree, i: nat, b: nat)
    requires WellFormed(t) && WellFormed(r) && |t.nodes| == |r.nodes| && b < |t.nodes|
    requires forall k :: 0 <= k < |t.nodes| ==> r.nodes[k].parent == t.nodes[k].parent
    ensures Above(t, i, b) <==> Above(r, i, b)
    decreases b
  {
    assert NodeOk(t, b);
    if t.nodes[b].parent.Some? { SameAbove(t, r, i, t.nodes[b].parent.value); }
  }

  /** From an ended branch upwards: afterwards no node above it is expanded without a live child, and every other node is
      as it was. */
  lemma {:induction false} ReclaimExactly(t: Tree, b: nat)
    requires WellFormed(t) && t.TerminalAt(b)
    ensures var r := Reclaim(t, b).tree;
            && |r.nodes| == |t.nodes|
            && (forall i: nat :: Above(t, i, b) ==> !Orphan(r, i))
            && (forall i: nat :: i < |t.nodes| && !Above(t, i, b) ==> r.nodes[i] == t.nodes[i])
    decreases b
  {
    assert NodeOk(t, b);
    if t.nodes[b].parent.Some? {
      var p := t.nodes[b].parent.value;
      if t.nodes[p].state.IsTerminal() {
        ReclaimExactly(t, p);
        ReclaimSpec(t, p);
      } else if !t.AllChildrenTerminal(p) {
        assert NodeOk(t, p);
        var c :| c in t.nodes[p].children && !t.TerminalAt(c);
        assert t.LiveAt(c);
        AboveLive(t, p);
      } else {
        TerminateKeepsWellFormed(t, p, Killed);
        var t1 := t.WithState(p, Killed);
        ReclaimExactly(t1, p);
        ReclaimSpec(t1, p);
        forall i: nat ensures Above(t, i, p) <==> Above(t1, i, p) { SameAbove(t, t1, i, p); }
      }
    }
  }

  function ReclaimEach(t: Tree, bs: seq<nat>): (r: Effect)
    requires WellFormed(t) && InTree(t, bs)
    decreases |bs|
  {
    if bs == [] then Effect(t, [])
    else
      ReclaimSpec(t, bs[0]);
      var first := Reclaim(t, bs[0]);
      var rest := ReclaimEach(first.tree, bs[1..]);
      Effect(rest.tree, first.commands + rest.commands)
  }

  lemma {:induction false} ReclaimEachSpec(t: Tree, bs: seq<nat>)
    requires WellFormed(t) && InTree(t, bs)
    ensures EndsBy(t, ReclaimEach(t, bs))
    ensures forall i: nat :: Orphan(ReclaimEach(t, bs).tree, i) ==>
              Orphan(t, i) && forall k :: 0 <= k < |bs| ==> t.nodes[bs[k]].parent != Some(i)
    ensures forall i: nat :: t.ActiveAt(i) ==> ReclaimEach(t, bs).tree.ActiveAt(i)
    decreases |bs|
  {
    if bs == [] {
      EndsNothing(t);
    } else {
      ReclaimSpec(t, bs[0]);
      var first := Reclaim(t, bs[0]);
      ReclaimEachSpec(first.tree, bs[1..]);
      EndsThen(t, first, ReclaimEach(first.tree, bs[1..]));
      var r := ReclaimEach(t, bs).tree;
      forall i: nat, k | Orphan(r, i) && 0 <= k < |bs|
        ensures t.nodes[bs[k]].parent != Some(i)
      {
        if k > 0 {
          assert bs[k] == bs[1..][k - 1];
          assert first.tree.nodes[bs[k]].parent == t.nodes[bs[k]].parent;
        }
      }
    }
  }

  /** An orphan that a command list leaves behind is the parent of a branch that the list ended. */
  lemma {:induction false} ReplayOrphans(t: Tree, commands: seq<Command>, i: nat)
    requires WellFormed(t) && Replay(t, commands).Ok? && Orphan(Replay(t, commands).value, i)
    ensures Orphan(t, i) || exists k ::
              && 0 <= k < |TerminatedBy(commands)|
              && TerminatedBy(commands)[k] < |Replay(t, commands).value.nodes|
              && Replay(t, commands).value.nodes[TerminatedBy(commands)[k]].parent == Some(i)
    decreases |commands|
  {
    if commands != [] {
      var c := commands[0];
      var next := Apply(t, c).value;
      var r := Replay(t, commands).value;
      ApplyKeepsWellFormed(t, c);
      ReplayOrphans(next, commands[1..], i);
      var rest := TerminatedBy(commands[1..]);
      if Orphan(next, i) {
        ApplyOrphans(t, c, i);
        if !Orphan(t, i) {
          ParentsStay(next, commands[1..], c.branch);
          assert TerminatedBy(commands)[0] == c.branch;
        }
      } else {
        var k :| 0 <= k < |rest| && rest[k] < |r.nodes| && r.nodes[rest[k]].parent == Some(i);
        var shift := |TerminatedBy(commands)| - |rest|;
        assert TerminatedBy(commands)[k + shift] == rest[k];
      }
    }
  }

  lemma ForkKeepsLiveChildren(t: Tree, b: nat, width: nat)
    requires WellFormed(t) && Fork(t, b, width).Ok?
    ensures forall i: nat :: i < |t.nodes| && i != b && t.AnyChildLive(i) ==> Fork(t, b, width).value.AnyChildLive(i)
    ensures forall i: nat :: |t.nodes| <= i < |t.nodes| + width ==> Fork(t, b, width).value.nodes[i].state == Active
  {
    var r := Fork(t, b, width).value;
    forall i: nat | i < |t.nodes| && i != b && t.AnyChildLive(i)
      ensures r.AnyChildLive(i)
    {
      var d :| d in t.nodes[i].children && t.LiveAt(d);
      assert r.LiveAt(d) && d in r.nodes[i].children;
    }
    assert forall i: nat :: |t.nodes| <= i < |t.nodes| + width ==> r.nodes[i] == ChildOf(t.nodes[b], i);
  }

  lemma ApplyOrphans(t: Tree, c: Command, i: nat)
    requires WellFormed(t) && Apply(t, c).Ok? && Orphan(Apply(t, c).value, i)
    ensures Orphan(t, i) || ((c.KillBranch? || c.FinalizeBranch?) && t.nodes[c.branch].parent == Some(i))
  {
    var r := Apply(t, c).value;
    assert NodeOk(t, c.branch);
    if c.KillBranch? || c.FinalizeBranch? {
      EndsOne(t, c.branch, c);
    } else if c.ForkAt? {
      if i == c.branch {
        assert r.nodes[i].children[0] == |t.nodes|;
        assert r.nodes[|t.nodes|] == ChildOf(t.nodes[i], |t.nodes|);
        assert r.LiveAt(|t.nodes|);
      } else {
        ForkKeepsLiveChildren(t, c.branch, c.width);
      }
    }
  }

  lemma {:induction false} ParentsStay(t: Tree, commands: seq<Command>, b: nat)
    requires Replay(t, commands).Ok? && b < |t.nodes|
    ensures b < |Replay(t, commands).value.nodes|
    ensures Replay(t, commands).value.nodes[b].parent == t.nodes[b].parent
    decreases |commands|
  {
    if commands != [] {
      ApplyKeepsCap(t, commands[0]);
      ParentsStay(Apply(t, commands[0]).value, commands[1..], b);
    }
  }

  // ---------------------------------------------------------------------------
  // Speculative pruning
  // ---------------------------------------------------------------------------

  /** The scored branch with the highest value, the lowest id among equals. */
  function BestScored(t: Tree, ids: seq<nat>): (best: nat)
    requires ids != [] && InTree(t, ids)
    ensures best in ids && best < |t.nodes|
    ensures forall k :: 0 <= k < |ids| ==> t.nodes[ids[k]].value <= t.nodes[best].value
  {
    if |ids| == 1 then ids[0]
    else
      var other := BestScored(t, ids[1..]);
      assert ids == [ids[0]] + ids[1..];
      if t.nodes[other].value > t.nodes[ids[0]].value
         || (t.nodes[other].value == t.nodes[ids[0]].value && other < ids[0]) then other
      else ids[0]
  }

  /** Those of `ids` that trail the best value by more than the margin. */
  function Trailing(t: Tree, ids: seq<nat>, best: nat, margin: real): (r: seq<nat>)
    requires InTree(t, ids) && best < |t.nodes|
    ensures InTree(t, r)
    ensures forall i :: i in r <==>
              i in ids && i < |t.nodes| && i != best && t.nodes[best].value - t.nodes[i].value > margin
  {
    if ids == [] then []
    else
      var rest := Trailing(t, ids[1..], best, margin);
      if ids[0] != best && t.nodes[best].value - t.nodes[ids[0]].value > margin then [ids[0]] + rest else rest
  }

  /** The branches a speculative prune kills. */
  function Victims(t: Tree, margin: real): (r: seq<nat>)
    ensures InTree(t, r)
  {
    var frontier := t.ActiveFrontier();
    var scored := Scored(t, frontier);
    if scored == [] then []
    else Sort(t, ById, Trailing(t, scored, BestScored(t, scored), margin))
  }

  function KillAndReclaim(t: Tree, b: nat, reason: KillReason): (r: Result<Effect>)
    requires WellFormed(t)
  {
    var killed :- Kill(t, b);
    KillKeepsWellFormed(t, b);
    var up := Reclaim(killed, b);
    Ok(Effect(up.tree, [KillBranch(b, reason)] + up.commands))
  }

  lemma KillAndReclaimSpec(t: Tree, b: nat, reason: KillReason)
    requires WellFormed(t) && t.ActiveAt(b)
    ensures KillAndReclaim(t, b, reason).Ok?
    ensures EndsBy(t, KillAndReclaim(t, b, reason).value)
    ensures NoOrphans(t) ==> NoOrphans(KillAndReclaim(t, b, reason).value.tree)
    ensures forall i: nat :: KillAndReclaim(t, b, reason).value.tree.ActiveAt(i) <==> t.ActiveAt(i) && i != b
  {
    assert NodeOk(t, b);
    var killed := Kill(t, b).value;
    EndsOne(t, b, KillBranch(b, reason));
    ReclaimSpec(killed, b);
    EndsThen(t, Effect(killed, [KillBranch(b, reason)]), Reclaim(killed, b));
  }

  function PruneEach(t: Tree, victims: seq<nat>): (r: Result<Effect>)
    requires WellFormed(t)
    decreases |victims|
  {
    if victims == [] then Ok(Effect(t, []))
    else
      var first :- KillAndReclaim(t, victims[0], SpeculativeKill);
      KillAndReclaimWellFormed(t, victims[0], SpeculativeKill);
      var rest :- PruneEach(first.tree, victims[1..]);
      Ok(Effect(rest.tree, first.commands + rest.commands))
  }

  lemma KillAndReclaimWellFormed(t: Tree, b: nat, reason: KillReason)
    requires WellFormed(t) && KillAndReclaim(t, b, reason).Ok?
    ensures WellFormed(KillAndReclaim(t, b, reason).value.tree)
  {
    KillKeepsWellFormed(t, b);
    ReclaimSpec(Kill(t, b).value, b);
  }

  lemma {:induction false} PruneEachSpec(t: Tree, victims: seq<nat>)
    requires WellFormed(t) && NoOrphans(t) && Distinct(victims)
    requires forall k :: 0 <= k < |victims| ==> t.ActiveAt(victims[k])
    ensures PruneEach(t, victims).Ok?
    ensures EndsBy(t, PruneEach(t, victims).value)
    ensures NoOrphans(PruneEach(t, victims).value.tree)
    ensures forall i: nat :: PruneEach(t, victims).value.tree.ActiveAt(i) <==> t.ActiveAt(i) && i !in victims
    decreases |victims|
  {
    if victims == [] {
      EndsNothing(t);
    } else {
      assert victims == [victims[0]] + victims[1..];
      KillAndReclaimSpec(t, victims[0], SpeculativeKill);
      var first := KillAndReclaim(t, victims[0], SpeculativeKill).value;
      PruneEachSpec(first.tree, victims[1..]);
      EndsThen(t, first, PruneEach(first.tree, victims[1..]).value);
    }
  }

  function SpeculativePrune(t: Tree, margin: Option<real>): (r: Result<Effect>)
    requires WellFormed(t)
  {
    match margin
    case None => Ok(Effect(t, []))
    case Some(m) => PruneEach(t, Victims(t, m))
  }

  lemma {:induction false} SortKeepsDistinct(t: Tree, o: Order, ids: seq<nat>)
    requires InTree(t, ids) && Distinct(ids)
    ensures Distinct(Sort(t, o, ids))
  {
    SortRanks(t, o, ids);
  }

  lemma {:induction false} TrailingDistinct(t: Tree, ids: seq<nat>, best: nat, margin: real)
    requires InTree(t, ids) && best < |t.nodes| && Distinct(ids)
    ensures Distinct(Trailing(t, ids, best, margin))
  {
    if ids != [] {
      TrailingDistinct(t, ids[1..], best, margin);
      var rest := Trailing(t, ids[1..], best, margin);
      assert ids[0] !in ids[1..];
      forall k | 0 <= k < |rest| ensures rest[k] != ids[0] { assert rest[k] in rest; }
    }
  }

  lemma {:induction false} ScoredDistinct(t: Tree, ids: seq<nat>)
    requires InTree(t, ids) && Distinct(ids)
    ensures Distinct(Scored(t, ids))
  {
    if ids != [] {
      ScoredDistinct(t, ids[1..]);
      var rest := Scored(t, ids[1..]);
      assert ids[0] !in ids[1..];
      forall k | 0 <= k < |rest| ensures rest[k] != ids[0] { assert rest[k] in rest; }
    }
  }

  ghost predicate IsVictim(t: Tree, margin: real, i: nat) {
    && t.ActiveAt(i)
    && t.nodes[i].hasValue
    && exists j: nat :: t.ActiveAt(j) && t.nodes[j].hasValue && t.nodes[j].value - t.nodes[i].value > margin
  }

  /** With a non-negative margin the victims are the scored active branches that trail another
      scored active branch by more than the margin. */
  lemma VictimsSpec(t: Tree, margin: real)
    requires margin >= 0.0
    ensures Distinct(Victims(t, margin))
    ensures forall i: nat :: i in Victims(t, margin) <==> IsVictim(t, margin, i)
  {
    var frontier := t.ActiveFrontier();
    var scored := Scored(t, frontier);
    if scored != [] {
      var best := BestScored(t, scored);
      ScoredDistinct(t, frontier);
      TrailingDistinct(t, scored, best, margin);
      SortKeepsDistinct(t, ById, Trailing(t, scored, best, margin));
      forall i: nat
        ensures i in Victims(t, margin) <==> IsVictim(t, margin, i)
      {
        if IsVictim(t, margin, i) {
          var j: nat :| t.ActiveAt(j) && t.nodes[j].hasValue && t.nodes[j].value - t.nodes[i].value > margin;
          assert j in scored;
        }
      }
    } else {
      assert forall i: nat :: t.ActiveAt(i) && t.nodes[i].hasValue ==> i in scored;
    }
  }

  /** A speculative prune never fails and ends exactly the victims among the active branches. */
  lemma SpeculativePruneSpec(t: Tree, margin: Option<real>)
    requires WellFormed(t) && NoOrphans(t) && (margin.Some? ==> margin.value >= 0.0)
    ensures SpeculativePrune(t, margin).Ok?
    ensures EndsBy(t, SpeculativePrune(t, margin).value)
    ensures NoOrphans(SpeculativePrune(t, margin).value.tree)
    ensures forall i: nat :: SpeculativePrune(t, margin).value.tree.ActiveAt(i) <==>
              t.ActiveAt(i) && !(margin.Some? && IsVictim(t, margin.value, i))
  {
    match margin {
      case None => EndsNothing(t);
      case Some(m) =>
        VictimsSpec(t, m);
        var vs := Victims(t, m);
        forall k | 0 <= k < |vs| ensures t.ActiveAt(vs[k]) { assert vs[k] in vs; }
        PruneEachSpec(t, vs);
    }
  }
}
