/** What the MCTS policy learns and where it descends, in the nodes' own numbers (scheduler/src/policies/mcts.rs). */
module TreeSearch {
  import opened Common
  import opened Arena
  import opened Commands
  import opened Ranking
  import opened Policies
  import opened Mcts
  import L = Lifecycle

  // ---------------------------------------------------------------------------
  // The worth of a child
  // ---------------------------------------------------------------------------

  /** Mean value plus weighted exploration; a parent that was never visited counts as visited once. */
  ghost function Worth(c: MctsConfig, t: Tree, parent: nat, i: nat): real
    requires parent < |t.nodes| && i < |t.nodes| && t.nodes[i].visits > 0
  {
    var parentVisits := if t.nodes[parent].visits == 0 then 1 else t.nodes[parent].visits;
    var visits := t.nodes[i].visits;
    t.nodes[i].valueSum / visits as real + c.explorationWeight * c.sqrt(c.ln(parentVisits as real) / visits as real)
  }

  /** The larger of the two numbers' sizes and 1. */
  ghost function Scale(x: real, y: real): (m: real)
    ensures m >= 1.0 && -m <= x <= m && -m <= y <= m && (m == 1.0 || m == x || m == -x || m == y || m == -y)
  {
    var a, b := if x < 0.0 then -x else x, if y < 0.0 then -y else y;
    if a <= b then (if b < 1.0 then 1.0 else b) else (if a < 1.0 then 1.0 else a)
  }

  /** Equal up to one part in 10 to the 12. */
  ghost predicate Near(x: real, y: real) {
    -Scale(x, y) <= (x - y) * 1000000000000.0 <= Scale(x, y)
  }

  lemma NearlyIsNear(x: real, y: real)
    ensures ScoresNearlyEqual(x, y) <==> Near(x, y)
  {
    var s := MaxReal(MaxReal(Abs(x), Abs(y)), 1.0);
    assert s == Scale(x, y);
    assert UCT_RELATIVE_TOLERANCE * 1000000000000.0 == 1.0;
    if x - y < 0.0 {
      assert (y - x <= UCT_RELATIVE_TOLERANCE * s) <==> ((y - x) * 1000000000000.0 <= s);
    } else {
      assert (x - y <= UCT_RELATIVE_TOLERANCE * s) <==> ((x - y) * 1000000000000.0 <= s);
    }
  }

  lemma NearIsSymmetric(x: real, y: real)
    ensures Near(x, y) <==> Near(y, x)
  {
    assert Scale(x, y) == Scale(y, x);
  }

  lemma WorthIsScore(c: MctsConfig, t: Tree, parent: nat, i: nat)
    requires parent < |t.nodes| && i < |t.nodes| && t.nodes[i].visits > 0
    ensures UctScore(c, Visits(t, parent), t.nodes[i]) == Worth(c, t, parent, i)
  {
  }

  // ---------------------------------------------------------------------------
  // The scan
  // ---------------------------------------------------------------------------

  ghost predicate Rising(ids: seq<nat>) {
    forall i, j :: 0 <= i < j < |ids| ==> ids[i] <= ids[j]
  }

  lemma {:induction false} InsertRises(t: Tree, x: nat, ids: seq<nat>)
    requires x < |t.nodes| && InTree(t, ids) && Rising(ids)
    ensures Rising(Insert(t, ById, x, ids))
  {
    if ids != [] && !Ahead(t, ById, x, ids[0]) {
      InsertRises(t, x, ids[1..]);
      var rest := Insert(t, ById, x, ids[1..]);
      forall j | 0 <= j < |rest|
        ensures ids[0] <= rest[j]
      {
        assert rest[j] in rest;
      }
    }
  }

  lemma {:induction false} SortRises(t: Tree, ids: seq<nat>)
    requires InTree(t, ids)
    ensures Rising(Sort(t, ById, ids))
  {
    if ids != [] {
      SortRises(t, ids[1..]);
      InsertRises(t, ids[0], Sort(t, ById, ids[1..]));
    }
  }

  ghost predicate AllVisited(t: Tree, ids: seq<nat>) {
    forall k :: 0 <= k < |ids| ==> ids[k] < |t.nodes| && t.nodes[ids[k]].visits > 0
  }

  /** x is beyond y by no more than what counts as equal to some score up to y. */
  ghost predicate Drifts(x: real, y: real) {
    exists z: real :: Near(x, z) && z <= y
  }

  /** The scan ends with a score no lower than the one it started with, and passes over nothing that is better
      beyond tolerance. */
  lemma {:induction false} ScanBound(c: MctsConfig, t: Tree, parent: nat, ids: seq<nat>, best: nat)
    requires parent < |t.nodes| && AllVisited(t, ids) && best < |t.nodes| && t.nodes[best].visits > 0 && Rising([best] + ids)
    ensures InTree(t, ids)
    ensures var r := UctScan(c, t, Visits(t, parent), ids, best);
            && (r == best || r in ids) && t.nodes[r].visits > 0
            && Worth(c, t, parent, best) <= Worth(c, t, parent, r)
            && forall k :: 0 <= k < |ids| ==>
                 var x, y := Worth(c, t, parent, ids[k]), Worth(c, t, parent, r); x <= y || Drifts(x, y)
    decreases |ids|
  {
    hide Worth, Near, ScoresNearlyEqual, Scale;
    if ids != [] {
      var x := ids[0];
      WorthIsScore(c, t, parent, x);
      WorthIsScore(c, t, parent, best);
      NearlyIsNear(Worth(c, t, parent, x), Worth(c, t, parent, best));
      var taken := !Near(Worth(c, t, parent, x), Worth(c, t, parent, best)) && Worth(c, t, parent, x) > Worth(c, t, parent, best);
      var next := if taken then x else best;
      RisingRest(best, ids, next);
      assert x >= best;
      ScanBound(c, t, parent, ids[1..], next);
      var r := UctScan(c, t, Visits(t, parent), ids, best);
      assert r == UctScan(c, t, Visits(t, parent), ids[1..], next);
      forall k | 0 <= k < |ids|
        ensures var a, b := Worth(c, t, parent, ids[k]), Worth(c, t, parent, r); a <= b || Drifts(a, b)
      {
        if k > 0 {
          assert ids[k] == ids[1..][k - 1];
        } else if !taken && Worth(c, t, parent, x) > Worth(c, t, parent, best) {
          assert Near(Worth(c, t, parent, x), Worth(c, t, parent, best));
        }
      }
    }
  }

  lemma RisingRest(best: nat, ids: seq<nat>, next: nat)
    requires ids != [] && Rising([best] + ids) && (next == best || next == ids[0])
    ensures Rising([next] + ids[1..]) && best <= ids[0]
  {
    var all, rest := [best] + ids, [next] + ids[1..];
    assert all[0] == best && all[1] == ids[0];
    forall i, j | 0 <= i < j < |rest|
      ensures rest[i] <= rest[j]
    {
      assert rest[j] == all[j + 1];
      if i > 0 { assert rest[i] == all[i + 1]; } else { assert all[0] <= all[j + 1] && all[1] <= all[j + 1]; }
    }
  }

  /** A child that is ahead of every other one beyond tolerance wins the scan. */
  lemma {:induction false} ScanFinds(c: MctsConfig, t: Tree, parent: nat, ids: seq<nat>, best: nat, w: nat)
    requires parent < |t.nodes| && AllVisited(t, ids) && best < |t.nodes| && t.nodes[best].visits > 0 && (w == best || w in ids)
    requires w < |t.nodes| && t.nodes[w].visits > 0
    requires forall i: nat :: i < |t.nodes| && t.nodes[i].visits > 0 && (i == best || i in ids) && i != w ==>
               Worth(c, t, parent, i) < Worth(c, t, parent, w) && !Near(Worth(c, t, parent, i), Worth(c, t, parent, w))
    ensures InTree(t, ids)
    ensures UctScan(c, t, Visits(t, parent), ids, best) == w
    decreases |ids|
  {
    hide Worth, Near, ScoresNearlyEqual, Scale;
    if ids != [] {
      var x := ids[0];
      assert ids == [x] + ids[1..];
      WorthIsScore(c, t, parent, x);
      WorthIsScore(c, t, parent, best);
      NearlyIsNear(Worth(c, t, parent, x), Worth(c, t, parent, best));
      NearIsSymmetric(Worth(c, t, parent, x), Worth(c, t, parent, best));
      if w == best {
        if x == w { ScanFinds(c, t, parent, ids[1..], w, w); } else { ScanFinds(c, t, parent, ids[1..], best, w); }
      } else if x == w {
        ScanFinds(c, t, parent, ids[1..], w, w);
      } else {
        ScanFinds(c, t, parent, ids[1..], x, w);
        ScanFinds(c, t, parent, ids[1..], best, w);
      }
    }
  }

  /** A first child that all the others count as equal to keeps its place. */
  lemma {:induction false} ScanStays(c: MctsConfig, t: Tree, parent: nat, ids: seq<nat>, best: nat)
    requires parent < |t.nodes| && AllVisited(t, ids) && best < |t.nodes| && t.nodes[best].visits > 0
    requires forall k :: 0 <= k < |ids| ==> best <= ids[k] && Near(Worth(c, t, parent, ids[k]), Worth(c, t, parent, best))
    ensures InTree(t, ids)
    ensures UctScan(c, t, Visits(t, parent), ids, best) == best
    decreases |ids|
  {
    hide Worth, Near, ScoresNearlyEqual, Scale;
    if ids != [] {
      WorthIsScore(c, t, parent, ids[0]);
      WorthIsScore(c, t, parent, best);
      NearlyIsNear(Worth(c, t, parent, ids[0]), Worth(c, t, parent, best));
      ScanStays(c, t, parent, ids[1..], best);
    }
  }

  // ---------------------------------------------------------------------------
  // The choice
  // ---------------------------------------------------------------------------

  ghost predicate LiveChild(t: Tree, parent: nat, i: nat)
    requires parent < |t.nodes|
  {
    i in t.nodes[parent].children && t.LiveAt(i)
  }

  /** Some child is live, and every live one has been visited. */
  ghost predicate Explored(t: Tree, parent: nat)
    requires parent < |t.nodes|
  {
    && (exists i: nat :: LiveChild(t, parent, i))
    && forall i: nat :: LiveChild(t, parent, i) ==> i < |t.nodes| && t.nodes[i].visits > 0
  }

  /** No live child is better than the chosen one by more than one part in 10 to the 12, about; a live child that is
      better than all others by more is the chosen one; and when all count as equal to the one of lowest id, that one is. */
  ghost predicate ChosenWell(c: MctsConfig, t: Tree, parent: nat, chosen: nat)
    requires parent < |t.nodes| && Explored(t, parent)
  {
    && LiveChild(t, parent, chosen)
    && (forall i: nat :: LiveChild(t, parent, i) ==>
          (Worth(c, t, parent, i) - Worth(c, t, parent, chosen)) * 999999999999.0 <= Scale(Worth(c, t, parent, i), 1.0))
    && (forall w: nat :: LiveChild(t, parent, w) && Leads(c, t, parent, w) ==> chosen == w)
    && (forall w: nat :: LiveChild(t, parent, w) && Ties(c, t, parent, w) ==> chosen == w)
  }

  ghost predicate Leads(c: MctsConfig, t: Tree, parent: nat, w: nat)
    requires parent < |t.nodes| && Explored(t, parent) && LiveChild(t, parent, w)
  {
    forall i: nat :: LiveChild(t, parent, i) && i != w ==>
      Worth(c, t, parent, i) < Worth(c, t, parent, w) && !Near(Worth(c, t, parent, i), Worth(c, t, parent, w))
  }

  ghost predicate Ties(c: MctsConfig, t: Tree, parent: nat, w: nat)
    requires parent < |t.nodes| && Explored(t, parent) && LiveChild(t, parent, w)
  {
    forall i: nat :: LiveChild(t, parent, i) ==> w <= i && Near(Worth(c, t, parent, i), Worth(c, t, parent, w))
  }

  lemma DriftBound(x: real, y: real)
    requires x <= y || Drifts(x, y)
    ensures (x - y) * 999999999999.0 <= Scale(x, 1.0)
  {
    if x > y {
      var z: real :| Near(x, z) && z <= y;
      assert Scale(x, z) <= Scale(x, 1.0) + (x - z);
      assert (x - z) * 1000000000000.0 == (x - z) * 999999999999.0 + (x - z);
    }
  }

  lemma ChildrenInOrder(t: Tree, parent: nat) returns (ids: seq<nat>)
    requires parent < |t.nodes| && Explored(t, parent)
    ensures ids == Sort(t, ById, LiveOf(t, t.nodes[parent].children))
    ensures ids != [] && Rising(ids) && AllVisited(t, ids) && Unvisited(t, ids) == []
    ensures forall i: nat :: i in ids <==> LiveChild(t, parent, i)
  {
    ids := Sort(t, ById, LiveOf(t, t.nodes[parent].children));
    SortRises(t, LiveOf(t, t.nodes[parent].children));
    hide Sort, LiveOf, Unvisited;
    forall k | 0 <= k < |ids|
      ensures ids[k] < |t.nodes| && t.nodes[ids[k]].visits > 0
    {
      assert ids[k] in ids && LiveChild(t, parent, ids[k]);
    }
    var i: nat :| LiveChild(t, parent, i);
    assert i in ids;
    var none := Unvisited(t, ids);
    FirstIsIn(none);
  }

  /** When every live child has been visited the choice takes no random draw and takes the best of them. */
  lemma ChoiceIsBest(c: MctsConfig, t: Tree, parent: nat, call: nat, draw: nat)
    requires parent < |t.nodes| && Explored(t, parent)
    ensures var (chosen, draws) := ChooseChild(c, t, parent, call, draw);
            draws == 0 && chosen.Some? && ChosenWell(c, t, parent, chosen.value)
  {
    hide Worth, Near, Scale, Sort, LiveOf, Unvisited, UctScan, LiveChild, Visits, Leads, Ties, ChooseChild;
    var ids := ChildrenInOrder(t, parent);
    var r := ChoiceIsScan(c, t, parent, call, draw, ids);
    NoneIsBetter(c, t, parent, ids, r);
    forall w: nat | LiveChild(t, parent, w) && Leads(c, t, parent, w)
      ensures r == w
    {
      LeaderFound(c, t, parent, ids, w);
    }
    forall w: nat | LiveChild(t, parent, w) && Ties(c, t, parent, w)
      ensures r == w
    {
      TiedFirst(c, t, parent, ids, w);
    }
  }

  lemma ChoiceIsScan(c: MctsConfig, t: Tree, parent: nat, call: nat, draw: nat, ids: seq<nat>) returns (r: nat)
    requires parent < |t.nodes| && ids == Sort(t, ById, LiveOf(t, t.nodes[parent].children)) && ids != []
    requires AllVisited(t, ids) && Unvisited(t, ids) == [] && forall i: nat :: i in ids <==> LiveChild(t, parent, i)
    ensures InTree(t, ids) && ids[0] < |t.nodes|
    ensures r == UctScan(c, t, Visits(t, parent), ids[1..], ids[0]) && LiveChild(t, parent, r)
    ensures ChooseChild(c, t, parent, call, draw) == (Some(r), 0)
  {
    hide Sort, LiveOf, Unvisited, UctScan, LiveChild, Visits;
    assert ids == [ids[0]] + ids[1..];
    r := UctScan(c, t, Visits(t, parent), ids[1..], ids[0]);
    assert r in ids;
  }

  lemma NoneIsBetter(c: MctsConfig, t: Tree, parent: nat, ids: seq<nat>, r: nat)
    requires parent < |t.nodes| && Explored(t, parent) && LiveChild(t, parent, r)
    requires ids != [] && Rising(ids) && AllVisited(t, ids) && forall i: nat :: i in ids <==> LiveChild(t, parent, i)
    requires InTree(t, ids) && r == UctScan(c, t, Visits(t, parent), ids[1..], ids[0])
    ensures forall i: nat :: LiveChild(t, parent, i) ==>
              (Worth(c, t, parent, i) - Worth(c, t, parent, r)) * 999999999999.0 <= Scale(Worth(c, t, parent, i), 1.0)
  {
    hide Worth, Near, Scale, UctScan, LiveChild, Visits, Drifts;
    assert ids == [ids[0]] + ids[1..];
    ScanBound(c, t, parent, ids[1..], ids[0]);
    forall i: nat | LiveChild(t, parent, i)
      ensures (Worth(c, t, parent, i) - Worth(c, t, parent, r)) * 999999999999.0 <= Scale(Worth(c, t, parent, i), 1.0)
    {
      assert i in ids;
      var k :| 0 <= k < |ids| && ids[k] == i;
      if k > 0 { assert ids[1..][k - 1] == i; }
      DriftBound(Worth(c, t, parent, i), Worth(c, t, parent, r));
    }
  }

  lemma LeaderFound(c: MctsConfig, t: Tree, parent: nat, ids: seq<nat>, w: nat)
    requires parent < |t.nodes| && Explored(t, parent) && LiveChild(t, parent, w) && Leads(c, t, parent, w)
    requires ids != [] && AllVisited(t, ids) && forall i: nat :: i in ids <==> LiveChild(t, parent, i)
    ensures InTree(t, ids) && UctScan(c, t, Visits(t, parent), ids[1..], ids[0]) == w
  {
    hide Worth, Near, Scale, UctScan, LiveChild, Visits;
    assert ids == [ids[0]] + ids[1..] && ids[0] in ids && w in ids;
    ScanFinds(c, t, parent, ids[1..], ids[0], w);
  }

  lemma TiedFirst(c: MctsConfig, t: Tree, parent: nat, ids: seq<nat>, w: nat)
    requires parent < |t.nodes| && Explored(t, parent) && LiveChild(t, parent, w) && Ties(c, t, parent, w)
    requires ids != [] && Rising(ids) && AllVisited(t, ids) && w in ids && forall i: nat :: i in ids <==> LiveChild(t, parent, i)
    ensures InTree(t, ids) && UctScan(c, t, Visits(t, parent), ids[1..], ids[0]) == w
  {
    hide Worth, Near, Scale, UctScan, LiveChild, Visits;
    assert ids[0] in ids;
    assert ids[0] == w;
    forall k | 0 <= k < |ids[1..]|
      ensures w <= ids[1..][k] && Near(Worth(c, t, parent, ids[1..][k]), Worth(c, t, parent, w))
    {
      assert ids[1..][k] in ids;
    }
    ScanStays(c, t, parent, ids[1..], w);
  }

  // ---------------------------------------------------------------------------
  // What is learned
  // ---------------------------------------------------------------------------

  /** From the branch up to the root, parent by parent. */
  ghost predicate PathUp(t: Tree, b: nat, path: seq<nat>) {
    && path != [] && path[0] == b
    && (forall k :: 0 <= k < |path| ==> path[k] < |t.nodes|)
    && (forall k :: 0 <= k < |path| - 1 ==> t.nodes[path[k]].parent == Some(path[k + 1]))
    && t.nodes[path[|path| - 1]].parent == None
  }

  lemma {:induction false} WalkUp(t: Tree, b: nat) returns (path: seq<nat>)
    requires WellFormed(t) && b < |t.nodes|
    ensures PathUp(t, b, path) && forall i: nat :: i in path <==> i < |t.nodes| && OnPath(t, i, b)
    decreases b
  {
    assert NodeOk(t, b);
    if t.nodes[b].parent.None? {
      path := [b];
    } else {
      var above := WalkUp(t, t.nodes[b].parent.value);
      path := [b] + above;
      forall k | 0 <= k < |path| - 1
        ensures t.nodes[path[k]].parent == Some(path[k + 1])
      {
        if k > 0 { assert path[k] == above[k - 1] && path[k + 1] == above[k]; }
      }
      assert path[|path| - 1] == above[|above| - 1];
    }
  }

  /** Backpropagation adds one visit and the value to the branch and each of its ancestors, and changes nothing else. */
  lemma ValueGoesUp(t: Tree, b: nat, value: Float) returns (path: seq<nat>)
    requires WellFormed(t) && Backpropagate(t, b, value).Ok?
    ensures value.Finite? && PathUp(t, b, path)
    ensures var r := Backpropagate(t, b, value).value;
            && r.cap == t.cap && |r.nodes| == |t.nodes|
            && forall i: nat :: i < |t.nodes| ==>
                 r.nodes[i] == if i in path then t.nodes[i].(visits := t.nodes[i].visits + 1, valueSum := t.nodes[i].valueSum + value.value)
                               else t.nodes[i]
  {
    path := WalkUp(t, b);
  }

  /** It is refused exactly for a value that is no number, for an unknown branch, or when a count of visits on the path
      is at its largest; and the error says which. */
  lemma BackpropagatesExactly(t: Tree, b: nat, value: Float) returns (path: seq<nat>)
    requires WellFormed(t)
    ensures b < |t.nodes| ==> PathUp(t, b, path)
    ensures Backpropagate(t, b, value).Ok? <==>
              value.Finite? && b < |t.nodes| && forall i :: i in path ==> i < |t.nodes| && t.nodes[i].visits < U64_MAX
    ensures Backpropagate(t, b, value).Err? ==>
              match Backpropagate(t, b, value).error
              case InvalidNumber => value == NonFinite
              case UnknownBranch(x) => x == b >= |t.nodes|
              case CounterOverflow => b < |t.nodes| && exists i :: i in path && i < |t.nodes| && t.nodes[i].visits >= U64_MAX
              case _ => false
  {
    path := [];
    if b < |t.nodes| {
      assert NodeOk(t, b);
      path := WalkUp(t, b);
    }
  }

  /** The event brings a value: a token or a score for a scored branch. */
  ghost predicate Teaches(event: EngineEvent, t: Tree) {
    !event.BranchExhausted? && event.branch < |t.nodes| && t.nodes[event.branch].hasValue
  }

  /** The statistics of the old nodes after a value for the branches of `path`; new nodes have none. */
  ghost predicate Learned(t: Tree, nodes: seq<BranchNode>, path: seq<nat>, value: real) {
    && |t.nodes| <= |nodes|
    && (forall i: nat :: i < |t.nodes| ==>
          && nodes[i].visits == t.nodes[i].visits + (if i in path then 1 else 0)
          && nodes[i].valueSum == t.nodes[i].valueSum + (if i in path then value else 0.0))
    && forall i: nat :: |t.nodes| <= i < |nodes| ==> nodes[i].visits == 0 && nodes[i].valueSum == 0.0
  }

  lemma {:induction false} SelectionLearnsNothing(c: MctsConfig, t: Tree, current: nat, call: nat, draw: nat)
    requires WellFormed(t) && current < |t.nodes| && Select(c, t, current, call, draw).Ok?
    ensures Learned(t, Select(c, t, current, call, draw).value.tree.nodes, [], 0.0)
    decreases |t.nodes| - current
  {
    hide WellFormed, ChooseChild, Fork, Learned;
    match t.nodes[current].state {
      case Active =>
        ForkLearnsNothing(t, current, c.expansionWidth);
        NothingLearned(t);
      case Expanded =>
        NothingLearned(t);
        var (child, draws) := ChooseChild(c, t, current, call, draw);
        if child.Some? {
          ChildIsNewer(t, current, child.value);
          SelectionLearnsNothing(c, t, child.value, call, draw + draws);
        }
      case _ =>
        NothingLearned(t);
    }
  }

  lemma ForkLearnsNothing(t: Tree, b: nat, width: nat)
    ensures Fork(t, b, width).Ok? ==> Learned(t, Fork(t, b, width).value.nodes, [], 0.0)
  {
    if Fork(t, b, width).Ok? {
      var r := Fork(t, b, width).value;
      forall i: nat | |t.nodes| <= i < |r.nodes|
        ensures r.nodes[i].visits == 0 && r.nodes[i].valueSum == 0.0
      {
        assert r.nodes[i] == ChildOf(t.nodes[b], i);
      }
    }
  }

  lemma RecordingTeaches(event: EngineEvent, t: Tree) returns (path: seq<nat>, value: real)
    requires WellFormed(t) && RecordEventValue(event, t).Ok?
    ensures Teaches(event, t) ==> PathUp(t, event.branch, path) && value == t.nodes[event.branch].value
    ensures !Teaches(event, t) ==> path == [] && value == 0.0
    ensures Learned(t, RecordEventValue(event, t).value.nodes, path, value)
  {
    hide WellFormed, PathUp, Backpropagate;
    if Teaches(event, t) {
      value := t.nodes[event.branch].value;
      path := ValueGoesUp(t, event.branch, Finite(value));
    } else {
      path, value := [], 0.0;
    }
  }

  lemma LearnedThen(t: Tree, u: Tree, nodes: seq<BranchNode>, path: seq<nat>, value: real)
    requires Learned(t, u.nodes, path, value) && |u.nodes| == |t.nodes| && Learned(u, nodes, [], 0.0)
    ensures Learned(t, nodes, path, value)
  {
  }

  /** Whatever the hook, a scored branch's value goes up its path once, with one visit, and nothing else is learned. */
  lemma MctsLearns(c: MctsConfig, call: nat, hook: PolicyCall, event: EngineEvent, t: Tree) returns (path: seq<nat>, value: real)
    requires WellFormed(t) && MctsStep(c, call, hook, event, t).Ok?
    ensures Teaches(event, t) ==> PathUp(t, event.branch, path) && value == t.nodes[event.branch].value
    ensures !Teaches(event, t) ==> path == [] && value == 0.0
    ensures Learned(t, MctsStep(c, call, hook, event, t).value.nodes, path, value)
  {
    hide WellFormed, PathUp, RecordEventValue, Select, Learned;
    if RecordEventValue(event, t).Ok? {
      path, value := RecordingTeaches(event, t);
      RecordEventValueHonours(event, t);
      var recorded := RecordEventValue(event, t).value;
      RootIsNode(recorded);
      if Select(c, recorded, 0, call, 0).Ok? {
        SelectionLearnsNothing(c, recorded, 0, call, 0);
        LearnedThen(t, recorded, Select(c, recorded, 0, call, 0).value.tree.nodes, path, value);
      }
    } else {
      path, value := [], 0.0;
    }
    NothingLearned(t);
  }

  lemma RootIsNode(t: Tree)
    requires WellFormed(t)
    ensures 0 < |t.nodes|
  {
  }

  lemma NothingLearned(t: Tree)
    ensures Learned(t, t.nodes, [], 0.0)
  {
  }

  // ---------------------------------------------------------------------------
  // The descent
  // ---------------------------------------------------------------------------

  /** Each branch is the child chosen at the one before, with the random draws used so far. */
  ghost predicate Descends(c: MctsConfig, t: Tree, call: nat, path: seq<nat>, draws: seq<nat>) {
    && |path| == |draws| > 0
    && (forall k :: 0 <= k < |path| ==> path[k] < |t.nodes|)
    && forall k :: 0 <= k < |path| - 1 ==> DescendsAt(c, t, call, path[k], draws[k], path[k + 1], draws[k + 1])
  }

  ghost predicate DescendsAt(c: MctsConfig, t: Tree, call: nat, b: nat, draw: nat, child: nat, drawn: nat) {
    && b < |t.nodes| && t.nodes[b].state == Expanded
    && draw <= drawn && ChooseChild(c, t, b, call, draw) == (Some(child), drawn - draw)
  }

  lemma FirstStep(c: MctsConfig, t: Tree, call: nat, b: nat, draw: nat, child: nat, drawn: nat)
    requires b < |t.nodes| && t.nodes[b].state == Expanded
    requires draw <= drawn && ChooseChild(c, t, b, call, draw) == (Some(child), drawn - draw)
    ensures DescendsAt(c, t, call, b, draw, child, drawn)
  {
  }

  /** Selection follows the chosen children until it meets a branch that is not expanded or has no live child. It forks
      an active one above the depth limit and continues a random child of it, continues an active one at the limit, and
      does nothing elsewhere. */
  lemma {:induction false} SelectDescends(c: MctsConfig, t: Tree, current: nat, call: nat, draw: nat)
    returns (path: seq<nat>, draws: seq<nat>)
    requires WellFormed(t) && current < |t.nodes|
    ensures Descends(c, t, call, path, draws) && path[0] == current && draws[0] == draw
    ensures var b, d := path[|path| - 1], draws[|draws| - 1];
            && (t.nodes[b].state == Expanded ==> !t.AnyChildLive(b))
            && SelectWithoutForking(c, t, current, call, draw) == (if t.ActiveAt(b) then Some(b) else None)
            && Select(c, t, current, call, draw) ==
                 if !t.ActiveAt(b) then Ok(L.Effect(t, []))
                 else if t.nodes[b].depth >= c.maxDepth then Ok(L.Effect(t, [Continue(b)]))
                 else match Fork(t, b, c.expansionWidth)
                      case Err(error) => Err(error)
                      case Ok(forked) =>
                        Ok(L.Effect(forked, [ForkAt(b, c.expansionWidth),
                                             Continue(|t.nodes| + c.sample(call, d) % c.expansionWidth)]))
    decreases |t.nodes| - current
  {
    hide WellFormed, ChooseChild, Fork;
    var (child, taken) := ChooseChild(c, t, current, call, draw);
    if t.nodes[current].state == Expanded && child.Some? {
      ChildIsNewer(t, current, child.value);
      var p, d := SelectDescends(c, t, child.value, call, draw + taken);
      path, draws := [current] + p, [draw] + d;
      DescendsFrom(c, t, call, current, draw, p, d);
    } else {
      path, draws := [current], [draw];
      if t.ActiveAt(current) && t.nodes[current].depth < c.maxDepth && Fork(t, current, c.expansionWidth).Ok? {
        SomeWidth(t, current, c.expansionWidth);
        var at := c.sample(call, draw) % c.expansionWidth;
        assert IdsFrom(|t.nodes|, c.expansionWidth)[at] == |t.nodes| + at;
        assert [ForkAt(current, c.expansionWidth)] + ContinueEach([|t.nodes| + at])
            == [ForkAt(current, c.expansionWidth), Continue(|t.nodes| + at)];
      }
    }
  }

  lemma SomeWidth(t: Tree, b: nat, width: nat)
    ensures Fork(t, b, width).Ok? ==> width > 0
  {
  }

  lemma DescendsFrom(c: MctsConfig, t: Tree, call: nat, current: nat, draw: nat, path: seq<nat>, draws: seq<nat>)
    requires current < |t.nodes| && t.nodes[current].state == Expanded && Descends(c, t, call, path, draws)
    requires draw <= draws[0] && ChooseChild(c, t, current, call, draw) == (Some(path[0]), draws[0] - draw)
    ensures Descends(c, t, call, [current] + path, [draw] + draws)
  {
    hide ChooseChild, DescendsAt;
    var p, d := [current] + path, [draw] + draws;
    forall k | 0 <= k < |p| - 1
      ensures DescendsAt(c, t, call, p[k], d[k], p[k + 1], d[k + 1])
    {
      if k > 0 {
        assert DescendsAt(c, t, call, path[k - 1], draws[k - 1], path[k], draws[k]);
      } else {
        FirstStep(c, t, call, current, draw, path[0], draws[0]);
      }
    }
  }

  /** The event leaves its branch without a value to learn from. */
  ghost predicate Unscored(event: EngineEvent, t: Tree) {
    !event.BranchExhausted? && t.Has(event.branch) && !t.nodes[event.branch].hasValue
  }

  /** What each hook answers once the value is recorded: from the root down to the selected branch, or a random child of
      an adaptive fork. A token without a score is waited for. */
  lemma MctsAnswers(c: MctsConfig, call: nat, hook: PolicyCall, event: EngineEvent, t: Tree)
    returns (recorded: Tree, path: seq<nat>, draws: seq<nat>)
    requires WellFormed(t) && MctsStep(c, call, hook, event, t).Ok?
    ensures RecordEventValue(event, t) == Ok(recorded) && WellFormed(recorded)
    ensures Descends(c, recorded, call, path, draws) && path[0] == 0 && draws[0] == 0
    ensures var b, d, a := path[|path| - 1], draws[|draws| - 1], MctsStep(c, call, hook, event, t).value;
            && (recorded.nodes[b].state == Expanded ==> !recorded.AnyChildLive(b))
            && (hook.OnEvent? && (Unscored(event, t) || !recorded.ActiveAt(b)) ==> a == PolicyAnswer(recorded.nodes, []))
            && (hook.OnEvent? && !Unscored(event, t) && recorded.ActiveAt(b) ==>
                  if recorded.nodes[b].depth >= c.maxDepth then a == PolicyAnswer(recorded.nodes, [Continue(b)])
                  else
                    && Fork(recorded, b, c.expansionWidth).Ok? && c.expansionWidth > 0
                    && a.nodes == Fork(recorded, b, c.expansionWidth).value.nodes
                    && a.commands == [ForkAt(b, c.expansionWidth), Continue(|t.nodes| + c.sample(call, d) % c.expansionWidth)])
            && (hook.WithoutForking? ==>
                  a == PolicyAnswer(recorded.nodes, if recorded.ActiveAt(b) then [Continue(b)] else []))
            && (hook.AfterAdaptiveFork? ==>
                  a == PolicyAnswer(recorded.nodes, if hook.children == [] then []
                                                    else [Continue(hook.children[c.sample(call, 0) % |hook.children|])]))
  {
    hide WellFormed, Select, SelectWithoutForking, Fork, Backpropagate;
    RecordsOrStays(event, t);
    recorded := RecordEventValue(event, t).value;
    RecordEventValueHonours(event, t);
    RootIsNode(recorded);
    path, draws := SelectDescends(c, recorded, 0, call, 0);
    SomeWidth(recorded, path[|path| - 1], c.expansionWidth);
  }

  lemma RecordsOrStays(event: EngineEvent, t: Tree)
    requires WellFormed(t)
    ensures Unscored(event, t) ==> RecordEventValue(event, t) == Ok(t)
    ensures RecordEventValue(event, t).Ok? ==> |RecordEventValue(event, t).value.nodes| == |t.nodes|
  {
  }
}
