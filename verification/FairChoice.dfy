/** The policy's draw and the sampling behind it: ties between unvisited children are broken evenly
    (scheduler/src/policies/mcts.rs). */
module FairChoice {
  import opened Common
  import opened Arena
  import opened Commands
  import opened CommandStream
  import opened Ranking
  import opened Mcts
  import opened RandomIndex
  import L = Lifecycle

  lemma {:induction false} LiveDistinct(t: Tree, ids: seq<nat>)
    requires Distinct(ids)
    ensures Distinct(LiveOf(t, ids))
  {
    if ids != [] {
      LiveDistinct(t, ids[1..]);
      FirstStaysNew(ids, LiveOf(t, ids[1..]));
    }
  }

  lemma {:induction false} UnvisitedDistinct(t: Tree, ids: seq<nat>)
    requires InTree(t, ids) && Distinct(ids)
    ensures Distinct(Unvisited(t, ids)) && |Unvisited(t, ids)| <= |ids|
  {
    if ids != [] {
      UnvisitedDistinct(t, ids[1..]);
      FirstStaysNew(ids, Unvisited(t, ids[1..]));
    }
  }

  lemma FirstStaysNew(ids: seq<nat>, rest: seq<nat>)
    requires ids != [] && Distinct(ids) && Distinct(rest) && forall i :: i in rest ==> i in ids[1..]
    ensures Distinct([ids[0]] + rest)
  {
    assert ids[0] !in ids[1..];
    forall k | 0 <= k < |rest| ensures rest[k] != ids[0] { assert rest[k] in rest; }
  }

  lemma {:induction false} LiveNoMore(t: Tree, ids: seq<nat>)
    ensures |LiveOf(t, ids)| <= |ids|
  {
    if ids != [] { LiveNoMore(t, ids[1..]); }
  }

  /** The children among which a draw decides. */
  function Tied(t: Tree, parent: nat): (r: seq<nat>)
    requires parent < |t.nodes|
    ensures forall i :: i in r <==> i in t.nodes[parent].children && t.LiveAt(i) && t.nodes[i].visits == 0
  {
    Unvisited(t, Sort(t, ById, LiveOf(t, t.nodes[parent].children)))
  }

  lemma TiedDistinct(t: Tree, parent: nat)
    requires parent < |t.nodes| && Distinct(t.nodes[parent].children)
    ensures Distinct(Tied(t, parent)) && |Tied(t, parent)| <= |t.nodes[parent].children|
  {
    var live := LiveOf(t, t.nodes[parent].children);
    LiveDistinct(t, t.nodes[parent].children);
    LiveNoMore(t, t.nodes[parent].children);
    L.SortKeepsDistinct(t, ById, live);
    UnvisitedDistinct(t, Sort(t, ById, live));
  }

  /** The accepted 64-bit samples with which the policy picks the child. */
  ghost function Picking(c: MctsConfig, t: Tree, parent: nat, call: nat, draw: nat, child: nat): set<int>
    requires parent < |t.nodes| && 0 < |Tied(t, parent)| < TWO_TO_64
  {
    set s: int | 0 <= s < TWO_TO_64 && IsAccepted(s, |Tied(t, parent)|)
                 && ChooseChild(c.(sample := (x, y) => s), t, parent, call, draw).0 == Some(child)
  }

  lemma PickedByResidue(c: MctsConfig, t: Tree, parent: nat, call: nat, draw: nat, sample: nat)
    requires parent < |t.nodes| && Tied(t, parent) != []
    ensures ChooseChild(c.(sample := (x, y) => sample), t, parent, call, draw).0
         == Some(Tied(t, parent)[sample % |Tied(t, parent)|])
  {
    assert Tied(t, parent)[0] in Tied(t, parent);
    assert Tied(t, parent)[0] in Sort(t, ById, LiveOf(t, t.nodes[parent].children));
  }

  lemma PickingIsChoosing(c: MctsConfig, t: Tree, parent: nat, call: nat, draw: nat, index: nat)
    requires parent < |t.nodes| && Distinct(t.nodes[parent].children) && index < |Tied(t, parent)| < TWO_TO_64
    ensures Picking(c, t, parent, call, draw, Tied(t, parent)[index]) == Choosing(|Tied(t, parent)|, index)
  {
    hide Tied, ChooseChild, IsAccepted;
    var tied := Tied(t, parent);
    TiedDistinct(t, parent);
    forall s: int | 0 <= s < TWO_TO_64
      ensures ChooseChild(c.(sample := (x, y) => s), t, parent, call, draw).0 == Some(tied[index]) <==> s % |tied| == index
    {
      PickedByResidue(c, t, parent, call, draw, s);
    }
  }

  /** Every live unvisited child is picked by equally many of the accepted samples, which it shares out among
      exactly the tied children. */
  lemma TiesAreFair(c: MctsConfig, t: Tree, parent: nat, call: nat, draw: nat, a: nat, b: nat)
    requires parent < |t.nodes| && Distinct(t.nodes[parent].children) && |t.nodes[parent].children| < TWO_TO_64
    requires a in Tied(t, parent) && b in Tied(t, parent)
    ensures 0 < |Tied(t, parent)| < TWO_TO_64
    ensures |Picking(c, t, parent, call, draw, a)| == |Picking(c, t, parent, call, draw, b)|
    ensures |Picking(c, t, parent, call, draw, a)| * |Tied(t, parent)| == TWO_TO_64 - Threshold(|Tied(t, parent)|)
  {
    hide Tied, Picking, Choosing, Threshold;
    var tied := Tied(t, parent);
    TiedDistinct(t, parent);
    var i :| 0 <= i < |tied| && tied[i] == a;
    var j :| 0 <= j < |tied| && tied[j] == b;
    PickingIsChoosing(c, t, parent, call, draw, i);
    PickingIsChoosing(c, t, parent, call, draw, j);
    Uniform(|tied|, i, j);
  }

  /** In the arena of every scheduler children are distinct and few, since a fork numbers them consecutively. */
  ghost predicate Brothers(t: Tree) {
    forall i :: 0 <= i < |t.nodes| ==> Distinct(t.nodes[i].children) && |t.nodes[i].children| <= MAX_BRANCH_WIDTH
  }

  lemma {:induction false} ReplayKeepsBrothers(t: Tree, commands: seq<Command>)
    requires Brothers(t) && Replay(t, commands).Ok?
    ensures Brothers(Replay(t, commands).value)
    decreases |commands|
  {
    if commands != [] {
      ApplyKeepsBrothers(t, commands[0]);
      ReplayKeepsBrothers(Apply(t, commands[0]).value, commands[1..]);
    }
  }

  lemma ApplyKeepsBrothers(t: Tree, c: Command)
    requires Brothers(t) && Apply(t, c).Ok?
    ensures Brothers(Apply(t, c).value)
  {
    if c.ForkAt? {
      var r := Apply(t, c).value;
      forall i | |t.nodes| <= i < |r.nodes| ensures r.nodes[i].children == [] { assert r.nodes[i] == ChildOf(t.nodes[c.branch], i); }
    }
  }

  lemma LogKeepsBrothers(cap: nat, log: seq<Command>, t: Tree)
    requires Replays(FreshTree(cap), log, t)
    ensures Brothers(t)
  {
    ReplayKeepsBrothers(FreshTree(cap), log);
    var r := Replay(FreshTree(cap), log).value;
    forall i | 0 <= i < |t.nodes|
      ensures t.nodes[i].children == r.nodes[i].children
    {
      assert SameShape(r.nodes[i], t.nodes[i]);
    }
  }
}
