/** The MCTS policy (scheduler/src/policies/mcts.rs) and value backpropagation (scheduler/src/types.rs). */
module Mcts {
  import opened Common
  import opened Arena
  import opened Commands
  import opened Ranking
  import opened Policies
  import L = Lifecycle

  /** `sample(call, draw)` is the accepted random number of one draw; `ln` and `sqrt` are the f64 functions. */
  datatype MctsConfig = MctsConfig(
    expansionWidth: nat,
    maxDepth: nat,
    explorationWeight: real,
    ln: real -> real,
    sqrt: real -> real,
    sample: (nat, nat) -> nat)

  const UCT_RELATIVE_TOLERANCE: real := 0.000000000001

  // ---------------------------------------------------------------------------
  // Backpropagation
  // ---------------------------------------------------------------------------

  /** Is `i` the branch `b` or one of its ancestors? */
  predicate OnPath(t: Tree, i: nat, b: nat)
    requires WellFormed(t) && b < |t.nodes|
    decreases b
  {
    assert NodeOk(t, b);
    i == b || (t.nodes[b].parent.Some? && OnPath(t, i, t.nodes[b].parent.value))
  }

  function Bumped(n: BranchNode, value: real): BranchNode {
    n.(visits := n.visits + 1, valueSum := n.valueSum + value)
  }

  /** One visit and one value more on every node of the path, nothing else. */
  function BumpPath(t: Tree, b: nat, value: real): (r: Tree)
    requires WellFormed(t) && b < |t.nodes|
  {
    t.(nodes := seq(|t.nodes|, i requires 0 <= i < |t.nodes| =>
         if OnPath(t, i, b) then Bumped(t.nodes[i], value) else t.nodes[i]))
  }

  predicate PathHasRoom(t: Tree, b: nat)
    requires WellFormed(t) && b < |t.nodes|
  {
    forall i: nat :: i < |t.nodes| && OnPath(t, i, b) ==> t.nodes[i].visits < U64_MAX
  }

  function Backpropagate(t: Tree, b: nat, value: Float): Result<Tree>
    requires WellFormed(t)
  {
    if value.NonFinite? then Err(InvalidNumber)
    else if !t.Has(b) then Err(UnknownBranch(b))
    else if !PathHasRoom(t, b) then Err(CounterOverflow)
    else Ok(BumpPath(t, b, value.value))
  }

  ghost predicate OnlyStatistics(a: Tree, b: Tree) {
    && a.cap == b.cap
    && |a.nodes| == |b.nodes|
    && forall i :: 0 <= i < |a.nodes| ==>
         b.nodes[i] == a.nodes[i].(visits := b.nodes[i].visits, valueSum := b.nodes[i].valueSum)
  }

  lemma StatisticsHonour(a: Tree, b: Tree)
    requires WellFormed(a) && OnlyStatistics(a, b)
    ensures Honours(a, b, []) && WellFormed(b)
    ensures forall i: nat :: a.ActiveAt(i) <==> b.ActiveAt(i)
  {
    forall i: nat | i < |b.nodes|
      ensures NodeOk(b, i)
    {
      assert NodeOk(a, i);
    }
  }

  // ---------------------------------------------------------------------------
  // Selection
  // ---------------------------------------------------------------------------

  predicate ScoresNearlyEqual(left: real, right: real) {
    Abs(left - right) <= UCT_RELATIVE_TOLERANCE * MaxReal(MaxReal(Abs(left), Abs(right)), 1.0)
  }

  function LiveOf(t: Tree, ids: seq<nat>): (r: seq<nat>)
    ensures InTree(t, r)
    ensures forall i :: i in r <==> i in ids && t.LiveAt(i)
  {
    if ids == [] then []
    else if t.LiveAt(ids[0]) then [ids[0]] + LiveOf(t, ids[1..])
    else LiveOf(t, ids[1..])
  }

  function Unvisited(t: Tree, ids: seq<nat>): (r: seq<nat>)
    requires InTree(t, ids)
    ensures InTree(t, r)
    ensures forall i :: i in r <==> i in ids && i < |t.nodes| && t.nodes[i].visits == 0
  {
    if ids == [] then []
    else if t.nodes[ids[0]].visits == 0 then [ids[0]] + Unvisited(t, ids[1..])
    else Unvisited(t, ids[1..])
  }

  function UctScore(c: MctsConfig, parentVisits: nat, n: BranchNode): real
    requires n.visits > 0
  {
    var visits := n.visits as real;
    n.valueSum / visits + c.explorationWeight * c.sqrt(c.ln(parentVisits as real) / visits)
  }

  /** The scan over visited children, carrying the best one so far. */
  function UctScan(c: MctsConfig, t: Tree, parentVisits: nat, ids: seq<nat>, best: nat): (r: nat)
    requires InTree(t, ids) && best < |t.nodes| && t.nodes[best].visits > 0
    requires forall k :: 0 <= k < |ids| ==> t.nodes[ids[k]].visits > 0
    ensures r == best || r in ids
    decreases |ids|
  {
    if ids == [] then best
    else
      var score, bestScore := UctScore(c, parentVisits, t.nodes[ids[0]]), UctScore(c, parentVisits, t.nodes[best]);
      if !ScoresNearlyEqual(score, bestScore) && score > bestScore then UctScan(c, t, parentVisits, ids[1..], ids[0])
      else if ScoresNearlyEqual(score, bestScore) && ids[0] < best then UctScan(c, t, parentVisits, ids[1..], ids[0])
      else UctScan(c, t, parentVisits, ids[1..], best)
  }

  function Visits(t: Tree, b: nat): nat
    requires b < |t.nodes|
  {
    if t.nodes[b].visits == 0 then 1 else t.nodes[b].visits
  }

  /** The chosen child, and how many random draws the choice took. */
  function ChooseChild(c: MctsConfig, t: Tree, parent: nat, call: nat, draw: nat): (r: (Option<nat>, nat))
    requires parent < |t.nodes|
    ensures r.0.Some? ==> r.0.value in t.nodes[parent].children && t.LiveAt(r.0.value)
    ensures r.0.None? <==> !t.AnyChildLive(parent)
  {
    var children := Sort(t, ById, LiveOf(t, t.nodes[parent].children));
    if children == [] then
      assert forall d :: d in t.nodes[parent].children && t.LiveAt(d) ==> d in children;
      (None, 0)
    else
      assert children[0] in children;
      var unvisited := Unvisited(t, children);
      if unvisited != [] then
        var picked := unvisited[c.sample(call, draw) % |unvisited|];
        assert picked in unvisited;
        (Some(picked), 1)
      else
        assert forall k :: 0 <= k < |children| ==> children[k] in children && children[k] !in unvisited;
        (Some(UctScan(c, t, Visits(t, parent), children[1..], children[0])), 0)
  }

  function Select(c: MctsConfig, t: Tree, current: nat, call: nat, draw: nat): Result<L.Effect>
    requires WellFormed(t) && current < |t.nodes|
    decreases |t.nodes| - current
  {
    assert NodeOk(t, current);
    match t.nodes[current].state
    case Active =>
      if t.nodes[current].depth < c.maxDepth then
        var forked :- Fork(t, current, c.expansionWidth);
        var children := IdsFrom(|t.nodes|, c.expansionWidth);
        Ok(L.Effect(forked,
                    [ForkAt(current, c.expansionWidth)] + ContinueEach([children[c.sample(call, draw) % |children|]])))
      else Ok(L.Effect(t, [Continue(current)]))
    case Expanded =>
      var (child, draws) := ChooseChild(c, t, current, call, draw);
      if child.None? then Ok(L.Effect(t, [])) else Select(c, t, child.value, call, draw + draws)
    case _ => Ok(L.Effect(t, []))
  }

  function SelectWithoutForking(c: MctsConfig, t: Tree, current: nat, call: nat, draw: nat): (r: Option<nat>)
    requires WellFormed(t) && current < |t.nodes|
    ensures r.Some? ==> t.ActiveAt(r.value)
    decreases |t.nodes| - current
  {
    assert NodeOk(t, current);
    match t.nodes[current].state
    case Active => Some(current)
    case Expanded =>
      var (child, draws) := ChooseChild(c, t, current, call, draw);
      if child.None? then None else SelectWithoutForking(c, t, child.value, call, draw + draws)
    case _ => None
  }

  function RecordEventValue(event: EngineEvent, t: Tree): Result<Tree>
    requires WellFormed(t)
  {
    if event.BranchExhausted? then Ok(t)
    else if !t.Has(event.branch) then Err(UnknownBranch(event.branch))
    else if t.nodes[event.branch].hasValue then Backpropagate(t, event.branch, Finite(t.nodes[event.branch].value))
    else Ok(t)
  }

  lemma RecordEventValueHonours(event: EngineEvent, t: Tree)
    requires WellFormed(t) && RecordEventValue(event, t).Ok?
    ensures var r := RecordEventValue(event, t).value;
            Honours(t, r, []) && WellFormed(r) && forall i: nat :: t.ActiveAt(i) <==> r.ActiveAt(i)
  {
    StatisticsHonour(t, RecordEventValue(event, t).value);
  }

  function MctsOnEvent(c: MctsConfig, call: nat, event: EngineEvent, t: Tree): Result<L.Effect>
    requires WellFormed(t)
  {
    if !event.BranchExhausted? && !t.Has(event.branch) then Err(UnknownBranch(event.branch))
    else if !event.BranchExhausted? && !t.nodes[event.branch].hasValue then Ok(L.Effect(t, []))
    else
      var recorded :- RecordEventValue(event, t);
      RecordEventValueHonours(event, t);
      Select(c, recorded, 0, call, 0)
  }

  function MctsStep(c: MctsConfig, call: nat, hook: PolicyCall, event: EngineEvent, t: Tree): Result<PolicyAnswer>
    requires WellFormed(t)
  {
    match hook
    case OnEvent =>
      var e :- MctsOnEvent(c, call, event, t);
      Ok(Answer(e))
    case WithoutForking =>
      var recorded :- RecordEventValue(event, t);
      RecordEventValueHonours(event, t);
      var chosen := SelectWithoutForking(c, recorded, 0, call, 0);
      Ok(PolicyAnswer(recorded.nodes, if chosen.Some? then [Continue(chosen.value)] else []))
    case AfterAdaptiveFork(children) =>
      var recorded :- RecordEventValue(event, t);
      Ok(PolicyAnswer(recorded.nodes,
                      if children == [] then [] else [Continue(children[c.sample(call, 0) % |children|])]))
  }

  function MctsPolicy(c: MctsConfig): PolicyFn {
    (call: nat, hook: PolicyCall, event: EngineEvent, t: GoodTree) => MctsStep(c, call, hook, event, t)
  }

  lemma ChildIsNewer(t: Tree, b: nat, child: nat)
    requires WellFormed(t) && b < |t.nodes| && child in t.nodes[b].children
    ensures b < child < |t.nodes|
  {
    assert NodeOk(t, b);
  }

  lemma SelectActiveHonours(c: MctsConfig, t: Tree, current: nat, call: nat, draw: nat)
    requires WellFormed(t) && t.ActiveAt(current) && Select(c, t, current, call, draw).Ok?
    ensures var e := Select(c, t, current, call, draw).value; Honours(t, e.tree, e.commands)
  {
    if t.nodes[current].depth < c.maxDepth {
      var children := IdsFrom(|t.nodes|, c.expansionWidth);
      ForkThenContinueHonours(t, current, c.expansionWidth, [children[c.sample(call, draw) % |children|]]);
    } else {
      ContinueHonours(t, current);
    }
  }

  lemma {:induction false} SelectHonours(c: MctsConfig, t: Tree, current: nat, call: nat, draw: nat)
    requires WellFormed(t) && current < |t.nodes| && Select(c, t, current, call, draw).Ok?
    ensures var e := Select(c, t, current, call, draw).value; Honours(t, e.tree, e.commands)
    decreases |t.nodes| - current
  {
    hide WellFormed, Honours, ChooseChild, Fork;
    HonoursNothing(t);
    match t.nodes[current].state {
      case Active =>
        SelectActiveHonours(c, t, current, call, draw);
      case Expanded =>
        var (child, draws) := ChooseChild(c, t, current, call, draw);
        if child.Some? {
          ChildIsNewer(t, current, child.value);
          SelectHonours(c, t, child.value, call, draw + draws);
        }
      case _ =>
    }
  }

  lemma MctsHonours(c: MctsConfig, call: nat, hook: PolicyCall, event: EngineEvent, t: Tree)
    requires WellFormed(t) && MctsStep(c, call, hook, event, t).Ok?
    requires hook.AfterAdaptiveFork? ==> forall k :: 0 <= k < |hook.children| ==> t.ActiveAt(hook.children[k])
    ensures var a := MctsStep(c, call, hook, event, t).value; Honours(t, AnswerTree(t, a), a.commands)
  {
    HonoursNothing(t);
    match hook {
      case OnEvent =>
        if event.BranchExhausted? || t.nodes[event.branch].hasValue {
          RecordEventValueHonours(event, t);
          var recorded := RecordEventValue(event, t).value;
          SelectHonours(c, recorded, 0, call, 0);
          var e := Select(c, recorded, 0, call, 0).value;
          HonoursThen(t, [], recorded, e.commands, e.tree);
          assert [] + e.commands == e.commands;
        }
      case WithoutForking =>
        RecordEventValueHonours(event, t);
        var recorded := RecordEventValue(event, t).value;
        var chosen := SelectWithoutForking(c, recorded, 0, call, 0);
        HonoursNothing(recorded);
        if chosen.Some? {
          ContinueHonours(recorded, chosen.value);
          HonoursThen(t, [], recorded, [Continue(chosen.value)], recorded);
          assert [] + [Continue(chosen.value)] == [Continue(chosen.value)];
        }
      case AfterAdaptiveFork(children) =>
        RecordEventValueHonours(event, t);
        var recorded := RecordEventValue(event, t).value;
        if children != [] {
          var chosen := children[c.sample(call, 0) % |children|];
          ContinueHonours(recorded, chosen);
          HonoursThen(t, [], recorded, [Continue(chosen)], recorded);
          assert [] + [Continue(chosen)] == [Continue(chosen)];
        }
    }
  }
}
