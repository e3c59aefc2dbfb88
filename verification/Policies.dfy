/** The three built-in policies as functions of the arena (scheduler/src/policies, scheduler/src/policy.rs). */
module Policies {
  import opened Common
  import opened Arena
  import opened Commands
  import opened CommandStream
  import opened Ranking
  import opened Lifecycle
  import opened Termination

  /** Which of the three policy hooks is called. */
  datatype PolicyCall = OnEvent | WithoutForking | AfterAdaptiveFork(children: seq<nat>)

  /** What a policy left behind in the arena it was lent, and the commands it returned. */
  datatype PolicyAnswer = PolicyAnswer(nodes: seq<BranchNode>, commands: seq<Command>)

  /** A policy; the first argument numbers its calls, so that an answer may depend on earlier calls
      and on random draws. */
  type PolicyFn = (nat, PolicyCall, EngineEvent, GoodTree) -> Result<PolicyAnswer>

  function Answer(e: Effect): PolicyAnswer {
    PolicyAnswer(e.tree.nodes, e.commands)
  }

  function AnswerTree(t: Tree, a: PolicyAnswer): Tree {
    Tree(a.nodes, t.cap)
  }

  /** The commands account for every structural change, and token counts and values were left alone. */
  ghost predicate Honours(t: Tree, tree: Tree, commands: seq<Command>) {
    && Replays(t, commands, tree)
    && KeepsCounts(t, tree)
  }

  lemma HonoursNothing(t: Tree)
    ensures Honours(t, t, [])
  {
  }

  lemma HonoursThen(a: Tree, xs: seq<Command>, b: Tree, ys: seq<Command>, c: Tree)
    requires Honours(a, b, xs) && Honours(b, c, ys)
    ensures Honours(a, c, xs + ys)
  {
    ReplaysTransitive(a, xs, b, ys, c);
    KeepsCountsThen(a, b, c);
  }

  lemma KeepsCountsThen(a: Tree, b: Tree, c: Tree)
    requires KeepsCounts(a, b) && KeepsCounts(b, c)
    ensures KeepsCounts(a, c)
  {
    assert forall i {:trigger InheritsParent(c, i)} :: |a.nodes| <= i < |b.nodes| ==> InheritsParent(b, i);
  }

  lemma EndsHonours(a: Tree, e: Effect)
    requires EndsBy(a, e)
    ensures Honours(a, e.tree, e.commands)
  {
  }

  // ---------------------------------------------------------------------------
  // Steps shared by the policies
  // ---------------------------------------------------------------------------

  function ContinueEach(ids: seq<nat>): (r: seq<Command>)
    ensures |r| == |ids|
    ensures forall k :: 0 <= k < |ids| ==> r[k] == Continue(ids[k])
  {
    seq(|ids|, k requires 0 <= k < |ids| => Continue(ids[k]))
  }

  lemma {:induction false} ContinuesHonour(t: Tree, ids: seq<nat>)
    requires WellFormed(t) && forall k :: 0 <= k < |ids| ==> t.ActiveAt(ids[k])
    ensures Replay(t, ContinueEach(ids)) == Ok(t)
    ensures Honours(t, t, ContinueEach(ids))
    decreases |ids|
  {
    if ids != [] {
      assert NodeOk(t, ids[0]);
      assert ContinueEach(ids)[1..] == ContinueEach(ids[1..]);
      ContinuesHonour(t, ids[1..]);
    }
  }

  lemma ForkHonours(t: Tree, b: nat, width: nat)
    requires WellFormed(t) && Fork(t, b, width).Ok?
    ensures Honours(t, Fork(t, b, width).value, [ForkAt(b, width)])
    ensures WellFormed(Fork(t, b, width).value)
    ensures forall c: nat :: c in IdsFrom(|t.nodes|, width) ==> Fork(t, b, width).value.ActiveAt(c)
  {
    var r := Fork(t, b, width).value;
    ForkKeepsWellFormed(t, b, width);
    ReplaysOne(t, ForkAt(b, width), r);
    forall i | |t.nodes| <= i < |r.nodes|
      ensures InheritsParent(r, i) && r.ActiveAt(i)
    {
      assert r.nodes[i] == ChildOf(t.nodes[b], i);
    }
  }

  function ForkEach(t: Tree, ids: seq<nat>, width: nat): Result<Effect>
    decreases |ids|
  {
    if ids == [] then Ok(Effect(t, []))
    else
      var forked :- Fork(t, ids[0], width);
      var rest :- ForkEach(forked, ids[1..], width);
      Ok(Effect(rest.tree, [ForkAt(ids[0], width)] + rest.commands))
  }

  lemma {:induction false} ForkEachHonours(t: Tree, ids: seq<nat>, width: nat)
    requires WellFormed(t) && ForkEach(t, ids, width).Ok?
    ensures var e := ForkEach(t, ids, width).value; WellFormed(e.tree) && Honours(t, e.tree, e.commands)
    decreases |ids|
  {
    if ids == [] {
      HonoursNothing(t);
    } else {
      ForkHonours(t, ids[0], width);
      hide WellFormed, Honours;
      var forked := Fork(t, ids[0], width).value;
      ForkEachHonours(forked, ids[1..], width);
      var rest := ForkEach(forked, ids[1..], width).value;
      HonoursThen(t, [ForkAt(ids[0], width)], forked, rest.commands, rest.tree);
    }
  }

  // ---------------------------------------------------------------------------
  // Beam
  // ---------------------------------------------------------------------------

  datatype BeamConfig = BeamConfig(width: nat, forkWidth: nat, forkAtTokens: set<nat>)

  predicate BeamConfigOk(c: BeamConfig) {
    1 <= c.width <= MAX_BRANCH_WIDTH && 1 <= c.forkWidth <= MAX_BRANCH_WIDTH
  }

  function LeastTokens(t: Tree, ids: seq<nat>): (m: nat)
    requires ids != [] && InTree(t, ids)
    ensures forall k :: 0 <= k < |ids| ==> m <= t.nodes[ids[k]].tokens
    ensures exists k :: 0 <= k < |ids| && t.nodes[ids[k]].tokens == m
  {
    if |ids| == 1 then t.nodes[ids[0]].tokens
    else Min(t.nodes[ids[0]].tokens, LeastTokens(t, ids[1..]))
  }

  function WithTokens(t: Tree, ids: seq<nat>, tokens: nat): (r: seq<nat>)
    requires InTree(t, ids)
    ensures InTree(t, r)
    ensures forall k :: 0 <= k < |r| ==> r[k] in ids && t.nodes[r[k]].tokens == tokens
  {
    if ids == [] then []
    else if t.nodes[ids[0]].tokens == tokens then [ids[0]] + WithTokens(t, ids[1..], tokens)
    else WithTokens(t, ids[1..], tokens)
  }

  /** The survivors furthest behind advance together. */
  function BeamContinues(t: Tree): seq<Command> {
    var ranked := Sort(t, ByLogprob, t.ActiveFrontier());
    if ranked == [] then [] else ContinueEach(WithTokens(t, ranked, LeastTokens(t, ranked)))
  }

  /** The branches ranked beyond the beam width, in id order. */
  function BeamVictims(width: nat, t: Tree): (r: seq<nat>)
    ensures InTree(t, r)
  {
    var ranked := Sort(t, ByLogprob, t.ActiveFrontier());
    if |ranked| <= width then [] else Sort(t, ById, ranked[width..])
  }

  function BeamPruneAndContinue(width: nat, t: Tree): Result<Effect> {
    var kills :- KillEach(t, BeamVictims(width, t), BeamPruned);
    Ok(Effect(kills.tree, kills.commands + BeamContinues(kills.tree)))
  }

  /** The token count shared by the whole frontier, if there is one. */
  function CommonTokens(t: Tree): Option<nat> {
    var frontier := t.ActiveFrontier();
    if frontier != [] && forall k :: 0 <= k < |frontier| ==> t.nodes[frontier[k]].tokens == t.nodes[frontier[0]].tokens
    then Some(t.nodes[frontier[0]].tokens) else None
  }

  function BeamOnEvent(c: BeamConfig, event: EngineEvent, t: Tree): Result<Effect> {
    var forks :- BeamForks(c, event, t);
    var pruned :- BeamPruneAndContinue(c.width, forks.tree);
    Ok(Effect(pruned.tree, forks.commands + pruned.commands))
  }

  function BeamPolicy(c: BeamConfig): PolicyFn {
    (call: nat, hook: PolicyCall, event: EngineEvent, t: GoodTree) => BeamStep(c, hook, event, t)
  }

  function BeamStep(c: BeamConfig, hook: PolicyCall, event: EngineEvent, t: Tree): Result<PolicyAnswer> {
    var e :- if hook == OnEvent then BeamOnEvent(c, event, t) else BeamPruneAndContinue(c.width, t);
    Ok(Answer(e))
  }

  /** Exactly the best `width` active branches survive: no survivor has a lower logprob than a branch that does not, and
      among equals the lower ids survive. */
  ghost predicate KeepsBest(width: nat, t: Tree, pruned: Tree) {
    && (forall i: nat :: pruned.ActiveAt(i) ==> t.ActiveAt(i))
    && (forall i: nat, j: nat :: pruned.ActiveAt(i) && t.ActiveAt(i) && t.ActiveAt(j) && !pruned.ActiveAt(j) ==>
          t.nodes[j].logprob < t.nodes[i].logprob || (t.nodes[j].logprob == t.nodes[i].logprob && i < j))
    && |pruned.ActiveFrontier()| == Min(width, |t.ActiveFrontier()|)
  }

  lemma BeamVictimsActive(width: nat, t: Tree)
    ensures Distinct(BeamVictims(width, t))
    ensures forall k :: 0 <= k < |BeamVictims(width, t)| ==> t.ActiveAt(BeamVictims(width, t)[k])
    ensures |BeamVictims(width, t)| == |t.ActiveFrontier()| - Min(width, |t.ActiveFrontier()|)
  {
    var ranked := Sort(t, ByLogprob, t.ActiveFrontier());
    RankedFrontier(t, ByLogprob);
    if |ranked| > width {
      SortTail(t, ranked, width);
    }
  }

  lemma SortTail(t: Tree, ranked: seq<nat>, width: nat)
    requires InTree(t, ranked) && Distinct(ranked) && width <= |ranked|
    requires forall i: nat :: i in ranked ==> t.ActiveAt(i)
    ensures Distinct(Sort(t, ById, ranked[width..]))
    ensures forall k :: 0 <= k < |ranked| - width ==> t.ActiveAt(Sort(t, ById, ranked[width..])[k])
  {
    var rest := ranked[width..];
    SortKeepsDistinct(t, ById, rest);
    var sorted := Sort(t, ById, rest);
    forall k | 0 <= k < |sorted|
      ensures t.ActiveAt(sorted[k])
    {
      assert sorted[k] in sorted;
      assert sorted[k] in rest;
    }
  }

  lemma BeamVictimsTrail(width: nat, t: Tree, i: nat, j: nat)
    requires t.ActiveAt(i) && i !in BeamVictims(width, t) && j in BeamVictims(width, t)
    ensures t.ActiveAt(j)
    ensures t.nodes[j].logprob < t.nodes[i].logprob || (t.nodes[j].logprob == t.nodes[i].logprob && i < j)
  {
    var ranked := Sort(t, ByLogprob, t.ActiveFrontier());
    RankedFrontier(t, ByLogprob);
    var rest := ranked[width..];
    assert j in rest && i in ranked && i !in rest;
    SplitRanked(t, ByLogprob, ranked, width, i, j);
  }

  lemma SplitRanked(t: Tree, o: Order, ranked: seq<nat>, width: nat, i: nat, j: nat)
    requires InTree(t, ranked) && Ranked(t, o, ranked) && width <= |ranked|
    requires i in ranked && i !in ranked[width..] && j in ranked[width..]
    ensures i < |t.nodes| && j < |t.nodes| && Ahead(t, o, i, j)
  {
    assert ranked == ranked[..width] + ranked[width..];
    var x :| 0 <= x < |ranked[..width]| && ranked[..width][x] == i;
    var y :| 0 <= y < |ranked[width..]| && ranked[width..][y] == j;
    assert ranked[width + y] == j && ranked[x] == i;
  }

  lemma {:induction false} CountSurvivors(a: seq<nat>, b: seq<nat>, victims: seq<nat>)
    requires Distinct(a) && Distinct(b) && Distinct(victims)
    requires forall i :: i in b <==> i in a && i !in victims
    requires forall i :: i in victims ==> i in a
    ensures |a| == |b| + |victims|
  {
    var joined := b + victims;
    forall i, j | 0 <= i < j < |joined|
      ensures joined[i] != joined[j]
    {
      if i < |b| <= j { assert joined[i] in b && joined[j] in victims; }
    }
    assert forall i :: i in joined <==> i in a;
    SameElementsSameLength(a, joined);
  }

  lemma {:induction false} SameElementsSameLength(a: seq<nat>, b: seq<nat>)
    requires Distinct(a) && Distinct(b) && forall i :: i in a <==> i in b
    ensures |a| == |b|
  {
    DistinctCount(a);
    DistinctCount(b);
    assert Elements(a) == Elements(b);
  }

  lemma BeamPruneSpec(width: nat, t: Tree)
    requires WellFormed(t)
    ensures BeamPruneAndContinue(width, t).Ok?
    ensures var e := BeamPruneAndContinue(width, t).value;
            && WellFormed(e.tree)
            && Honours(t, e.tree, e.commands)
            && KeepsBest(width, t, e.tree)
  {
    hide WellFormed, Honours, KillEach, BeamVictims, BeamContinues, KeepsBest;
    BeamKillsHonour(width, t);
    BeamKillsKeepBest(width, t);
  }

  lemma BeamKillsHonour(width: nat, t: Tree)
    requires WellFormed(t)
    ensures var kills := KillEach(t, BeamVictims(width, t), BeamPruned);
            kills.Ok? && WellFormed(kills.value.tree)
            && Honours(t, kills.value.tree, kills.value.commands + BeamContinues(kills.value.tree))
  {
    BeamVictimsActive(width, t);
    hide WellFormed, Honours, KillEach, BeamVictims, BeamContinues, KillsOnly, Replays, OnlyEnds;
    KillEachSpec(t, BeamVictims(width, t), BeamPruned);
    var kills := KillEach(t, BeamVictims(width, t), BeamPruned).value;
    EndsHonours(t, kills);
    BeamContinuesHonour(kills.tree);
    HonoursThen(t, kills.commands, kills.tree, BeamContinues(kills.tree), kills.tree);
  }

  lemma BeamKillsKeepBest(width: nat, t: Tree)
    requires WellFormed(t)
    ensures var kills := KillEach(t, BeamVictims(width, t), BeamPruned);
            kills.Ok? && KeepsBest(width, t, kills.value.tree)
  {
    hide WellFormed, EndsBy, KillsOnly, KillEach, BeamVictims;
    var victims := BeamVictims(width, t);
    BeamVictimsActive(width, t);
    KillEachSpec(t, victims, BeamPruned);
    var kills := KillEach(t, victims, BeamPruned).value;
    forall i: nat, j: nat | kills.tree.ActiveAt(i) && t.ActiveAt(i) && t.ActiveAt(j) && !kills.tree.ActiveAt(j)
      ensures t.nodes[j].logprob < t.nodes[i].logprob || (t.nodes[j].logprob == t.nodes[i].logprob && i < j)
    {
      BeamVictimsTrail(width, t, i, j);
    }
    FrontierDistinct(t);
    FrontierDistinct(kills.tree);
    CountSurvivors(t.ActiveFrontier(), kills.tree.ActiveFrontier(), victims);
  }

  lemma FrontierDistinct(t: Tree)
    ensures Distinct(t.ActiveFrontier())
  {
  }

  lemma BeamContinuesHonour(t: Tree)
    requires WellFormed(t)
    ensures Honours(t, t, BeamContinues(t))
  {
    var ranked := Sort(t, ByLogprob, t.ActiveFrontier());
    RankedFrontier(t, ByLogprob);
    if ranked == [] {
      HonoursNothing(t);
    } else {
      var ids := WithTokens(t, ranked, LeastTokens(t, ranked));
      ContinuesHonour(t, ids);
    }
  }

  function BeamForks(c: BeamConfig, event: EngineEvent, t: Tree): Result<Effect> {
    if event.TokenSampled? && CommonTokens(t).Some? && CommonTokens(t).value in c.forkAtTokens
    then ForkEach(t, t.ActiveFrontier(), c.forkWidth)
    else Ok(Effect(t, []))
  }

  lemma BeamForksHonour(c: BeamConfig, event: EngineEvent, t: Tree)
    requires WellFormed(t) && BeamForks(c, event, t).Ok?
    ensures var e := BeamForks(c, event, t).value; WellFormed(e.tree) && Honours(t, e.tree, e.commands)
  {
    hide WellFormed, Honours;
    if BeamForks(c, event, t) == Ok(Effect(t, [])) {
      HonoursNothing(t);
    } else {
      ForkEachHonours(t, t.ActiveFrontier(), c.forkWidth);
    }
  }

  /** After any event the frontier fits the beam, and the commands account for every change. */
  lemma BeamOnEventHonours(c: BeamConfig, event: EngineEvent, t: Tree)
    requires WellFormed(t) && BeamOnEvent(c, event, t).Ok?
    ensures var e := BeamOnEvent(c, event, t).value;
            WellFormed(e.tree) && Honours(t, e.tree, e.commands) && |e.tree.ActiveFrontier()| <= c.width
  {
    BeamForksHonour(c, event, t);
    hide WellFormed, Honours, BeamForks, BeamPruneAndContinue;
    var forks := BeamForks(c, event, t).value;
    BeamPruneSpec(c.width, forks.tree);
    var pruned := BeamPruneAndContinue(c.width, forks.tree).value;
    HonoursThen(t, forks.commands, forks.tree, pruned.commands, pruned.tree);
  }

  // ---------------------------------------------------------------------------
  // Best first
  // ---------------------------------------------------------------------------

  datatype BestFirstConfig = BestFirstConfig(expansionWidth: nat, maxDepth: nat)

  function BestFirstOnEvent(c: BestFirstConfig, t: Tree): Result<Effect> {
    var ranked := Scored(t, Sort(t, ByValue, t.ActiveFrontier()));
    if ranked == [] then Ok(Effect(t, []))
    else if t.nodes[ranked[0]].depth >= c.maxDepth then Ok(Effect(t, [Continue(ranked[0])]))
    else
      var forked :- Fork(t, ranked[0], c.expansionWidth);
      Ok(Effect(forked,
                [ForkAt(ranked[0], c.expansionWidth)] + ContinueEach(IdsFrom(|t.nodes|, c.expansionWidth))))
  }

  function BestFirstWithoutForking(t: Tree): Effect {
    var ranked := Sort(t, ByValue, t.ActiveFrontier());
    if ranked == [] || exists k :: 0 <= k < |ranked| && !t.nodes[ranked[k]].hasValue then Effect(t, [])
    else Effect(t, [Continue(ranked[0])])
  }

  function BestFirstStep(c: BestFirstConfig, hook: PolicyCall, t: Tree): Result<PolicyAnswer> {
    match hook
    case OnEvent =>
      var e :- BestFirstOnEvent(c, t);
      Ok(Answer(e))
    case WithoutForking => Ok(Answer(BestFirstWithoutForking(t)))
    case AfterAdaptiveFork(children) => Ok(PolicyAnswer(t.nodes, ContinueEach(children)))
  }

  function BestFirstPolicy(c: BestFirstConfig): PolicyFn {
    (call: nat, hook: PolicyCall, event: EngineEvent, t: GoodTree) => BestFirstStep(c, hook, t)
  }

  lemma BestFirstOnEventHonours(c: BestFirstConfig, t: Tree)
    requires WellFormed(t) && BestFirstOnEvent(c, t).Ok?
    ensures var e := BestFirstOnEvent(c, t).value; Honours(t, e.tree, e.commands)
  {
    var scored := Scored(t, Sort(t, ByValue, t.ActiveFrontier()));
    HonoursNothing(t);
    if scored != [] {
      var best := scored[0];
      assert best in scored;
      if t.nodes[best].depth >= c.maxDepth {
        ContinueHonours(t, best);
      } else {
        ForkThenContinueHonours(t, best, c.expansionWidth, IdsFrom(|t.nodes|, c.expansionWidth));
      }
    }
  }

  lemma ContinueHonours(t: Tree, b: nat)
    requires WellFormed(t) && t.ActiveAt(b)
    ensures Honours(t, t, [Continue(b)])
  {
    assert ContinueEach([b]) == [Continue(b)];
    ContinuesHonour(t, [b]);
  }

  lemma ForkThenContinueHonours(t: Tree, b: nat, width: nat, chosen: seq<nat>)
    requires WellFormed(t) && Fork(t, b, width).Ok?
    requires forall k :: 0 <= k < |chosen| ==> chosen[k] in IdsFrom(|t.nodes|, width)
    ensures Honours(t, Fork(t, b, width).value, [ForkAt(b, width)] + ContinueEach(chosen))
  {
    var forked := Fork(t, b, width).value;
    ForkHonours(t, b, width);
    hide WellFormed, Honours;
    ContinuesHonour(forked, chosen);
    HonoursThen(t, [ForkAt(b, width)], forked, ContinueEach(chosen), forked);
  }

  lemma BestFirstHonours(c: BestFirstConfig, hook: PolicyCall, t: Tree)
    requires WellFormed(t) && BestFirstStep(c, hook, t).Ok?
    requires hook.AfterAdaptiveFork? ==> forall k :: 0 <= k < |hook.children| ==> t.ActiveAt(hook.children[k])
    ensures var a := BestFirstStep(c, hook, t).value; Honours(t, AnswerTree(t, a), a.commands)
  {
    match hook {
      case OnEvent =>
        BestFirstOnEventHonours(c, t);
      case WithoutForking =>
        RankedFrontier(t, ByValue);
        var ranked := Sort(t, ByValue, t.ActiveFrontier());
        HonoursNothing(t);
        if ranked != [] {
          assert ranked[0] in ranked;
          ContinueHonours(t, ranked[0]);
        }
      case AfterAdaptiveFork(children) =>
        ContinuesHonour(t, children);
    }
  }
}
