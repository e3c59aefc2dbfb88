/** What the beam and best-first policies choose, in the nodes' own numbers (scheduler/src/policies/beam.rs,
    scheduler/src/policies/best_first.rs). */
module Choices {
  import opened Common
  import opened Arena
  import opened Commands
  import opened Ranking
  import opened Lifecycle
  import opened Termination
  import opened Policies

  // ---------------------------------------------------------------------------
  // The order of kills and forks
  // ---------------------------------------------------------------------------

  ghost predicate Ascending(ids: seq<nat>) {
    forall i, j :: 0 <= i < j < |ids| ==> ids[i] < ids[j]
  }

  lemma SortByIdAscends(t: Tree, ids: seq<nat>)
    requires InTree(t, ids) && Distinct(ids)
    ensures Ascending(Sort(t, ById, ids))
  {
    SortRanks(t, ById, ids);
    var r := Sort(t, ById, ids);
    forall i, j | 0 <= i < j < |r|
      ensures r[i] < r[j]
    {
      assert Ahead(t, ById, r[i], r[j]);
    }
  }

  lemma {:induction false} KillEachCommands(t: Tree, ids: seq<nat>, reason: KillReason)
    requires KillEach(t, ids, reason).Ok?
    ensures KillEach(t, ids, reason).value.commands == seq(|ids|, k requires 0 <= k < |ids| => KillBranch(ids[k], reason))
    decreases |ids|
  {
    if ids != [] { KillEachCommands(Kill(t, ids[0]).value, ids[1..], reason); }
  }

  lemma {:induction false} ForkEachCommands(t: Tree, ids: seq<nat>, width: nat)
    requires ForkEach(t, ids, width).Ok?
    ensures ForkEach(t, ids, width).value.commands == seq(|ids|, k requires 0 <= k < |ids| => ForkAt(ids[k], width))
    decreases |ids|
  {
    if ids != [] { ForkEachCommands(Fork(t, ids[0], width).value, ids[1..], width); }
  }

  // ---------------------------------------------------------------------------
  // Beam
  // ---------------------------------------------------------------------------

  lemma {:induction false} WithTokensMembers(t: Tree, ids: seq<nat>, tokens: nat)
    requires InTree(t, ids)
    ensures forall i :: i in WithTokens(t, ids, tokens) <==> i in ids && i < |t.nodes| && t.nodes[i].tokens == tokens
  {
    if ids != [] {
      assert ids == [ids[0]] + ids[1..];
      WithTokensMembers(t, ids[1..], tokens);
    }
  }

  lemma RankedFront(t: Tree, o: Order, first: nat, rest: seq<nat>)
    requires InTree(t, [first] + rest) && InTree(t, rest) && Ranked(t, o, rest)
    requires forall i :: i in rest ==> first < |t.nodes| && i < |t.nodes| && Ahead(t, o, first, i)
    ensures Ranked(t, o, [first] + rest)
  {
    hide Ahead;
  }

  lemma RankedTail(t: Tree, o: Order, ids: seq<nat>)
    requires ids != [] && InTree(t, ids) && Ranked(t, o, ids)
    ensures InTree(t, ids[1..]) && Ranked(t, o, ids[1..])
    ensures forall i :: i in ids[1..] ==> ids[0] < |t.nodes| && i < |t.nodes| && Ahead(t, o, ids[0], i)
  {
    hide Ahead;
  }

  /** The branches with the given token count, in the order they had. */
  lemma {:induction false} WithTokensRanked(t: Tree, o: Order, ids: seq<nat>, tokens: nat)
    requires InTree(t, ids) && Ranked(t, o, ids)
    ensures InTree(t, WithTokens(t, ids, tokens)) && Ranked(t, o, WithTokens(t, ids, tokens))
  {
    hide Ahead, Ranked;
    if ids == [] {
      NothingRanked(t, o);
    } else {
      var rest := WithTokens(t, ids[1..], tokens);
      RankedTail(t, o, ids);
      WithTokensRanked(t, o, ids[1..], tokens);
      WithTokensMembers(t, ids[1..], tokens);
      if t.nodes[ids[0]].tokens == tokens { RankedFront(t, o, ids[0], rest); }
    }
  }

  lemma NothingRanked(t: Tree, o: Order)
    ensures Ranked(t, o, [])
  {
  }

  /** Higher logprob first, the lower id among equals. */
  ghost predicate LikelierFirst(t: Tree, ids: seq<nat>) {
    && (forall k :: 0 <= k < |ids| ==> ids[k] < |t.nodes|)
    && forall i, j :: 0 <= i < j < |ids| ==>
         var x, y := t.nodes[ids[i]], t.nodes[ids[j]];
         y.logprob < x.logprob || (y.logprob == x.logprob && ids[i] < ids[j])
  }

  /** Continued are the active branches that are furthest behind, likelier ones first. */
  ghost predicate FurthestBehind(t: Tree, ids: seq<nat>) {
    && LikelierFirst(t, ids)
    && forall b: nat :: b in ids <==>
         t.ActiveAt(b) && forall i: nat :: t.ActiveAt(i) ==> t.nodes[b].tokens <= t.nodes[i].tokens
  }

  lemma BeamContinuesSpec(t: Tree) returns (advanced: seq<nat>)
    ensures BeamContinues(t) == ContinueEach(advanced) && FurthestBehind(t, advanced)
  {
    var ranked := Sort(t, ByLogprob, t.ActiveFrontier());
    RankedFrontier(t, ByLogprob);
    if ranked == [] {
      advanced := [];
      assert forall i: nat :: !t.ActiveAt(i);
    } else {
      var least := LeastTokens(t, ranked);
      advanced := WithTokens(t, ranked, least);
      WithTokensRanked(t, ByLogprob, ranked, least);
      WithTokensMembers(t, ranked, least);
      LeastIsLeast(t, ranked, advanced);
      RankedByLogprob(t, advanced);
    }
  }

  lemma RankedByLogprob(t: Tree, ids: seq<nat>)
    requires InTree(t, ids) && Ranked(t, ByLogprob, ids)
    ensures LikelierFirst(t, ids)
  {
    forall i, j | 0 <= i < j < |ids|
      ensures var x, y := t.nodes[ids[i]], t.nodes[ids[j]]; y.logprob < x.logprob || (y.logprob == x.logprob && ids[i] < ids[j])
    {
      assert Ahead(t, ByLogprob, ids[i], ids[j]);
    }
  }

  lemma LeastIsLeast(t: Tree, ranked: seq<nat>, advanced: seq<nat>)
    requires ranked != [] && InTree(t, ranked) && forall i: nat :: i in ranked <==> t.ActiveAt(i)
    requires forall i :: i in advanced <==> i in ranked && i < |t.nodes| && t.nodes[i].tokens == LeastTokens(t, ranked)
    ensures forall b: nat :: b in advanced <==>
              t.ActiveAt(b) && forall i: nat :: t.ActiveAt(i) ==> t.nodes[b].tokens <= t.nodes[i].tokens
  {
    var least := LeastTokens(t, ranked);
    var k :| 0 <= k < |ranked| && t.nodes[ranked[k]].tokens == least;
    assert ranked[k] in ranked && t.ActiveAt(ranked[k]);
    forall i: nat | t.ActiveAt(i)
      ensures least <= t.nodes[i].tokens
    {
      assert i in ranked;
    }
  }

  /** All the commands of a beam prune: the losers in id order, then the survivors that are furthest behind. */
  lemma BeamCommands(width: nat, t: Tree) returns (victims: seq<nat>, advanced: seq<nat>)
    requires WellFormed(t)
    ensures BeamPruneAndContinue(width, t).Ok?
    ensures var e := BeamPruneAndContinue(width, t).value;
            && e.commands == seq(|victims|, k requires 0 <= k < |victims| => KillBranch(victims[k], BeamPruned)) + ContinueEach(advanced)
            && Ascending(victims) && (forall i: nat :: i in victims <==> t.ActiveAt(i) && !e.tree.ActiveAt(i))
            && FurthestBehind(e.tree, advanced)
  {
    hide WellFormed, KillEach, BeamVictims, BeamContinues, FurthestBehind, EndsBy, KillsOnly, Ascending;
    victims := BeamVictims(width, t);
    BeamVictimsActive(width, t);
    BeamVictimsAscend(width, t);
    KillEachSpec(t, victims, BeamPruned);
    KillEachCommands(t, victims, BeamPruned);
    advanced := BeamContinuesSpec(KillEach(t, victims, BeamPruned).value.tree);
    forall i: nat | i in victims
      ensures t.ActiveAt(i)
    {
      var k :| 0 <= k < |victims| && victims[k] == i;
    }
  }

  lemma BeamVictimsAscend(width: nat, t: Tree)
    ensures Ascending(BeamVictims(width, t))
  {
    var ranked := Sort(t, ByLogprob, t.ActiveFrontier());
    RankedFrontier(t, ByLogprob);
    if |ranked| > width { SortByIdAscends(t, ranked[width..]); }
  }

  /** The frontier stands together at one of the configured token counts. */
  ghost predicate StandsTogether(c: BeamConfig, t: Tree) {
    exists n :: n in c.forkAtTokens && (exists i: nat :: t.ActiveAt(i)) && forall i: nat :: t.ActiveAt(i) ==> t.nodes[i].tokens == n
  }

  lemma CommonTokensSpec(c: BeamConfig, t: Tree)
    ensures CommonTokens(t).Some? && CommonTokens(t).value in c.forkAtTokens <==> StandsTogether(c, t)
  {
    var frontier := t.ActiveFrontier();
    if CommonTokens(t).Some? {
      forall i: nat | t.ActiveAt(i)
        ensures t.nodes[i].tokens == t.nodes[frontier[0]].tokens
      {
        assert i in frontier;
        var k :| 0 <= k < |frontier| && frontier[k] == i;
      }
      assert t.ActiveAt(frontier[0]);
    }
    if StandsTogether(c, t) {
      var i: nat :| t.ActiveAt(i);
      assert i in frontier;
    }
  }

  /** On a token that finds the frontier together at a configured count the beam forks every active branch, in id order
      and before it prunes, and otherwise none. */
  lemma BeamForksExactly(c: BeamConfig, event: EngineEvent, t: Tree) returns (forked: seq<nat>, after: Tree)
    requires WellFormed(t) && BeamOnEvent(c, event, t).Ok?
    ensures Ascending(forked) && forall i: nat :: i in forked <==> t.ActiveAt(i) && event.TokenSampled? && StandsTogether(c, t)
    ensures ForkEach(t, forked, c.forkWidth).Ok? && after == ForkEach(t, forked, c.forkWidth).value.tree
    ensures BeamPruneAndContinue(c.width, after).Ok?
    ensures var e, pruned := BeamOnEvent(c, event, t).value, BeamPruneAndContinue(c.width, after).value;
            && e.tree == pruned.tree
            && e.commands == seq(|forked|, k requires 0 <= k < |forked| => ForkAt(forked[k], c.forkWidth)) + pruned.commands
  {
    hide WellFormed, BeamPruneAndContinue, CommonTokens, StandsTogether;
    CommonTokensSpec(c, t);
    var forks := event.TokenSampled? && CommonTokens(t).Some? && CommonTokens(t).value in c.forkAtTokens;
    forked := if forks then t.ActiveFrontier() else [];
    assert ForkEach(t, [], c.forkWidth) == Ok(Effect(t, []));
    ForkEachCommands(t, forked, c.forkWidth);
    after := ForkEach(t, forked, c.forkWidth).value.tree;
  }

  // ---------------------------------------------------------------------------
  // Best first
  // ---------------------------------------------------------------------------

  /** The active scored branch of the highest value, the likelier one among equals, and then the lower id. */
  ghost predicate Promising(t: Tree, b: nat) {
    && t.ActiveAt(b) && t.nodes[b].hasValue
    && forall i: nat :: t.ActiveAt(i) && t.nodes[i].hasValue && i != b ==>
         var x, y := t.nodes[b], t.nodes[i];
         y.value < x.value || (y.value == x.value && (y.logprob < x.logprob || (y.logprob == x.logprob && b < i)))
  }

  lemma {:induction false} ScoredRanked(t: Tree, o: Order, ids: seq<nat>)
    requires InTree(t, ids) && Ranked(t, o, ids)
    ensures Ranked(t, o, Scored(t, ids))
  {
    if ids != [] {
      var rest := Scored(t, ids[1..]);
      assert Ranked(t, o, ids[1..]);
      ScoredRanked(t, o, ids[1..]);
      forall k | 0 <= k < |rest|
        ensures Ahead(t, o, ids[0], rest[k])
      {
        assert rest[k] in rest && rest[k] in ids[1..];
      }
    }
  }

  lemma FirstIsPromising(t: Tree, scored: seq<nat>)
    requires scored != [] && InTree(t, scored) && Ranked(t, ByValue, scored)
    requires forall i: nat :: i in scored <==> t.ActiveAt(i) && t.nodes[i].hasValue
    ensures forall b: nat :: Promising(t, b) <==> b == scored[0]
  {
    assert scored[0] in scored;
    forall i: nat | t.ActiveAt(i) && t.nodes[i].hasValue && i != scored[0]
      ensures Ahead(t, ByValue, scored[0], i) && !Promising(t, i)
    {
      assert i in scored;
    }
  }

  /** The scored active branches, best first: empty or led by the promising one. */
  lemma ScoredFrontier(t: Tree) returns (scored: seq<nat>)
    ensures scored == Scored(t, Sort(t, ByValue, t.ActiveFrontier()))
    ensures forall i: nat :: i in scored <==> t.ActiveAt(i) && t.nodes[i].hasValue
    ensures scored != [] ==> forall b: nat :: Promising(t, b) <==> b == scored[0]
    ensures scored == [] ==> forall b: nat :: !Promising(t, b)
  {
    hide Promising, Sort, Scored;
    var ranked := Sort(t, ByValue, t.ActiveFrontier());
    RankedFrontier(t, ByValue);
    ScoredRanked(t, ByValue, ranked);
    scored := Scored(t, ranked);
    if scored != [] {
      FirstIsPromising(t, scored);
    } else {
      PromisingIsScored(t);
    }
  }

  lemma PromisingIsScored(t: Tree)
    ensures forall b: nat :: Promising(t, b) ==> t.ActiveAt(b) && t.nodes[b].hasValue
  {
  }

  /** What best-first does with the branch it has chosen. */
  function Expanded(c: BestFirstConfig, t: Tree, b: nat): Result<Effect>
    requires b < |t.nodes|
  {
    var forked := Fork(t, b, c.expansionWidth);
    if t.nodes[b].depth >= c.maxDepth then Ok(Effect(t, [Continue(b)]))
    else if forked.Err? then Err(forked.error)
    else Ok(Effect(forked.value, [ForkAt(b, c.expansionWidth)]
                                 + seq(c.expansionWidth, k requires 0 <= k < c.expansionWidth => Continue(|t.nodes| + k))))
  }

  /** Best-first expands the most promising branch and continues all its children, continues the branch itself at the
      depth limit, and does nothing when no active branch is scored. It fails only if that fork does. */
  lemma BestFirstExpands(c: BestFirstConfig, t: Tree)
    ensures (forall i: nat :: t.ActiveAt(i) ==> !t.nodes[i].hasValue) ==> BestFirstOnEvent(c, t) == Ok(Effect(t, []))
    ensures (exists i: nat :: t.ActiveAt(i) && t.nodes[i].hasValue) ==>
              exists b: nat :: Promising(t, b) && b < |t.nodes| && BestFirstOnEvent(c, t) == Expanded(c, t, b)
  {
    hide Promising, Sort, Scored, Fork, Expanded;
    var scored := ScoredFrontier(t);
    if scored != [] {
      assert scored[0] in scored;
      ExpandsFirst(c, t, scored);
    }
  }

  lemma ExpandsFirst(c: BestFirstConfig, t: Tree, scored: seq<nat>)
    requires scored == Scored(t, Sort(t, ByValue, t.ActiveFrontier())) && scored != [] && scored[0] < |t.nodes|
    ensures BestFirstOnEvent(c, t) == Expanded(c, t, scored[0])
  {
    hide Sort, Scored, Fork;
    assert ContinueEach(IdsFrom(|t.nodes|, c.expansionWidth))
        == seq(c.expansionWidth, k requires 0 <= k < c.expansionWidth => Continue(|t.nodes| + k));
  }

  /** Asked not to fork, best-first waits until every active branch is scored and then continues the most promising one. */
  lemma BestFirstWaits(t: Tree)
    ensures (exists i: nat :: t.ActiveAt(i) && !t.nodes[i].hasValue) || (forall i: nat :: !t.ActiveAt(i)) ==>
              BestFirstWithoutForking(t) == Effect(t, [])
    ensures forall b: nat :: Promising(t, b) && (forall i: nat :: t.ActiveAt(i) ==> t.nodes[i].hasValue) ==>
              BestFirstWithoutForking(t) == Effect(t, [Continue(b)])
  {
    var ranked := Sort(t, ByValue, t.ActiveFrontier());
    RankedFrontier(t, ByValue);
    hide Sort, Promising;
    PromisingIsScored(t);
    if i: nat :| t.ActiveAt(i) && !t.nodes[i].hasValue {
      assert i in ranked;
      var k :| 0 <= k < |ranked| && ranked[k] == i;
    } else if ranked != [] {
      forall k | 0 <= k < |ranked| ensures t.nodes[ranked[k]].hasValue { assert ranked[k] in ranked; }
      FirstIsPromising(t, ranked);
    }
  }

  /** After an adaptive fork best-first continues every child, in order. */
  lemma BestFirstContinuesChildren(c: BestFirstConfig, children: seq<nat>, t: Tree)
    ensures BestFirstStep(c, AfterAdaptiveFork(children), t)
         == Ok(PolicyAnswer(t.nodes, seq(|children|, k requires 0 <= k < |children| => Continue(children[k]))))
  {
    assert ContinueEach(children) == seq(|children|, k requires 0 <= k < |children| => Continue(children[k]));
  }
}
