/** The mutable branch arena (scheduler/src/types.rs), its token budget (scheduler/src/budget.rs) and the
    adaptive controller's memory (scheduler/src/adaptive.rs), each proved against its value. */
module BranchArena {
  import opened Common
  import A = Arena
  import opened Arena
  import opened Adaptive
  import opened Mcts
  import opened Policies
  import opened Commands
  import S = Scheduler

  class BranchTree {
    var nodes: seq<BranchNode>
    const maxTotalBranches: nat

    /** The arena as a value. */
    function Model(): Tree
      reads this
    {
      Tree(nodes, maxTotalBranches)
    }

    constructor (maxTotalBranches: nat)
      ensures Model() == FreshTree(maxTotalBranches)
    {
      nodes := [RootNode()];
      this.maxTotalBranches := maxTotalBranches;
    }

    constructor Clone(source: Tree)
      ensures Model() == source
    {
      nodes := source.nodes;
      maxTotalBranches := source.cap;
    }

    /** The children get the next ids, in ascending order. */
    method Fork(b: nat, width: nat) returns (r: Result<seq<nat>>)
      modifies this
      ensures A.Fork(old(Model()), b, width).Ok? ==>
                r == Ok(IdsFrom(|old(nodes)|, width)) && Model() == A.Fork(old(Model()), b, width).value
      ensures A.Fork(old(Model()), b, width).Err? ==>
                r == Err(A.Fork(old(Model()), b, width).error) && Model() == old(Model())
    {
      if width == 0 { return Err(InvalidWidth(width)); }
      if width > MAX_BRANCH_WIDTH { return Err(InvalidWidth(width)); }
      if !Model().Has(b) { return Err(UnknownBranch(b)); }
      var parent := nodes[b];
      if parent.state != Active { return Err(BranchNotActive(b)); }
      if parent.depth + 1 > U32_MAX { return Err(CounterOverflow); }
      var start := |nodes|;
      if start + width > U64_MAX { return Err(CounterOverflow); }
      var end := start + width;
      if end > maxTotalBranches { return Err(BranchLimitExceeded(maxTotalBranches, end)); }
      var children := IdsFrom(start, width);
      nodes := nodes[b := nodes[b].(state := Expanded)];
      nodes := nodes[b := nodes[b].(children := children)];
      AddChildren(parent, children);
      r := Ok(children);
    }

    method AddChildren(parent: BranchNode, children: seq<nat>)
      requires forall k :: 0 <= k < |children| ==> children[k] == |nodes| + k
      modifies this
      ensures |nodes| == |old(nodes)| + |children| && nodes[..|old(nodes)|] == old(nodes)
      ensures forall j :: |old(nodes)| <= j < |nodes| ==> nodes[j] == ChildOf(parent, j)
    {
      ghost var start := |nodes|;
      for i := 0 to |children|
        invariant |nodes| == start + i && nodes[..start] == old(nodes)
        invariant forall j :: start <= j < |nodes| ==> nodes[j] == ChildOf(parent, j)
      {
        nodes := nodes + [ChildOf(parent, children[i])];
      }
    }

    method Kill(b: nat) returns (r: Result<()>)
      modifies this
      ensures A.Kill(old(Model()), b).Ok? ==> r == Ok(()) && Model() == A.Kill(old(Model()), b).value
      ensures A.Kill(old(Model()), b).Err? ==> r == Err(A.Kill(old(Model()), b).error) && Model() == old(Model())
    {
      if !Model().Has(b) { return Err(UnknownBranch(b)); }
      if !nodes[b].state.IsLive() { return Err(BranchNotActive(b)); }
      var children := nodes[b].children;
      for i := 0 to |children|
        invariant Model() == old(Model())
        invariant forall j :: 0 <= j < i ==> !Model().LiveAt(children[j])
      {
        if Model().LiveAt(children[i]) { return Err(BranchHasLiveChildren(b)); }
      }
      assert !Model().AnyChildLive(b);
      nodes := nodes[b := nodes[b].(state := Killed)];
      r := Ok(());
    }

    method Finalize(b: nat) returns (r: Result<()>)
      modifies this
      ensures A.Finalize(old(Model()), b).Ok? ==> r == Ok(()) && Model() == A.Finalize(old(Model()), b).value
      ensures A.Finalize(old(Model()), b).Err? ==> r == Err(A.Finalize(old(Model()), b).error) && Model() == old(Model())
    {
      if !Model().Has(b) { return Err(UnknownBranch(b)); }
      if nodes[b].state != Active { return Err(BranchNotActive(b)); }
      if nodes[b].children != [] { return Err(BranchHasLiveChildren(b)); }
      nodes := nodes[b := nodes[b].(state := Finalized)];
      r := Ok(());
    }

    method RecordToken(b: nat, logprob: Float) returns (r: Result<()>)
      modifies this
      ensures A.RecordToken(old(Model()), b, logprob).Ok? ==>
                r == Ok(()) && Model() == A.RecordToken(old(Model()), b, logprob).value
      ensures A.RecordToken(old(Model()), b, logprob).Err? ==>
                r == Err(A.RecordToken(old(Model()), b, logprob).error) && Model() == old(Model())
    {
      if logprob.NonFinite? { return Err(InvalidNumber); }
      if !Model().Has(b) { return Err(UnknownBranch(b)); }
      if nodes[b].state != Active { return Err(BranchNotActive(b)); }
      if nodes[b].tokens + 1 > U64_MAX { return Err(CounterOverflow); }
      nodes := nodes[b := nodes[b].(tokens := nodes[b].tokens + 1, logprob := nodes[b].logprob + logprob.value)];
      r := Ok(());
    }

    method RecordValue(b: nat, score: Float) returns (r: Result<()>)
      modifies this
      ensures A.RecordValue(old(Model()), b, score).Ok? ==>
                r == Ok(()) && Model() == A.RecordValue(old(Model()), b, score).value
      ensures A.RecordValue(old(Model()), b, score).Err? ==>
                r == Err(A.RecordValue(old(Model()), b, score).error) && Model() == old(Model())
    {
      if score.NonFinite? { return Err(InvalidNumber); }
      if !Model().Has(b) { return Err(UnknownBranch(b)); }
      if !nodes[b].state.IsLive() { return Err(BranchNotActive(b)); }
      nodes := nodes[b := nodes[b].(value := score.value, hasValue := true)];
      r := Ok(());
    }

    method MarkValuePending(b: nat) returns (r: Result<()>)
      modifies this
      ensures A.MarkValuePending(old(Model()), b).Ok? ==>
                r == Ok(()) && Model() == A.MarkValuePending(old(Model()), b).value
      ensures A.MarkValuePending(old(Model()), b).Err? ==>
                r == Err(A.MarkValuePending(old(Model()), b).error) && Model() == old(Model())
    {
      if !Model().Has(b) { return Err(UnknownBranch(b)); }
      if nodes[b].state != Active { return Err(BranchNotActive(b)); }
      nodes := nodes[b := nodes[b].(hasValue := false)];
      r := Ok(());
    }

    /** Two passes: the first collects the updates along the path and can still fail, the second applies
        them; so a refused value changes nothing. */
    method Backpropagate(b: nat, value: Float) returns (r: Result<()>)
      requires WellFormed(Model())
      modifies this
      ensures Mcts.Backpropagate(old(Model()), b, value).Ok? ==>
                r == Ok(()) && Model() == Mcts.Backpropagate(old(Model()), b, value).value
      ensures Mcts.Backpropagate(old(Model()), b, value).Err? ==>
                r == Err(Mcts.Backpropagate(old(Model()), b, value).error) && Model() == old(Model())
    {
      if value.NonFinite? { return Err(InvalidNumber); }
      if !Model().Has(b) { return Err(UnknownBranch(b)); }
      ghost var t := Model();
      var path: seq<nat> := [];
      var current := Some(b);
      while current.Some?
        invariant Model() == t && WellFormed(t)
        invariant PathSoFar(t, b, path, current)
        invariant forall k :: 0 <= k < |path| ==> t.nodes[path[k]].visits < U64_MAX
        decreases if current.Some? then current.value + 1 else 0
      {
        var id := current.value;
        assert NodeOk(t, id);
        if nodes[id].visits + 1 > U64_MAX {
          assert OnPath(t, id, id) && OnPath(t, id, b);
          return Err(CounterOverflow);
        }
        PathExtends(t, b, path, id);
        path := path + [id];
        current := nodes[id].parent;
      }
      BumpEach(path, value.value);
      assert nodes == BumpPath(t, b, value.value).nodes;
      r := Ok(());
    }

    method BumpEach(path: seq<nat>, value: real)
      requires forall k :: 0 <= k < |path| ==> path[k] < |nodes|
      requires forall j, k :: 0 <= j < k < |path| ==> path[j] > path[k]
      modifies this
      ensures |nodes| == |old(nodes)|
      ensures forall i: nat :: i < |nodes| ==> nodes[i] == if i in path then Bumped(old(nodes)[i], value) else old(nodes)[i]
    {
      ghost var before := nodes;
      for k := 0 to |path|
        invariant |nodes| == |before|
        invariant forall i: nat :: i < |nodes| ==> nodes[i] == if i in path[..k] then Bumped(before[i], value) else before[i]
      {
        var id := path[k];
        assert path[..k + 1] == path[..k] + [id];
        nodes := nodes[id := Bumped(nodes[id], value)];
      }
      assert path[..|path|] == path;
    }
  }

  /** The walk so far: the listed nodes are those on the path below `current`, each once, newest first. */
  ghost predicate PathSoFar(t: Tree, b: nat, path: seq<nat>, current: Option<nat>)
    requires WellFormed(t)
  {
    && b < |t.nodes|
    && (current.Some? ==> current.value < |t.nodes|)
    && (forall k :: 0 <= k < |path| ==> path[k] < |t.nodes|)
    && (forall j, k :: 0 <= j < k < |path| ==> path[j] > path[k])
    && (current.Some? ==> forall k :: 0 <= k < |path| ==> path[k] > current.value)
    && (forall i: nat :: i < |t.nodes| ==>
          (OnPath(t, i, b) <==> i in path || (current.Some? && OnPath(t, i, current.value))))
  }

  lemma PathExtends(t: Tree, b: nat, path: seq<nat>, id: nat)
    requires WellFormed(t) && PathSoFar(t, b, path, Some(id))
    ensures PathSoFar(t, b, path + [id], t.nodes[id].parent)
  {
    assert NodeOk(t, id);
    var more := path + [id];
    forall i: nat | i < |t.nodes|
      ensures OnPath(t, i, b) <==> i in more || (t.nodes[id].parent.Some? && OnPath(t, i, t.nodes[id].parent.value))
    {
      assert i in more <==> i in path || i == id;
    }
  }

  class BudgetController {
    const totalLimit: nat
    const perBranchLimit: nat
    var totalConsumed: nat

    function Model(): Budget
      reads this
    {
      Budget(totalLimit, perBranchLimit, totalConsumed)
    }

    constructor (totalLimit: nat, perBranchLimit: nat)
      ensures Model() == Budget(totalLimit, perBranchLimit, 0)
    {
      this.totalLimit := totalLimit;
      this.perBranchLimit := perBranchLimit;
      totalConsumed := 0;
    }

    /** Spends one token, or spends nothing. With 64-bit limits the increments themselves cannot fail. */
    method Consume(b: nat, branchTokensBefore: nat) returns (r: Result<BudgetOutcome>)
      requires totalLimit <= U64_MAX && perBranchLimit <= U64_MAX
      modifies this
      ensures Adaptive.Consume(old(Model()), b, branchTokensBefore).Ok? ==>
                && r == Ok(Adaptive.Consume(old(Model()), b, branchTokensBefore).value.1)
                && Model() == Adaptive.Consume(old(Model()), b, branchTokensBefore).value.0
      ensures Adaptive.Consume(old(Model()), b, branchTokensBefore).Err? ==>
                && r == Err(Adaptive.Consume(old(Model()), b, branchTokensBefore).error)
                && Model() == old(Model())
      ensures r.Ok? <==> old(totalConsumed) < totalLimit && branchTokensBefore < perBranchLimit
    {
      if totalConsumed >= totalLimit || branchTokensBefore >= perBranchLimit {
        return Err(BudgetAlreadyExhausted(b));
      }
      totalConsumed := totalConsumed + 1;
      var branchTokensAfter := branchTokensBefore + 1;
      r := Ok(BudgetOutcome(branchTokensAfter == perBranchLimit, totalConsumed == totalLimit));
    }
  }

  class AdaptiveForkController {
    var lastForkTokenByBranch: map<nat, nat>

    constructor ()
      ensures lastForkTokenByBranch == map[]
    {
      lastForkTokenByBranch := map[];
    }

    /** Notes for each new child at which token count its parent forked. */
    method RecordFork(children: seq<nat>, parentTokens: nat)
      modifies this
      ensures lastForkTokenByBranch == S.RecordFork(old(lastForkTokenByBranch), children, parentTokens)
    {
      ghost var before := lastForkTokenByBranch;
      for i := 0 to |children|
        invariant lastForkTokenByBranch == S.RecordFork(before, children[..i], parentTokens)
      {
        assert children[..i + 1] == children[..i] + [children[i]];
        lastForkTokenByBranch := lastForkTokenByBranch[children[i] := parentTokens];
      }
      assert children[..|children|] == children;
    }
  }
}
