/** The scheduler's monotonic branch arena (scheduler/src/types.rs). */
module Arena {
  import opened Common

  const MAX_BRANCH_WIDTH: nat := 1024

  datatype BranchState = Active | Expanded | Killed | Finalized {
    predicate IsLive() { Active? || Expanded? }

    predicate IsTerminal() { Killed? || Finalized? }
  }

  datatype KillReason =
    | BeamPruned
    | SpeculativeKill
    | BranchBudgetExhausted
    | TreeBudgetExhausted
    | Exhausted
    | Drained
    | AncestorReclaimed

  datatype SchedulerError =
    | UnknownBranch(branch: nat)
    | BranchNotActive(branch: nat)
    | BranchHasLiveChildren(branch: nat)
    | BranchLimitExceeded(limit: nat, requestedTotal: nat)
    | InvalidWidth(width: nat)
    | InvalidConfig
    | InvalidNumber
    | BudgetAlreadyExhausted(branch: nat)
    | ValueScorePending(branch: nat)
    | UnexpectedValueScore(branch: nat)
    | PolicyCommandTreeMismatch
    | CounterOverflow

  datatype Result<+T> = Ok(value: T) | Err(error: SchedulerError) {
    predicate IsFailure() { Err? }

    function PropagateFailure<U>(): Result<U>
      requires Err?
    {
      Err(error)
    }

    function Extract(): T
      requires Ok?
    {
      value
    }
  }

  datatype BranchNode = BranchNode(
    id: nat,
    parent: Option<nat>,
    children: seq<nat>,
    depth: nat,
    tokens: nat,
    logprob: real,
    value: real,
    hasValue: bool,
    state: BranchState,
    visits: nat,
    valueSum: real)

  /** The value of a `BranchTree`: its arena and the cap on the number of nodes. */
  datatype Tree = Tree(nodes: seq<BranchNode>, cap: nat) {

    predicate Has(b: nat) {
      b < |nodes| && nodes[b].id == b
    }

    predicate LiveAt(b: nat) {
      b < |nodes| && nodes[b].state.IsLive()
    }

    predicate ActiveAt(b: nat) {
      b < |nodes| && nodes[b].state == Active
    }

    predicate TerminalAt(b: nat) {
      b < |nodes| && nodes[b].state.IsTerminal()
    }

    predicate AnyChildLive(b: nat)
      requires b < |nodes|
    {
      exists c :: c in nodes[b].children && LiveAt(c)
    }

    predicate AllChildrenTerminal(b: nat)
      requires b < |nodes|
    {
      forall c :: c in nodes[b].children ==> TerminalAt(c)
    }

    function WithState(b: nat, s: BranchState): Tree
      requires b < |nodes|
    {
      this.(nodes := nodes[b := nodes[b].(state := s)])
    }

    /** Ids of the Active nodes below n, ascending. */
    function ActiveBelow(n: nat): (ids: seq<nat>)
      requires n <= |nodes|
      ensures forall i: nat :: i in ids <==> i < n && nodes[i].state == Active
      ensures forall k :: 0 <= k < |ids| ==> ids[k] < n && nodes[ids[k]].state == Active
      ensures forall i, j :: 0 <= i < j < |ids| ==> ids[i] < ids[j]
    {
      if n == 0 then []
      else
        var rest := ActiveBelow(n - 1);
        assert forall i :: 0 <= i < |rest| ==> rest[i] in rest;
        if nodes[n - 1].state == Active then rest + [n - 1] else rest
    }

    function ActiveFrontier(): (ids: seq<nat>)
      ensures forall i: nat :: i in ids <==> ActiveAt(i)
      ensures forall k :: 0 <= k < |ids| ==> ActiveAt(ids[k])
      ensures ids != [] ==> ActiveAt(ids[0])
      ensures forall i, j :: 0 <= i < j < |ids| ==> ids[i] < ids[j]
    {
      ActiveBelow(|nodes|)
    }
  }

  function RootNode(): BranchNode {
    BranchNode(0, None, [], 0, 0, 0.0, 0.0, false, Active, 0, 0.0)
  }

  function FreshTree(cap: nat): Tree {
    Tree([RootNode()], cap)
  }

  // ---------------------------------------------------------------------------
  // The operations
  // ---------------------------------------------------------------------------

  function ChildOf(parent: BranchNode, id: nat): BranchNode {
    BranchNode(id, Some(parent.id), [], parent.depth + 1, parent.tokens, parent.logprob,
               parent.value, false, Active, 0, 0.0)
  }

  function ForkedNodes(nodes: seq<BranchNode>, b: nat, width: nat): (r: seq<BranchNode>)
    requires b < |nodes|
    ensures |r| == |nodes| + width
  {
    nodes[b := nodes[b].(state := Expanded, children := IdsFrom(|nodes|, width))]
    + seq(width, i requires 0 <= i < width => ChildOf(nodes[b], |nodes| + i))
  }

  function Fork(t: Tree, b: nat, width: nat): Result<Tree> {
    if width == 0 || width > MAX_BRANCH_WIDTH then Err(InvalidWidth(width))
    else if !t.Has(b) then Err(UnknownBranch(b))
    else if t.nodes[b].state != Active then Err(BranchNotActive(b))
    else if t.nodes[b].depth + 1 > U32_MAX then Err(CounterOverflow)
    else if |t.nodes| + width > U64_MAX then Err(CounterOverflow)
    else if |t.nodes| + width > t.cap then Err(BranchLimitExceeded(t.cap, |t.nodes| + width))
    else Ok(t.(nodes := ForkedNodes(t.nodes, b, width)))
  }

  function Kill(t: Tree, b: nat): Result<Tree> {
    if !t.Has(b) then Err(UnknownBranch(b))
    else if !t.nodes[b].state.IsLive() then Err(BranchNotActive(b))
    else if t.AnyChildLive(b) then Err(BranchHasLiveChildren(b))
    else Ok(t.WithState(b, Killed))
  }

  function Finalize(t: Tree, b: nat): Result<Tree> {
    if !t.Has(b) then Err(UnknownBranch(b))
    else if t.nodes[b].state != Active then Err(BranchNotActive(b))
    else if t.nodes[b].children != [] then Err(BranchHasLiveChildren(b))
    else Ok(t.WithState(b, Finalized))
  }

  /** What a token would do to a node; shared by the projection and the recording. */
  function ProjectedAfterToken(t: Tree, b: nat, logprob: Float): Result<BranchNode> {
    if logprob.NonFinite? then Err(InvalidNumber)
    else if !t.Has(b) then Err(UnknownBranch(b))
    else if t.nodes[b].state != Active then Err(BranchNotActive(b))
    else if t.nodes[b].tokens + 1 > U64_MAX then Err(CounterOverflow)
    else Ok(t.nodes[b].(tokens := t.nodes[b].tokens + 1,
                        logprob := t.nodes[b].logprob + logprob.value))
  }

  function RecordToken(t: Tree, b: nat, logprob: Float): Result<Tree> {
    var projected :- ProjectedAfterToken(t, b, logprob);
    Ok(t.(nodes := t.nodes[b := projected]))
  }

  function RecordValue(t: Tree, b: nat, score: Float): Result<Tree> {
    if score.NonFinite? then Err(InvalidNumber)
    else if !t.Has(b) then Err(UnknownBranch(b))
    else if !t.nodes[b].state.IsLive() then Err(BranchNotActive(b))
    else Ok(t.(nodes := t.nodes[b := t.nodes[b].(value := score.value, hasValue := true)]))
  }

  function MarkValuePending(t: Tree, b: nat): Result<Tree> {
    if !t.Has(b) then Err(UnknownBranch(b))
    else if t.nodes[b].state != Active then Err(BranchNotActive(b))
    else Ok(t.(nodes := t.nodes[b := t.nodes[b].(hasValue := false)]))
  }

  // ---------------------------------------------------------------------------
  // Well-formedness
  // ---------------------------------------------------------------------------

  ghost predicate NodeOk(t: Tree, i: nat)
    requires i < |t.nodes|
  {
    var n := t.nodes[i];
    && n.id == i
    && (i == 0 <==> n.parent == None)
    && (n.parent.Some? ==>
          && n.parent.value < i
          && i in t.nodes[n.parent.value].children
          && n.depth == t.nodes[n.parent.value].depth + 1
          && (n.state.IsLive() ==> t.nodes[n.parent.value].state == Expanded))
    && (forall c :: c in n.children ==> i < c < |t.nodes| && t.nodes[c].parent == Some(i))
    && (n.state == Active || n.state == Finalized ==> n.children == [])
    && (n.state == Expanded ==> n.children != [])
  }

  ghost predicate WellFormed(t: Tree) {
    && 1 <= |t.nodes| <= t.cap
    && forall i {:trigger NodeOk(t, i)} :: 0 <= i < |t.nodes| ==> NodeOk(t, i)
  }

  type GoodTree = t: Tree | WellFormed(t) witness FreshTree(1)

  /** An Expanded node that no live child keeps open. */
  ghost predicate Orphan(t: Tree, i: nat) {
    i < |t.nodes| && t.nodes[i].state == Expanded && !t.AnyChildLive(i)
  }

  ghost predicate NoOrphans(t: Tree) {
    forall i: nat :: !Orphan(t, i)
  }

  /** A fork succeeds exactly for a width in range and an active branch above the largest depth, when the children fit the
      arena. Each child starts from its parent's tokens, logprob and value, without a score or visits of its own. */
  lemma ForkExactly(t: Tree, b: nat, width: nat)
    requires WellFormed(t)
    ensures Fork(t, b, width).Ok? <==>
              1 <= width <= 1024 && t.ActiveAt(b) && t.nodes[b].depth < U32_MAX && |t.nodes| + width <= Min(t.cap, U64_MAX)
    ensures Fork(t, b, width).Ok? ==>
              var r, n := Fork(t, b, width).value, t.nodes[b];
              && r.cap == t.cap && |r.nodes| == |t.nodes| + width
              && r.nodes[b] == n.(state := Expanded, children := r.nodes[b].children)
              && |r.nodes[b].children| == width
              && (forall k :: 0 <= k < width ==> r.nodes[b].children[k] == |t.nodes| + k)
              && (forall i: nat :: i < |t.nodes| && i != b ==> r.nodes[i] == t.nodes[i])
              && forall i: nat :: |t.nodes| <= i < |r.nodes| ==>
                   r.nodes[i] == BranchNode(i, Some(b), [], n.depth + 1, n.tokens, n.logprob, n.value, false, Active, 0, 0.0)
  {
    if b < |t.nodes| { assert NodeOk(t, b); }
    if Fork(t, b, width).Ok? {
      var r := Fork(t, b, width).value;
      assert forall i: nat :: |t.nodes| <= i < |r.nodes| ==> r.nodes[i] == ChildOf(t.nodes[b], i);
    }
  }

  /** A kill needs a live branch without live children, and a finalization an active one; each changes the state alone. */
  lemma EndsExactly(t: Tree, b: nat)
    requires WellFormed(t)
    ensures Kill(t, b).Ok? <==> t.LiveAt(b) && forall x :: x in t.nodes[b].children ==> !t.LiveAt(x)
    ensures Finalize(t, b).Ok? <==> t.ActiveAt(b)
    ensures Kill(t, b).Ok? ==> Kill(t, b).value == t.(nodes := t.nodes[b := t.nodes[b].(state := Killed)])
    ensures Finalize(t, b).Ok? ==> Finalize(t, b).value == t.(nodes := t.nodes[b := t.nodes[b].(state := Finalized)])
  {
    if b < |t.nodes| { assert NodeOk(t, b); }
  }

  /** Each refusal names what stands in the way. */
  lemma RefusalsNameTheFault(t: Tree, b: nat, width: nat)
    requires WellFormed(t)
    ensures Fork(t, b, width).Err? ==>
              match Fork(t, b, width).error
              case InvalidWidth(w) => w == width && (w == 0 || w > 1024)
              case UnknownBranch(x) => x == b >= |t.nodes|
              case BranchNotActive(x) => x == b < |t.nodes| && t.nodes[b].state != Active
              case CounterOverflow => b < |t.nodes| && (t.nodes[b].depth >= U32_MAX || |t.nodes| + width > U64_MAX)
              case BranchLimitExceeded(limit, total) => limit == t.cap < total == |t.nodes| + width
              case _ => false
    ensures Kill(t, b).Err? ==>
              match Kill(t, b).error
              case UnknownBranch(x) => x == b >= |t.nodes|
              case BranchNotActive(x) => x == b && t.TerminalAt(b)
              case BranchHasLiveChildren(x) => x == b < |t.nodes| && exists c :: c in t.nodes[b].children && t.LiveAt(c)
              case _ => false
    ensures Finalize(t, b).Err? ==>
              match Finalize(t, b).error
              case UnknownBranch(x) => x == b >= |t.nodes|
              case BranchNotActive(x) => x == b < |t.nodes| && t.nodes[b].state != Active
              case _ => false
  {
    if b < |t.nodes| { assert NodeOk(t, b); }
  }

  lemma FreshTreeWellFormed(cap: nat)
    requires cap >= 1
    ensures WellFormed(FreshTree(cap)) && NoOrphans(FreshTree(cap))
  {
  }

  lemma ForkKeepsWellFormed(t: Tree, b: nat, width: nat)
    requires WellFormed(t) && Fork(t, b, width).Ok?
    ensures WellFormed(Fork(t, b, width).value)
  {
    var r := Fork(t, b, width).value;
    assert NodeOk(t, b);
    forall i: nat | i < |r.nodes|
      ensures NodeOk(r, i)
    {
      if i < |t.nodes| {
        assert NodeOk(t, i);
        if t.nodes[i].parent.Some? {
          assert NodeOk(t, t.nodes[i].parent.value);
        }
      } else {
        assert r.nodes[i] == ChildOf(t.nodes[b], i);
        assert r.nodes[b].children[i - |t.nodes|] == i;
      }
      if i == b {
        forall c | c in r.nodes[b].children
          ensures i < c < |r.nodes| && r.nodes[c].parent == Some(i)
        {
          assert r.nodes[c] == ChildOf(t.nodes[b], c);
        }
      }
    }
  }

  /** Changing one node's state to a terminal one keeps the arena well formed when no child is live. */
  lemma TerminateKeepsWellFormed(t: Tree, b: nat, s: BranchState)
    requires WellFormed(t) && b < |t.nodes| && s.IsTerminal()
    requires t.LiveAt(b) && !t.AnyChildLive(b)
    requires s == Finalized ==> t.nodes[b].children == []
    ensures WellFormed(t.WithState(b, s))
  {
    var r := t.WithState(b, s);
    forall i: nat | i < |r.nodes|
      ensures NodeOk(r, i)
    {
      assert NodeOk(t, i);
    }
  }

  lemma KillKeepsWellFormed(t: Tree, b: nat)
    requires WellFormed(t) && Kill(t, b).Ok?
    ensures WellFormed(Kill(t, b).value)
  {
    TerminateKeepsWellFormed(t, b, Killed);
  }

  lemma FinalizeKeepsWellFormed(t: Tree, b: nat)
    requires WellFormed(t) && Finalize(t, b).Ok?
    ensures WellFormed(Finalize(t, b).value)
  {
    TerminateKeepsWellFormed(t, b, Finalized);
  }

  lemma RecordTokenKeepsWellFormed(t: Tree, b: nat, logprob: Float)
    requires WellFormed(t) && RecordToken(t, b, logprob).Ok?
    ensures WellFormed(RecordToken(t, b, logprob).value)
    ensures SameStructure(t, RecordToken(t, b, logprob).value)
  {
    var r := RecordToken(t, b, logprob).value;
    assert NodeOk(t, b);
    forall i: nat | i < |r.nodes|
      ensures NodeOk(r, i)
    {
      assert NodeOk(t, i);
    }
  }

  // ---------------------------------------------------------------------------
  // Structure
  // ---------------------------------------------------------------------------

  predicate SameShape(a: BranchNode, b: BranchNode) {
    && a.id == b.id
    && a.parent == b.parent
    && a.children == b.children
    && a.depth == b.depth
    && a.state == b.state
  }

  predicate SameStructure(a: Tree, b: Tree) {
    && |a.nodes| == |b.nodes|
    && forall i :: 0 <= i < |a.nodes| ==> SameShape(a.nodes[i], b.nodes[i])
  }

  /** The numbers the scheduler's accounting rests on are untouched on old nodes and inherited by new ones. */
  ghost predicate KeepsCounts(a: Tree, b: Tree) {
    && |a.nodes| <= |b.nodes|
    && (forall i :: 0 <= i < |a.nodes| ==>
          && b.nodes[i].parent == a.nodes[i].parent
          && b.nodes[i].tokens == a.nodes[i].tokens
          && b.nodes[i].logprob == a.nodes[i].logprob
          && b.nodes[i].value == a.nodes[i].value
          && b.nodes[i].hasValue == a.nodes[i].hasValue)
    && (forall i :: |a.nodes| <= i < |b.nodes| ==> InheritsParent(b, i))
  }

  ghost predicate InheritsParent(t: Tree, i: nat)
    requires i < |t.nodes|
  {
    && !t.nodes[i].hasValue
    && InheritsTokens(t, i)
  }

  ghost predicate InheritsTokens(t: Tree, i: nat)
    requires i < |t.nodes|
  {
    && t.nodes[i].parent.Some?
    && t.nodes[i].parent.value < i
    && t.nodes[i].tokens == t.nodes[t.nodes[i].parent.value].tokens
  }

  lemma SameStructureWellFormed(a: Tree, b: Tree)
    requires WellFormed(a) && SameStructure(a, b) && a.cap == b.cap
    ensures WellFormed(b)
    ensures forall i: nat :: Orphan(b, i) ==> Orphan(a, i)
  {
    forall i: nat | i < |b.nodes|
      ensures NodeOk(b, i)
    {
      assert SameShape(a.nodes[i], b.nodes[i]) && NodeOk(a, i);
    }
    assert forall i: nat :: a.LiveAt(i) ==> b.LiveAt(i);
    forall i: nat | i < |a.nodes| && a.AnyChildLive(i)
      ensures b.AnyChildLive(i)
    {
      var d :| d in a.nodes[i].children && a.LiveAt(d);
      assert SameShape(a.nodes[i], b.nodes[i]) && b.LiveAt(d);
    }
    assert forall i :: 0 <= i < |a.nodes| ==> SameShape(a.nodes[i], b.nodes[i]);
  }
}
