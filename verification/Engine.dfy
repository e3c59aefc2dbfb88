/** The engine's command loop over the branch store (core/autotree_core/engine/treekv.py). */
module Engine {
  import opened Common
  import A = Arena
  import opened Commands
  import opened CommandStream
  import opened PageMath
  import opened KvPool
  import opened KvStore
  import opened KvLifecycle
  import opened KvAppend
  import opened KvTreeState

  /** How a command can end. The loop's own complaints (a fork of an inactive branch, a diverging child
      id) and the store's other refusals are absent: each method proves that it never meets them. */
  datatype Outcome = Done | CapacityExceeded(requiredPages: nat, availablePages: nat)

  /** The store holds exactly the scheduler's live branches, under the same ids, with the same parents
      and the same live children, and will give the next child the scheduler's next id. */
  ghost predicate SameBranches(t: A.Tree, m: map<nat, Branch>, next: nat) {
    && next == |t.nodes|
    && (forall b: nat :: b in m <==> t.LiveAt(b))
    && (forall b: nat {:trigger m[b]} {:trigger t.nodes[b]} :: b in m && t.LiveAt(b) ==>
          m[b].parent == t.nodes[b].parent && m[b].children == LiveChildren(t, b))
  }

  ghost function LiveChildren(t: A.Tree, b: nat): set<nat>
    requires b < |t.nodes|
  {
    set c | c in t.nodes[b].children && t.LiveAt(c)
  }

  /** A fork that has produced only its first j children. */
  function PartlyForked(t: A.Tree, b: nat, j: nat): A.Tree
    requires b < |t.nodes|
  {
    t.(nodes := A.ForkedNodes(t.nodes, b, j))
  }

  lemma PartialForkStarts(t: A.Tree, b: nat, m: map<nat, Branch>, next: nat)
    requires A.WellFormed(t) && t.ActiveAt(b) && SameBranches(t, m, next)
    ensures SameBranches(PartlyForked(t, b, 0), m, next)
  {
    var r := PartlyForked(t, b, 0);
    assert A.NodeOk(t, b);
    forall x: nat
      ensures r.LiveAt(x) == t.LiveAt(x)
    {
    }
    forall x: nat | x in m && r.LiveAt(x)
      ensures m[x].parent == r.nodes[x].parent && m[x].children == LiveChildren(r, x)
    {
      assert t.LiveAt(x) && t.nodes[x].children == r.nodes[x].children;
      assert LiveChildren(r, x) == LiveChildren(t, x);
    }
  }

  lemma PartialForkNodes(t: A.Tree, b: nat, j: nat)
    requires A.WellFormed(t) && t.ActiveAt(b)
    ensures var r := PartlyForked(t, b, j);
            && |r.nodes| == |t.nodes| + j
            && (forall x: nat :: r.LiveAt(x) <==> t.LiveAt(x) || |t.nodes| <= x < |t.nodes| + j)
            && (forall x: nat :: x < |t.nodes| ==> r.nodes[x].parent == t.nodes[x].parent)
            && (forall x: nat :: x < |t.nodes| && x != b ==> r.nodes[x].children == t.nodes[x].children)
            && (forall x: nat :: |t.nodes| <= x < |t.nodes| + j ==> r.nodes[x].parent == Some(b) && r.nodes[x].children == [])
            && (forall c: nat :: c in r.nodes[b].children <==> |t.nodes| <= c < |t.nodes| + j)
  {
    var r := PartlyForked(t, b, j);
    assert A.NodeOk(t, b);
    forall x: nat | |t.nodes| <= x < |t.nodes| + j
      ensures r.nodes[x] == A.ChildOf(t.nodes[b], x)
    {
    }
  }

  /** The store's fork adds the next child. */
  lemma PartialForkStep(t: A.Tree, b: nat, j: nat, m: map<nat, Branch>, next: nat)
    requires A.WellFormed(t) && t.ActiveAt(b) && SameBranches(PartlyForked(t, b, j), m, next) && b in m
    ensures SameBranches(PartlyForked(t, b, j + 1), ForkBranches(m, b, next), next + 1)
  {
    hide PartlyForked, A.WellFormed, LiveChildren;
    var p, r := PartlyForked(t, b, j), PartlyForked(t, b, j + 1);
    PartialForkNodes(t, b, j);
    PartialForkNodes(t, b, j + 1);
    PartialForkChildren(t, b, j);
    var n := ForkBranches(m, b, next);
    forall x: nat | x in n && r.LiveAt(x)
      ensures n[x].parent == r.nodes[x].parent && n[x].children == LiveChildren(r, x)
    {
      if x != next {
        assert p.LiveAt(x);
        if x != b { PartialForkOthers(t, b, j, x); }
      }
    }
  }

  lemma PartialForkChildren(t: A.Tree, b: nat, j: nat)
    requires A.WellFormed(t) && t.ActiveAt(b)
    ensures var p, r := PartlyForked(t, b, j), PartlyForked(t, b, j + 1);
            && LiveChildren(r, b) == LiveChildren(p, b) + {|t.nodes| + j}
            && LiveChildren(r, |t.nodes| + j) == {}
  {
    PartialForkNodes(t, b, j);
    PartialForkNodes(t, b, j + 1);
  }

  lemma PartialForkOthers(t: A.Tree, b: nat, j: nat, x: nat)
    requires A.WellFormed(t) && t.ActiveAt(b) && x < |t.nodes| + j && x != b
    ensures var p, r := PartlyForked(t, b, j), PartlyForked(t, b, j + 1);
            && r.nodes[x].parent == p.nodes[x].parent
            && LiveChildren(r, x) == LiveChildren(p, x)
  {
    PartialForkNodes(t, b, j);
    PartialForkNodes(t, b, j + 1);
    if x < |t.nodes| { assert A.NodeOk(t, x); }
    var p, r := PartlyForked(t, b, j), PartlyForked(t, b, j + 1);
    assert forall c :: c in LiveChildren(r, x) <==> c in LiveChildren(p, x);
  }

  /** Ending a branch in the scheduler is pruning a leaf in the store. */
  lemma EndMatchesPrune(t: A.Tree, b: nat, s: A.BranchState, m: map<nat, Branch>, next: nat)
    requires A.WellFormed(t) && t.LiveAt(b) && !t.AnyChildLive(b) && s.IsTerminal() && SameBranches(t, m, next)
    ensures b in m && m[b].children == {}
    ensures SameBranches(t.WithState(b, s), PruneBranches(m, b), next)
  {
    var r := t.WithState(b, s);
    assert LiveChildren(t, b) == {};
    assert A.NodeOk(t, b);
    var n := PruneBranches(m, b);
    forall x: nat | x in n && r.LiveAt(x)
      ensures n[x].parent == r.nodes[x].parent && n[x].children == LiveChildren(r, x)
    {
      assert x != b && t.LiveAt(x) && A.NodeOk(t, x);
      assert LiveChildren(r, x) == LiveChildren(t, x) - {b};
      if m[b].parent != Some(x) {
        assert b !in LiveChildren(t, x);
      }
    }
  }

  /** The engine's own dictionaries agree with the scheduler tree. */
  ghost predicate Bookkept(t: A.Tree, active: set<nat>, finalized: set<nat>, parents: seq<Option<nat>>) {
    && (forall b: nat :: b in active <==> t.ActiveAt(b))
    && (forall b: nat :: b in finalized <==> b < |t.nodes| && t.nodes[b].state == A.Finalized)
    && |parents| == |t.nodes|
    && (forall b :: 0 <= b < |parents| ==> parents[b] == t.nodes[b].parent)
  }

  lemma EndKeepsBooks(t: A.Tree, b: nat, s: A.BranchState, active: set<nat>, finalized: set<nat>, parents: seq<Option<nat>>)
    requires Bookkept(t, active, finalized, parents) && t.LiveAt(b) && s.IsTerminal()
    ensures Bookkept(t.WithState(b, s), active - {b}, if s == A.Finalized then finalized + {b} else finalized, parents)
  {
  }

  /** The books during a fork that has taken the branch off and added j children. */
  ghost predicate ForkBooks(t: A.Tree, b: nat, j: nat, active: set<nat>, finalized: set<nat>, parents: seq<Option<nat>>)
    requires b < |t.nodes|
  {
    && (forall x: nat :: x in active <==> (t.ActiveAt(x) && x != b) || |t.nodes| <= x < |t.nodes| + j)
    && (forall x: nat :: x in finalized <==> x < |t.nodes| && t.nodes[x].state == A.Finalized)
    && |parents| == |t.nodes| + j
    && (forall x :: 0 <= x < |parents| ==> parents[x] == if x < |t.nodes| then t.nodes[x].parent else Some(b))
  }

  lemma ForkBooksStart(t: A.Tree, b: nat, active: set<nat>, finalized: set<nat>, parents: seq<Option<nat>>)
    requires Bookkept(t, active, finalized, parents) && t.ActiveAt(b)
    ensures ForkBooks(t, b, 0, active - {b}, finalized, parents)
  {
  }

  lemma LiveBranchesHeld(t: A.Tree, b: nat, s: Store)
    requires StoreInv(s, 0) && SameBranches(t, s.branches, s.next) && t.LiveAt(b)
    ensures b in View(s)
  {
  }

  lemma ForkPathsStart(m: Paths, b: nat, lo: nat)
    requires b in m && b < lo
    ensures ForkPaths(m, b, lo, 0) == m
  {
  }

  lemma ForkPathsNext(m: Paths, b: nat, lo: nat, j: nat)
    requires b in m && b < lo
    ensures ForkPaths(m, b, lo, j + 1) == ForkPaths(m, b, lo, j)[lo + j := m[b]]
  {
  }

  lemma ForkBooksStep(t: A.Tree, b: nat, j: nat, active: set<nat>, finalized: set<nat>, parents: seq<Option<nat>>)
    requires b < |t.nodes| && ForkBooks(t, b, j, active, finalized, parents)
    ensures ForkBooks(t, b, j + 1, active + {|parents|}, finalized, parents + [Some(b)])
  {
  }

  lemma ForkBooksDone(t: A.Tree, b: nat, width: nat, active: set<nat>, finalized: set<nat>, parents: seq<Option<nat>>)
    requires A.WellFormed(t) && A.Fork(t, b, width).Ok? && ForkBooks(t, b, width, active, finalized, parents)
    ensures Bookkept(A.Fork(t, b, width).value, active, finalized, parents)
    ensures A.Fork(t, b, width).value == PartlyForked(t, b, width)
  {
    var r := A.Fork(t, b, width).value;
    forall x: nat | |t.nodes| <= x < |t.nodes| + width
      ensures r.nodes[x] == A.ChildOf(t.nodes[b], x)
    {
    }
    assert A.NodeOk(t, b);
  }

  // ---------------------------------------------------------------------------
  // What the branches hold
  // ---------------------------------------------------------------------------

  /** The token path of each live branch. */
  type Paths = map<nat, seq<Token>>

  /** A fork gives each new child its parent's path. */
  function ForkPaths(m: Paths, b: nat, lo: nat, width: nat): (r: Paths)
    requires b in m && b < lo
    ensures b in r && r[b] == m[b]
    ensures forall x: nat :: x in r <==> x in m || lo <= x < lo + width
    ensures forall x: nat :: lo <= x < lo + width ==> r[x] == m[b]
    ensures forall x :: x in m && x < lo ==> r[x] == m[x]
  {
    if width == 0 then m else ForkPaths(m, b, lo, width - 1)[lo + width - 1 := m[b]]
  }

  function ContinuePaths(m: Paths, b: nat, token: Token): Paths {
    if b in m then m[b := m[b] + [token]] else m
  }

  /** What one command means for the paths, when the next child's id is `next`. */
  function ApplyPaths(m: Paths, next: nat, c: Command, taken: bool, token: Token): Paths {
    match c
    case ForkAt(b, width) => if b in m && b < next then ForkPaths(m, b, next, width) else m
    case Continue(b) => if taken then ContinuePaths(m, b, token) else m
    case _ => m - {c.branch}
  }

  function NextAfter(next: nat, c: Command): nat {
    if c.ForkAt? then next + c.width else next
  }

  function ReplayPaths(m: Paths, next: nat, commands: seq<Command>, taken: seq<bool>, tokens: seq<Token>): Paths
    requires |commands| == |taken| == |tokens|
    decreases |commands|
  {
    if commands == [] then m
    else
      ReplayPaths(ApplyPaths(m, next, commands[0], taken[0], tokens[0]), NextAfter(next, commands[0]),
                  commands[1..], taken[1..], tokens[1..])
  }

  lemma ApplyNext(t: A.Tree, c: Command)
    requires Apply(t, c).Ok?
    ensures |Apply(t, c).value.nodes| == NextAfter(|t.nodes|, c)
  {
  }

  lemma SameForestRefl(m: map<nat, Branch>)
    ensures SameForest(m, m)
  {
  }

  lemma SameForestKeepsMirror(t: A.Tree, m: map<nat, Branch>, n: map<nat, Branch>, next: nat)
    requires SameBranches(t, m, next) && SameForest(m, n)
    ensures SameBranches(t, n, next)
  {
  }

  /** A decode takes a page at a page boundary, or for a partial tail that it shares; without a free one it fails and says
      so. */
  ghost function OutcomeOf(s: Store, b: nat): (r: Outcome)
    requires StoreInv(s, 0) && b in s.branches
  {
    var table := s.branches[b].table;
    var takesPage := || s.branches[b].numTokens % s.pool.pageSize == 0
                     || (table != [] && table[|table| - 1] < |s.pool.refs| && s.pool.refs[table[|table| - 1]] > 1);
    if takesPage && s.pool.free == [] then CapacityExceeded(1, 0) else Done
  }

  lemma OneMoreToken(n: nat, size: nat)
    requires size > 0
    ensures CeilDiv(n + 1, size) == CeilDiv(n, size) + if n % size == 0 then 1 else 0
  {
    CeilDivCases(n, size);
    CeilDivCases(n + 1, size);
    var q, r := n / size, n % size;
    if r == size - 1 {
      assert (q + 1) * size == q * size + size;
      DivUnique(q + 1, 0, size);
    } else {
      DivUnique(q, r + 1, size);
    }
  }

  lemma OnePage(s: Store, b: nat)
    requires StoreInv(s, 0) && b in s.branches
    ensures OutcomeOf(s, b) ==
              if RequiredPages(s, b, 1) <= |s.pool.free| then Done else CapacityExceeded(RequiredPages(s, b, 1), |s.pool.free|)
  {
    hide RefsMatch, Topology, CeilDiv;
    OneMoreToken(s.branches[b].numTokens, s.pool.pageSize);
    if s.branches[b].numTokens % s.pool.pageSize != 0 { PartialTail(s, b); }
  }

  lemma PartialTail(s: Store, b: nat)
    requires StoreInv(s, 0) && b in s.branches && s.branches[b].numTokens % s.pool.pageSize != 0
    ensures s.branches[b].table != [] && Tail(s, b) < |s.pool.refs|
  {
    PartialTailHasPage(s, b);
  }

  class TreeKVEngine {
    const tree: TreeState
    var active: set<nat>
    var finalized: set<nat>
    var parents: seq<Option<nat>>

    /** The engine's dictionaries and its store mirror the scheduler tree `t`. */
    ghost predicate Mirrors(t: A.Tree)
      reads this, tree, tree.pool, tree.pool.cache
    {
      && tree.Valid()
      && A.WellFormed(t)
      && SameBranches(t, tree.branches, tree.nextBranchId)
      && Bookkept(t, active, finalized, parents)
    }

    constructor (tree: TreeState)
      requires tree.Valid() && tree.nextBranchId == 1 && tree.branches.Keys == {0}
      requires tree.branches[0].parent == None && tree.branches[0].children == {}
      ensures this.tree == tree
      ensures forall cap: nat :: cap >= 1 ==> Mirrors(A.FreshTree(cap))
    {
      this.tree := tree;
      active := {0};
      finalized := {};
      parents := [None];
      new;
      forall cap: nat | cap >= 1
        ensures Mirrors(A.FreshTree(cap))
      {
        A.FreshTreeWellFormed(cap);
        assert LiveChildren(A.FreshTree(cap), 0) == {};
      }
    }

    /** Carries out one command. A Continue decodes one token, unless the loop skips it. */
    method Execute(c: Command, taken: bool, token: Token, ghost t: A.Tree) returns (r: Outcome)
      requires Mirrors(t) && Apply(t, c).Ok?
      modifies this, tree, tree.pool, tree.pool.cache
      ensures r == Done ==>
                && Mirrors(Apply(t, c).value)
                && tree.Contents() == ApplyPaths(old(tree.Contents()), |t.nodes|, c, taken, token)
      ensures r != Done ==> c.Continue? && taken && r.CapacityExceeded? && Mirrors(t) && tree.Contents() == old(tree.Contents())
      ensures c.Continue? && taken ==> c.branch in old(tree.branches) && r == OutcomeOf(old(tree.Snapshot()), c.branch)
    {
      hide Mirrors, SameBranches, Bookkept, A.WellFormed, A.Fork, A.ForkedNodes, PartlyForked, ForkBooks, ForkPaths;
      match c {
        case ForkAt(b, width) =>
          r := ExecuteFork(b, width, t);
        case KillBranch(b, _) =>
          r := ExecuteKill(b, t);
        case FinalizeBranch(b) =>
          r := ExecuteFinalize(b, t);
        case Continue(b) =>
          r := Done;
          if taken {
            r := ExecuteContinue(b, token, t);
          }
      }
    }

    method ExecuteContinue(b: nat, token: Token, ghost t: A.Tree) returns (r: Outcome)
      requires Mirrors(t) && t.ActiveAt(b)
      modifies tree, tree.pool, tree.pool.cache
      ensures Mirrors(t) && b in old(tree.branches) && r == OutcomeOf(old(tree.Snapshot()), b)
      ensures tree.Contents() == if r == Done then ContinuePaths(old(tree.Contents()), b, token) else old(tree.Contents())
    {
      hide Bookkept, A.WellFormed, StoreInv, LiveChildren, SameForest, Gather;
      assert b in tree.branches && b in tree.Contents();
      ghost var was := tree.branches;
      r := AppendOne(b, token);
      SameForestKeepsMirror(t, was, tree.branches, tree.nextBranchId);
    }

    method AppendOne(b: nat, token: Token) returns (r: Outcome)
      requires tree.Valid() && b in tree.branches && b in tree.Contents()
      modifies tree, tree.pool, tree.pool.cache
      ensures tree.Valid() && r == OutcomeOf(old(tree.Snapshot()), b)
      ensures SameForest(old(tree.branches), tree.branches) && tree.nextBranchId == old(tree.nextBranchId)
      ensures tree.Contents() == if r == Done then ContinuePaths(old(tree.Contents()), b, token) else old(tree.Contents())
    {
      hide StoreInv, View, RequiredPages, SameForest, OutcomeOf;
      OnePage(tree.Snapshot(), b);
      var appended := tree.AppendTokens(b, [token]);
      if appended.Err? {
        SameForestRefl(tree.branches);
        return CapacityExceeded(appended.error.requiredPages, appended.error.availablePages);
      }
      r := Done;
    }

    method ExecuteKill(b: nat, ghost t: A.Tree) returns (r: Outcome)
      requires Mirrors(t) && A.Kill(t, b).Ok?
      modifies this, tree, tree.pool
      ensures r == Done && Mirrors(A.Kill(t, b).value) && tree.Contents() == old(tree.Contents()) - {b}
    {
      hide Bookkept, A.WellFormed, SameBranches, StoreInv, View;
      A.KillKeepsWellFormed(t, b);
      EndKeepsBooks(t, b, A.Killed, active, finalized, parents);
      active := active - {b};
      r := ExecutePrune(b, t, A.Killed);
    }

    method ExecuteFinalize(b: nat, ghost t: A.Tree) returns (r: Outcome)
      requires Mirrors(t) && A.Finalize(t, b).Ok?
      modifies this, tree, tree.pool
      ensures r == Done && Mirrors(A.Finalize(t, b).value) && tree.Contents() == old(tree.Contents()) - {b}
    {
      hide Bookkept, A.WellFormed, SameBranches, StoreInv, View;
      A.FinalizeKeepsWellFormed(t, b);
      EndKeepsBooks(t, b, A.Finalized, active, finalized, parents);
      active := active - {b};
      finalized := finalized + {b};
      r := ExecutePrune(b, t, A.Finalized);
    }

    method ExecutePrune(b: nat, ghost t: A.Tree, ghost s: A.BranchState) returns (r: Outcome)
      requires tree.Valid() && A.WellFormed(t) && SameBranches(t, tree.branches, tree.nextBranchId)
      requires t.LiveAt(b) && !t.AnyChildLive(b) && s.IsTerminal()
      modifies tree, tree.pool
      ensures tree.Valid() && r == Done && tree.Contents() == old(tree.Contents()) - {b}
      ensures SameBranches(t.WithState(b, s), tree.branches, tree.nextBranchId)
    {
      EndMatchesPrune(t, b, s, tree.branches, tree.nextBranchId);
      hide SameBranches, A.WellFormed, StoreInv, Releasable, ReleaseAll, View;
      var pruned := tree.Prune(b);
      assert pruned.Ok?;
      r := Done;
    }

    method ExecuteFork(b: nat, width: nat, ghost t: A.Tree) returns (r: Outcome)
      requires Mirrors(t) && A.Fork(t, b, width).Ok?
      modifies this, tree, tree.pool
      ensures r == Done && Mirrors(A.Fork(t, b, width).value)
      ensures b in old(tree.Contents()) && b < |t.nodes|
      ensures tree.Contents() == ForkPaths(old(tree.Contents()), b, |t.nodes|, width)
    {
      hide SameBranches, Bookkept, ForkBooks, A.WellFormed, A.ForkedNodes, PartlyForked, StoreInv, View, ForkPaths;
      A.ForkKeepsWellFormed(t, b, width);
      PartialForkStarts(t, b, tree.branches, tree.nextBranchId);
      ForkBooksStart(t, b, active, finalized, parents);
      LiveBranchesHeld(t, b, tree.Snapshot());
      active := active - {b};
      ghost var before := tree.Contents();
      ForkPathsStart(before, b, |t.nodes|);
      for j := 0 to width
        invariant tree.Valid() && SameBranches(PartlyForked(t, b, j), tree.branches, tree.nextBranchId)
        invariant ForkBooks(t, b, j, active, finalized, parents)
        invariant tree.Contents() == ForkPaths(before, b, |t.nodes|, j)
      {
        ExecuteForkOne(b, t, j);
        ForkPathsNext(before, b, |t.nodes|, j);
      }
      ForkBooksDone(t, b, width, active, finalized, parents);
      r := Done;
    }

    /** One child: the store must hand out the id the scheduler expects. */
    method ExecuteForkOne(b: nat, ghost t: A.Tree, ghost j: nat)
      requires A.WellFormed(t) && t.ActiveAt(b)
      requires tree.Valid() && SameBranches(PartlyForked(t, b, j), tree.branches, tree.nextBranchId)
      requires ForkBooks(t, b, j, active, finalized, parents)
      modifies this, tree, tree.pool
      ensures tree.Valid() && SameBranches(PartlyForked(t, b, j + 1), tree.branches, tree.nextBranchId)
      ensures b in old(tree.Contents()) && tree.Contents() == old(tree.Contents())[|t.nodes| + j := old(tree.Contents())[b]]
      ensures ForkBooks(t, b, j + 1, active, finalized, parents)
    {
      hide *;
      var expected := |parents|;
      ForkOneFacts(t, b, j, tree.branches, tree.nextBranchId, active, finalized, parents);
      var child := ForkBranch(b);
      assert child == expected;
      parents := parents + [Some(b)];
      active := active + {child};
    }

    method ForkBranch(b: nat) returns (child: nat)
      requires tree.Valid() && b in tree.branches
      modifies tree, tree.pool
      ensures tree.Valid() && child == old(tree.nextBranchId)
      ensures tree.branches == ForkBranches(old(tree.branches), b, child) && tree.nextBranchId == child + 1
      ensures b in old(tree.Contents()) && tree.Contents() == old(tree.Contents())[child := old(tree.Contents())[b]]
    {
      assert b in tree.Contents();
      hide StoreInv, View, RetainAll, ForkBranches;
      var forked := tree.Fork(b);
      assert forked.Ok?;
      child := forked.value;
    }
  }

  lemma ForkOneFacts(t: A.Tree, b: nat, j: nat, m: map<nat, Branch>, next: nat,
                     active: set<nat>, finalized: set<nat>, parents: seq<Option<nat>>)
    requires A.WellFormed(t) && t.ActiveAt(b)
    requires SameBranches(PartlyForked(t, b, j), m, next) && ForkBooks(t, b, j, active, finalized, parents)
    ensures b in m && next == |parents| == |t.nodes| + j
    ensures SameBranches(PartlyForked(t, b, j + 1), ForkBranches(m, b, next), next + 1)
    ensures ForkBooks(t, b, j + 1, active + {next}, finalized, parents + [Some(b)])
  {
    PartialForkNodes(t, b, j);
    PartialForkStep(t, b, j, m, next);
    ForkBooksStep(t, b, j, active, finalized, parents);
  }

  /** Executing a scheduler's command stream in order never meets a refused fork, a diverging id or a
      branch with live children; unless pages run out, the store ends up mirroring the scheduler, each
      live branch holding the tokens decoded along its path. */
  method ExecuteStream(engine: TreeKVEngine, commands: seq<Command>, taken: seq<bool>, tokens: seq<Token>, ghost t: A.Tree)
    returns (r: Outcome)
    requires |taken| == |tokens| == |commands|
    requires engine.Mirrors(t) && Replay(t, commands).Ok?
    modifies engine, engine.tree, engine.tree.pool, engine.tree.pool.cache
    ensures r == Done ==>
              && engine.Mirrors(Replay(t, commands).value)
              && engine.tree.Contents() == ReplayPaths(old(engine.tree.Contents()), |t.nodes|, commands, taken, tokens)
    ensures r != Done ==> r.CapacityExceeded?
  {
    ghost var now, before := t, engine.tree.Contents();
    hide ApplyPaths, NextAfter, Apply;
    for i := 0 to |commands|
      invariant engine.Mirrors(now) && Replay(now, commands[i..]).Ok?
      invariant Replay(t, commands) == Replay(now, commands[i..])
      invariant ReplayPaths(before, |t.nodes|, commands, taken, tokens)
             == ReplayPaths(engine.tree.Contents(), |now.nodes|, commands[i..], taken[i..], tokens[i..])
    {
      RestOf(commands, i);
      RestOf(taken, i);
      RestOf(tokens, i);
      ApplyNext(now, commands[i]);
      r := engine.Execute(commands[i], taken[i], tokens[i], now);
      if r != Done {
        return;
      }
      now := Apply(now, commands[i]).value;
    }
    r := Done;
  }

  lemma RestOf<T>(xs: seq<T>, i: nat)
    requires i < |xs|
    ensures xs[i..][0] == xs[i] && xs[i..][1..] == xs[i + 1..]
  {
  }
}
