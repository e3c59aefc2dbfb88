/** Forking and pruning branches (core/autotree_core/kv/tree_state.py). */
module KvLifecycle {
  import opened Common
  import opened KvPool
  import opened KvStore

  // ---------------------------------------------------------------------------
  // Reference counting over a table
  // ---------------------------------------------------------------------------

  function RetainAll(p: Pool, table: seq<nat>): (r: Pool)
    requires forall i :: 0 <= i < |table| ==> p.Allocated(table[i])
    ensures r == p.(refs := r.refs) && |r.refs| == |p.refs|
    ensures forall x :: 0 <= x < |p.refs| ==> r.refs[x] >= p.refs[x]
    decreases |table|
  {
    if table == [] then p
    else
      var init := table[..|table| - 1];
      assert p.Allocated(table[|table| - 1]);
      Retain(RetainAll(p, init), table[|table| - 1])
  }

  lemma {:induction false} RetainAllCounts(p: Pool, table: seq<nat>)
    requires forall i :: 0 <= i < |table| ==> p.Allocated(table[i])
    ensures forall x :: 0 <= x < |p.refs| ==> RetainAll(p, table).refs[x] == p.refs[x] + multiset(table)[x]
    ensures PoolOk(p) ==> PoolOk(RetainAll(p, table))
    decreases |table|
  {
    if table != [] {
      var init, last := table[..|table| - 1], table[|table| - 1];
      assert table == init + [last];
      RetainAllCounts(p, init);
    }
  }

  /** The table's occurrences are among the page references. */
  ghost predicate Releasable(p: Pool, table: seq<nat>) {
    && (forall i :: 0 <= i < |table| ==> table[i] < |p.refs|)
    && (forall x :: 0 <= x < |p.refs| ==> multiset(table)[x] <= p.refs[x])
  }

  lemma ReleasablePrefix(p: Pool, table: seq<nat>)
    requires Releasable(p, table) && table != []
    ensures Releasable(p, table[..|table| - 1])
    ensures multiset(table) == multiset(table[..|table| - 1]) + multiset{table[|table| - 1]}
  {
    assert table == table[..|table| - 1] + [table[|table| - 1]];
  }

  function ReleaseAll(p: Pool, table: seq<nat>): (r: Pool)
    requires PoolOk(p) && Releasable(p, table)
    ensures PoolOk(r)
    ensures r == p.(refs := r.refs, lens := r.lens, free := r.free) && |r.refs| == |p.refs|
    ensures forall x :: 0 <= x < |p.refs| ==> r.refs[x] == p.refs[x] - multiset(table)[x]
    ensures forall x :: 0 <= x < |p.refs| && r.refs[x] > 0 ==> r.lens[x] == p.lens[x]
    decreases |table|
  {
    if table == [] then p
    else
      ReleasablePrefix(p, table);
      var init := table[..|table| - 1];
      var q := ReleaseAll(p, init);
      var last := table[|table| - 1];
      assert multiset(table)[last] <= p.refs[last];
      ReleaseOk(q, last);
      Release(q, last)
  }

  // ---------------------------------------------------------------------------
  // Fork
  // ---------------------------------------------------------------------------

  function ForkBranches(m: map<nat, Branch>, b: nat, child: nat): map<nat, Branch>
    requires b in m
  {
    m[b := m[b].(children := m[b].children + {child})][child := Branch(Some(b), m[b].numTokens, m[b].table, {})]
  }

  /** A child that shares every page of its parent. */
  function ForkStore(s: Store, b: nat): Store
    requires b in s.branches && forall i :: 0 <= i < |s.branches[b].table| ==> s.pool.Allocated(s.branches[b].table[i])
  {
    var source := s.branches[b];
    Store(RetainAll(s.pool, source.table).(logical := s.pool.logical + source.numTokens),
          ForkBranches(s.branches, b, s.next),
          s.next + 1)
  }

  lemma ForkTopology(m: map<nat, Branch>, b: nat, child: nat)
    requires Topology(m) && b in m && child !in m && b < child
    requires forall x :: x in m ==> x < child
    ensures Topology(ForkBranches(m, b, child))
  {
    var r := ForkBranches(m, b, child);
    forall x | x in r
      ensures Linked(r, x)
    {
      if x != child {
        assert Linked(m, x);
      }
    }
  }

  lemma ForkReads(s: Store, b: nat, x: nat)
    requires StoreInv(s, 0) && b in s.branches && x in ForkStore(s, b).branches
    ensures var r := ForkStore(s, b);
            var y := if x == s.next then b else x;
            PoolOk(r.pool) && y in s.branches && Covered(r.pool, r.branches[x])
            && Gather(r.pool, r.branches[x]) == Gather(s.pool, s.branches[y])
  {
    var r := ForkStore(s, b);
    var y := if x == s.next then b else x;
    RetainAllCounts(s.pool, s.branches[b].table);
    assert Covered(s.pool, s.branches[y]);
    SameView(s.pool, r.pool, s.branches[y]);
    RelabelledView(r.pool, s.branches[y], r.branches[x]);
  }

  lemma ForkSums(s: Store, b: nat)
    requires StoreInv(s, 0) && b in s.branches
    ensures var m := ForkStore(s, b).branches;
            && PagesOf(m, s.next + 1) == PagesOf(s.branches, s.next) + multiset(s.branches[b].table)
            && TokensOf(m, s.next + 1) == TokensOf(s.branches, s.next) + s.branches[b].numTokens
  {
    SumsAgree(s.branches, ForkStore(s, b).branches, s.next);
  }

  lemma ForkKeepsInvariant(s: Store, b: nat)
    requires StoreInv(s, 0) && b in s.branches
    ensures StoreInv(ForkStore(s, b), 0)
  {
    hide PagesOf, TokensOf, Gather, Covered, Topology, RetainAll;
    TablesAllocated(s, b);
    RetainAllCounts(s.pool, s.branches[b].table);
    ForkSums(s, b);
    ForkTopology(s.branches, b, s.next);
    ForkCovers(s, b);
  }

  lemma ForkCovers(s: Store, b: nat)
    requires StoreInv(s, 0) && b in s.branches
    ensures AllCovered(ForkStore(s, b))
  {
    hide PagesOf, TokensOf, Gather, Topology, RetainAll;
    RetainAllCounts(s.pool, s.branches[b].table);
    forall x | x in ForkStore(s, b).branches
      ensures Covered(ForkStore(s, b).pool, ForkStore(s, b).branches[x])
    {
      ForkReads(s, b, x);
    }
  }

  /** Forking shares pages without copying: the child reads as its parent, nobody else changes, and no
      page is allocated. */
  lemma ForkKeepsStore(s: Store, b: nat)
    requires StoreInv(s, 0) && b in s.branches
    ensures StoreInv(ForkStore(s, b), 0)
    ensures View(ForkStore(s, b)) == View(s)[s.next := View(s)[b]]
    ensures ForkStore(s, b).pool.UsedPages() == s.pool.UsedPages()
  {
    ForkKeepsInvariant(s, b);
    var r := ForkStore(s, b);
    forall x | x in r.branches
      ensures Gather(r.pool, r.branches[x]) == View(s)[if x == s.next then b else x]
    {
      ForkReads(s, b, x);
    }
    hide RetainAll, Gather, Covered, PoolOk, RefsMatch, PagesOf, TokensOf, Topology;
    assert View(r).Keys == View(s)[s.next := View(s)[b]].Keys;
  }

  /** Parent and children do not matter to what a branch reads. */
  lemma RelabelledView(p: Pool, a: Branch, b: Branch)
    requires PoolOk(p) && Covered(p, a) && a.numTokens == b.numTokens && a.table == b.table
    ensures Covered(p, b) && Gather(p, b) == Gather(p, a)
  {
    forall i: nat | i < a.numTokens
      ensures TokenAt(p, b, i) == TokenAt(p, a, i)
    {
    }
  }

  // ---------------------------------------------------------------------------
  // Prune
  // ---------------------------------------------------------------------------

  function PruneBranches(m: map<nat, Branch>, b: nat): map<nat, Branch>
    requires b in m
  {
    var p := m[b].parent;
    if p.Some? && p.value in m then m[p.value := m[p.value].(children := m[p.value].children - {b})] - {b}
    else m - {b}
  }

  function PruneStore(s: Store, b: nat): Store
    requires b in s.branches && PoolOk(s.pool) && Releasable(s.pool, s.branches[b].table)
  {
    var record := s.branches[b];
    Store(ReleaseAll(s.pool, record.table).(logical := s.pool.logical - record.numTokens),
          PruneBranches(s.branches, b),
          s.next)
  }

  lemma PruneTopology(m: map<nat, Branch>, b: nat)
    requires Topology(m) && b in m && m[b].children == {}
    ensures Topology(PruneBranches(m, b))
  {
    var r := PruneBranches(m, b);
    assert Linked(m, b);
    forall x | x in r
      ensures Linked(r, x)
    {
      assert Linked(m, x);
      if m[x].parent.Some? {
        assert m[x].parent.value != b;
      }
    }
  }

  /** A live branch's table can always be released. */
  lemma TableReleasable(s: Store, b: nat)
    requires StoreInv(s, 0) && b in s.branches
    ensures Releasable(s.pool, s.branches[b].table)
  {
    PagesInclude(s.branches, s.next, b);
    var table := s.branches[b].table;
    forall i | 0 <= i < |table|
      ensures table[i] < |s.pool.refs|
    {
      assert table[i] in multiset(table);
    }
  }

  lemma PruneSums(m: map<nat, Branch>, b: nat, n: nat)
    requires Topology(m) && b in m && b < n
    ensures PagesOf(PruneBranches(m, b), n) + multiset(m[b].table) == PagesOf(m, n)
    ensures TokensOf(PruneBranches(m, b), n) + m[b].numTokens == TokensOf(m, n)
  {
    SumsRemove(m, b, n);
    assert Linked(m, b);
    SumsAgree(PruneBranches(m, b), m - {b}, n);
  }

  lemma PruneRefs(s: Store, b: nat)
    requires StoreInv(s, 0) && b in s.branches && Releasable(s.pool, s.branches[b].table)
    ensures RefsMatch(PruneStore(s, b).pool, PagesOf(PruneStore(s, b).branches, s.next))
  {
    var r := PruneStore(s, b);
    PruneSums(s.branches, b, s.next);
    var occurrences := PagesOf(r.branches, s.next);
    var table := multiset(s.branches[b].table);
    forall i: nat
      ensures occurrences[i] + table[i] == PagesOf(s.branches, s.next)[i]
    {
      assert (occurrences + table)[i] == PagesOf(s.branches, s.next)[i];
    }
  }

  lemma PruneReads(s: Store, b: nat, x: nat)
    requires StoreInv(s, 0) && b in s.branches && Releasable(s.pool, s.branches[b].table)
    requires x in PruneStore(s, b).branches
    ensures var r := PruneStore(s, b);
            PoolOk(r.pool) && x in s.branches && Covered(r.pool, r.branches[x])
            && Gather(r.pool, r.branches[x]) == Gather(s.pool, s.branches[x])
  {
    var r := PruneStore(s, b);
    PruneRefs(s, b);
    StillAllocated(r, x);
    assert Covered(s.pool, s.branches[x]);
    SameView(s.pool, r.pool, s.branches[x]);
    RelabelledView(r.pool, s.branches[x], r.branches[x]);
  }

  lemma PruneKeepsInvariant(s: Store, b: nat)
    requires StoreInv(s, 0) && b in s.branches && s.branches[b].children == {}
    requires Releasable(s.pool, s.branches[b].table)
    ensures StoreInv(PruneStore(s, b), 0)
  {
    hide PagesOf, TokensOf, Gather, Covered, Topology, RefsMatch, ReleaseAll, Releasable;
    var r := PruneStore(s, b);
    PruneSums(s.branches, b, s.next);
    PruneTopology(s.branches, b);
    PruneRefs(s, b);
    forall x | x in r.branches
      ensures Covered(r.pool, r.branches[x]) && x < r.next
    {
      PruneReads(s, b, x);
    }
  }

  /** Pruning a leaf removes its path, leaves every other branch as it was, and recycles at once every
      page nobody else references. */
  lemma PruneKeepsStore(s: Store, b: nat)
    requires StoreInv(s, 0) && b in s.branches && s.branches[b].children == {}
    requires Releasable(s.pool, s.branches[b].table)
    ensures StoreInv(PruneStore(s, b), 0)
    ensures View(PruneStore(s, b)) == View(s) - {b}
    ensures forall x: nat :: x < |s.pool.refs| ==>
              (x in PruneStore(s, b).pool.free <==> s.pool.refs[x] == multiset(s.branches[b].table)[x])
  {
    PruneKeepsInvariant(s, b);
    var r := PruneStore(s, b);
    forall x | x in r.branches
      ensures Gather(r.pool, r.branches[x]) == View(s)[x]
    {
      PruneReads(s, b, x);
    }
    hide ReleaseAll, Gather, Covered, RefsMatch, PagesOf, TokensOf, Topology, Releasable;
    assert View(r).Keys == (View(s) - {b}).Keys;
  }

  lemma StillAllocated(s: Store, x: nat)
    requires RefsMatch(s.pool, PagesOf(s.branches, s.next)) && x in s.branches && x < s.next
    ensures forall i :: 0 <= i < |s.branches[x].table| ==> s.pool.Allocated(s.branches[x].table[i])
  {
    PagesInclude(s.branches, s.next, x);
    var table := s.branches[x].table;
    forall i | 0 <= i < |table|
      ensures s.pool.Allocated(table[i])
    {
      assert table[i] in multiset(table);
    }
  }
}
