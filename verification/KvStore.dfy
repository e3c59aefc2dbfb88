/** Branches as views over the paged pool, and what every store keeps (core/autotree_core/kv/tree_state.py,
    core/autotree_core/kv/gather.py). */
module KvStore {
  import opened Common
  import opened PageMath
  import opened KvPool

  datatype Branch = Branch(parent: Option<nat>, numTokens: nat, table: seq<nat>, children: set<nat>)

  datatype Store = Store(pool: Pool, branches: map<nat, Branch>, next: nat)

  // ---------------------------------------------------------------------------
  // Branch views
  // ---------------------------------------------------------------------------

  /** The coverage check: as many pages as the tokens need, each filled as far as they reach. */
  predicate Covered(p: Pool, b: Branch)
    requires p.pageSize > 0
  {
    && |b.table| == CeilDiv(b.numTokens, p.pageSize)
    && forall i :: 0 <= i < |b.table| ==>
         p.Allocated(b.table[i]) && b.table[i] < |p.lens| && p.lens[b.table[i]] == Fill(b.numTokens, p.pageSize, i)
  }

  /** Token i of a branch. */
  function TokenAt(p: Pool, b: Branch, i: nat): Token
    requires PoolOk(p) && Covered(p, b) && i < b.numTokens
  {
    SlotInTable(i, b.numTokens, p.pageSize);
    p.pages[b.table[i / p.pageSize]][i % p.pageSize]
  }

  /** The branch's token path. */
  function Gather(p: Pool, b: Branch): (r: seq<Token>)
    requires PoolOk(p) && Covered(p, b)
    ensures |r| == b.numTokens
  {
    seq(b.numTokens, i requires 0 <= i < b.numTokens => TokenAt(p, b, i))
  }

  lemma GatherAt(p: Pool, b: Branch, i: nat)
    requires PoolOk(p) && Covered(p, b) && i < b.numTokens
    ensures i / p.pageSize < |b.table| && b.table[i / p.pageSize] < |p.pages|
    ensures i % p.pageSize < |p.pages[b.table[i / p.pageSize]]|
    ensures Gather(p, b)[i] == p.pages[b.table[i / p.pageSize]][i % p.pageSize]
  {
    SlotInTable(i, b.numTokens, p.pageSize);
    assert p.Allocated(b.table[i / p.pageSize]);
    assert Gather(p, b)[i] == TokenAt(p, b, i);
  }

  /** The store's meaning: every live branch with its token sequence. */
  ghost function View(s: Store): (v: map<nat, seq<Token>>)
    requires PoolOk(s.pool) && AllCovered(s)
  {
    map b | b in s.branches :: Gather(s.pool, s.branches[b])
  }

  // ---------------------------------------------------------------------------
  // Sums over the live branches
  // ---------------------------------------------------------------------------

  /** All page occurrences in the tables of the branches below n. */
  ghost function PagesOf(m: map<nat, Branch>, n: nat): multiset<nat> {
    if n == 0 then multiset{}
    else PagesOf(m, n - 1) + if n - 1 in m then multiset(m[n - 1].table) else multiset{}
  }

  ghost function TokensOf(m: map<nat, Branch>, n: nat): nat {
    if n == 0 then 0 else TokensOf(m, n - 1) + if n - 1 in m then m[n - 1].numTokens else 0
  }

  lemma {:induction false} SumsAgree(m: map<nat, Branch>, r: map<nat, Branch>, n: nat)
    requires forall b :: b < n ==> (b in m <==> b in r)
    requires forall b :: b < n && b in m ==> m[b].table == r[b].table && m[b].numTokens == r[b].numTokens
    ensures PagesOf(m, n) == PagesOf(r, n) && TokensOf(m, n) == TokensOf(r, n)
  {
    if n > 0 { SumsAgree(m, r, n - 1); }
  }

  /** Replacing one branch's record exchanges its pages and its tokens. */
  lemma {:induction false} SumsUpdate(m: map<nat, Branch>, k: nat, r: Branch, n: nat)
    requires k in m && k < n
    ensures PagesOf(m[k := r], n) + multiset(m[k].table) == PagesOf(m, n) + multiset(r.table)
    ensures TokensOf(m[k := r], n) + m[k].numTokens == TokensOf(m, n) + r.numTokens
  {
    var u := m[k := r];
    if k == n - 1 {
      SumsAgree(m, u, n - 1);
    } else {
      SumsUpdate(m, k, r, n - 1);
      assert n - 1 in u <==> n - 1 in m;
      assert n - 1 in m ==> u[n - 1] == m[n - 1];
      var last := if n - 1 in m then multiset(m[n - 1].table) else multiset{};
      AddToBoth(PagesOf(u, n - 1), multiset(m[k].table), PagesOf(m, n - 1), multiset(r.table), last);
    }
  }

  lemma AddToBoth(a: multiset<nat>, x: multiset<nat>, b: multiset<nat>, y: multiset<nat>, z: multiset<nat>)
    requires a + x == b + y
    ensures (a + z) + x == (b + z) + y
  {
    forall e: nat
      ensures ((a + z) + x)[e] == ((b + z) + y)[e]
    {
      assert (a + x)[e] == (b + y)[e];
    }
  }

  lemma {:induction false} SumsRemove(m: map<nat, Branch>, k: nat, n: nat)
    requires k in m && k < n
    ensures PagesOf(m - {k}, n) + multiset(m[k].table) == PagesOf(m, n)
    ensures TokensOf(m - {k}, n) + m[k].numTokens == TokensOf(m, n)
  {
    if k == n - 1 {
      SumsAgree(m, m - {k}, n - 1);
    } else {
      SumsRemove(m, k, n - 1);
    }
  }

  lemma {:induction false} PagesInclude(m: map<nat, Branch>, n: nat, b: nat)
    requires b in m && b < n
    ensures multiset(m[b].table) <= PagesOf(m, n)
  {
    if b < n - 1 { PagesInclude(m, n - 1, b); }
  }

  lemma {:induction false} PagesIncludeTwo(m: map<nat, Branch>, n: nat, b: nat, c: nat)
    requires b in m && c in m && b < c < n
    ensures multiset(m[b].table) + multiset(m[c].table) <= PagesOf(m, n)
  {
    if c < n - 1 { PagesIncludeTwo(m, n - 1, b, c); } else { PagesInclude(m, n - 1, b); }
  }

  /** A page that occurs once occurs nowhere else. */
  lemma SoleOccurrence(m: map<nat, Branch>, n: nat, page: nat, b: nat, i: nat, c: nat, j: nat)
    requires PagesOf(m, n)[page] <= 1
    requires b in m && b < n && i < |m[b].table| && m[b].table[i] == page
    requires c in m && c < n && j < |m[c].table| && m[c].table[j] == page
    ensures b == c && i == j
  {
    assert page in multiset(m[b].table) && page in multiset(m[c].table);
    if b < c {
      PagesIncludeTwo(m, n, b, c);
    } else if c < b {
      PagesIncludeTwo(m, n, c, b);
    } else {
      PagesInclude(m, n, b);
      if i < j { TwiceInTable(m[b].table, i, j); } else if j < i { TwiceInTable(m[b].table, j, i); }
    }
  }

  lemma TwiceInTable(table: seq<nat>, i: nat, j: nat)
    requires i < j < |table| && table[i] == table[j]
    ensures multiset(table)[table[i]] >= 2
  {
    assert table == table[..j] + table[j..];
    assert table[..j][i] == table[i] && table[j..][0] == table[i];
    assert table[i] in multiset(table[..j]) && table[i] in multiset(table[j..]);
  }

  lemma {:induction false} OccurrenceHasBranch(m: map<nat, Branch>, n: nat, page: nat)
    requires page in PagesOf(m, n)
    ensures exists b :: b in m && b < n && page in m[b].table
  {
    if n - 1 in m && page in m[n - 1].table {
    } else {
      OccurrenceHasBranch(m, n - 1, page);
    }
  }

  // ---------------------------------------------------------------------------
  // The store invariant
  // ---------------------------------------------------------------------------

  /** Each page is referenced once for every occurrence in a live table. */
  ghost predicate RefsMatch(p: Pool, occurrences: multiset<nat>) {
    && (forall i :: 0 <= i < |p.refs| ==> p.refs[i] == occurrences[i])
    && (forall i :: i in occurrences ==> i < |p.refs|)
  }

  predicate AllCovered(s: Store)
    requires s.pool.pageSize > 0
  {
    forall b :: b in s.branches ==> Covered(s.pool, s.branches[b])
  }

  /** Parents and children name each other, and parents are older. */
  ghost predicate Topology(m: map<nat, Branch>) {
    forall b {:trigger m[b]} {:trigger b in m} :: b in m ==> Linked(m, b)
  }

  ghost predicate Linked(m: map<nat, Branch>, b: nat)
    requires b in m
  {
    && (m[b].parent.Some? ==> m[b].parent.value < b && m[b].parent.value in m && b in m[m[b].parent.value].children)
    && (forall c :: c in m[b].children ==> c in m && m[c].parent == Some(b))
  }

  /** The invariant of every store; `lag` tokens are not yet in the logical count. */
  ghost predicate StoreInv(s: Store, lag: nat) {
    && PoolOk(s.pool)
    && (forall b :: b in s.branches ==> b < s.next)
    && RefsMatch(s.pool, PagesOf(s.branches, s.next))
    && AllCovered(s)
    && s.pool.logical + lag == TokensOf(s.branches, s.next)
    && Topology(s.branches)
  }

  function RootBranch(): Branch {
    Branch(None, 0, [], {})
  }

  function EmptyStore(capacity: nat, pageSize: nat, zero: Token): Store {
    Store(EmptyPool(capacity, pageSize, zero), map[0 := RootBranch()], 1)
  }

  lemma EmptyStoreInv(capacity: nat, pageSize: nat, zero: Token)
    requires pageSize > 0
    ensures StoreInv(EmptyStore(capacity, pageSize, zero), 0)
    ensures View(EmptyStore(capacity, pageSize, zero)) == map[0 := []]
  {
    EmptyPoolOk(capacity, pageSize, zero);
    CeilDivSpec(0, pageSize);
    var s := EmptyStore(capacity, pageSize, zero);
    assert PagesOf(s.branches, 1) == PagesOf(s.branches, 0);
    assert TokensOf(s.branches, 1) == TokensOf(s.branches, 0);
    assert Gather(s.pool, RootBranch()) == [];
  }

  /** Page `to` of one pool is allocated there and holds what page `from` of another does. */
  predicate SameEntry(p: Pool, from: nat, q: Pool, to: nat) {
    && q.Allocated(to)
    && from < |p.pages| && to < |q.pages| && q.pages[to] == p.pages[from]
    && from < |p.lens| && to < |q.lens| && q.lens[to] == p.lens[from]
  }

  /** Two tables whose entries hold the same pages show the same branch. */
  lemma SameContent(p: Pool, b: Branch, q: Pool, c: Branch)
    requires PoolOk(p) && PoolOk(q) && Covered(p, b)
    requires p.pageSize == q.pageSize
    requires c.numTokens == b.numTokens && |c.table| == |b.table|
    requires forall i :: 0 <= i < |b.table| ==> SameEntry(p, b.table[i], q, c.table[i])
    ensures Covered(q, c)
    ensures Gather(q, c) == Gather(p, b)
  {
    forall i: nat | i < b.numTokens
      ensures TokenAt(q, c, i) == TokenAt(p, b, i)
    {
      SlotInTable(i, b.numTokens, p.pageSize);
      assert SameEntry(p, b.table[i / p.pageSize], q, c.table[i / p.pageSize]);
    }
  }

  /** Two pools that agree on the pages of a table show the same branch. */
  lemma SameView(p: Pool, q: Pool, b: Branch)
    requires PoolOk(p) && PoolOk(q) && Covered(p, b)
    requires p.pageSize == q.pageSize && |p.refs| == |q.refs|
    requires forall i :: 0 <= i < |b.table| ==>
               && q.Allocated(b.table[i])
               && q.pages[b.table[i]] == p.pages[b.table[i]]
               && q.lens[b.table[i]] == p.lens[b.table[i]]
    ensures Covered(q, b)
    ensures Gather(q, b) == Gather(p, b)
  {
    hide Gather;
    SameContent(p, b, q, b);
  }

  lemma TablesAllocated(s: Store, b: nat)
    requires PoolOk(s.pool) && AllCovered(s) && b in s.branches
    ensures forall i :: 0 <= i < |s.branches[b].table| ==> s.pool.Allocated(s.branches[b].table[i])
  {
  }

  // ---------------------------------------------------------------------------
  // Memory accounting
  // ---------------------------------------------------------------------------

  lemma {:induction false} SetInMultiset(u: set<nat>, m: multiset<nat>)
    requires forall x :: x in u ==> x in m
    ensures |u| <= |m|
  {
    if u != {} {
      var x :| x in u;
      SetInMultiset(u - {x}, m - multiset{x});
      assert m == (m - multiset{x}) + multiset{x};
    }
  }

  ghost function TablesOf(m: map<nat, Branch>, n: nat): nat {
    if n == 0 then 0 else TablesOf(m, n - 1) + if n - 1 in m then |m[n - 1].table| else 0
  }

  ghost function LiveBelow(m: map<nat, Branch>, n: nat): nat {
    if n == 0 then 0 else LiveBelow(m, n - 1) + if n - 1 in m then 1 else 0
  }

  lemma {:induction false} PagesCount(m: map<nat, Branch>, n: nat)
    ensures |PagesOf(m, n)| == TablesOf(m, n)
  {
    if n > 0 { PagesCount(m, n - 1); }
  }

  lemma {:induction false} TablesFitTokens(p: Pool, m: map<nat, Branch>, n: nat)
    requires p.pageSize > 0 && forall b :: b in m ==> Covered(p, m[b])
    ensures TablesOf(m, n) * p.pageSize <= TokensOf(m, n) + LiveBelow(m, n) * (p.pageSize - 1)
  {
    if n > 0 {
      TablesFitTokens(p, m, n - 1);
      if n - 1 in m {
        var b := m[n - 1];
        CeilDivSpec(b.numTokens, p.pageSize);
        assert |b.table| * p.pageSize <= b.numTokens + (p.pageSize - 1);
        Distribute(TablesOf(m, n - 1), |b.table|, p.pageSize);
        Distribute(LiveBelow(m, n - 1), 1, p.pageSize - 1);
      }
    }
  }

  lemma Distribute(a: int, b: int, k: int)
    ensures (a + b) * k == a * k + b * k
  {
  }

  ghost function InUse(p: Pool): set<nat> {
    set x: nat | x < |p.refs| && p.refs[x] != 0
  }

  /** The used pages are the referenced ones. */
  lemma UsedPagesCount(p: Pool)
    requires PoolOk(p)
    ensures p.UsedPages() == |InUse(p)|
  {
    var all := IdsFrom(0, |p.refs|);
    DistinctCount(all);
    DistinctCount(p.free);
    assert Elements(all) == InUse(p) + Elements(p.free);
  }

  /** The books of a reachable store: refcounts are occurrences, the free list is the unreferenced pages
      without repeats, logical tokens are the branch lengths, and the physical token slots exceed them by
      less than a page a branch. */
  lemma PhysicalTokensBounded(s: Store)
    requires StoreInv(s, 0)
    ensures forall p: nat :: p < |s.pool.refs| ==> s.pool.refs[p] == PagesOf(s.branches, s.next)[p]
    ensures Distinct(s.pool.free) && forall p: nat :: p in s.pool.free <==> p < |s.pool.refs| && s.pool.refs[p] == 0
    ensures s.pool.PhysicalTokens() <= s.pool.logical + LiveBelow(s.branches, s.next) * (s.pool.pageSize - 1)
    ensures s.pool.logical == TokensOf(s.branches, s.next)
    ensures s.pool.UsedPages() == |InUse(s.pool)|
  {
    var pages := PagesOf(s.branches, s.next);
    UsedPagesCount(s.pool);
    SetInMultiset(InUse(s.pool), pages);
    PagesCount(s.branches, s.next);
    TablesFitTokens(s.pool, s.branches, s.next);
    MulMonotone(s.pool.UsedPages(), TablesOf(s.branches, s.next), s.pool.pageSize);
  }
}
