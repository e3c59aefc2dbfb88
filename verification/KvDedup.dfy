/** Content-addressed deduplication of full pages (core/autotree_core/kv/dedup.py and the scan in
    core/autotree_core/kv/tree_state.py). */
module KvDedup {
  import opened KvPool
  import opened KvStore

  type Digest(==)

  // ---------------------------------------------------------------------------
  // Planning the redirects
  // ---------------------------------------------------------------------------

  /** Every candidate that is not the lowest with its content is sent to the lowest; the others stay. */
  ghost predicate IsPlan(pages: seq<Page>, candidates: set<nat>, redirects: map<nat, nat>) {
    && (forall p :: p in candidates ==> p < |pages|)
    && (forall p :: p in redirects ==>
          && p in candidates && redirects[p] in candidates
          && Lowest(pages, candidates, p, redirects[p])
          && redirects[p] != p)
    && (forall p :: p in candidates && p !in redirects ==> Lowest(pages, candidates, p, p))
  }

  /** `low` is the lowest candidate whose content equals that of `p`. */
  ghost predicate Lowest(pages: seq<Page>, candidates: set<nat>, p: nat, low: nat) {
    && p < |pages| && low < |pages|
    && pages[low] == pages[p]
    && forall q :: q in candidates && q < |pages| && pages[q] == pages[p] ==> low <= q
  }

  /** Targets stay where they are. */
  lemma TargetsStay(pages: seq<Page>, candidates: set<nat>, redirects: map<nat, nat>)
    requires IsPlan(pages, candidates, redirects)
    ensures forall p :: p in redirects ==> redirects[p] !in redirects && redirects[p] < p
  {
    forall p | p in redirects
      ensures redirects[p] !in redirects && redirects[p] < p
    {
      var low := redirects[p];
      assert Lowest(pages, candidates, p, low);
      if low in redirects {
        assert false;
      }
    }
  }

  /** When no two candidates are equal there is nothing to redirect. */
  lemma DistinctPagesNeedNoPlan(pages: seq<Page>, candidates: set<nat>, redirects: map<nat, nat>)
    requires IsPlan(pages, candidates, redirects)
    requires forall p, q :: p in candidates && q in candidates && p != q ==> pages[p] != pages[q]
    ensures redirects == map[]
  {
    assert redirects.Keys == {};
  }

  /** The bucket loop's bookkeeping over the candidates it has seen: kept pages sit in the bucket of
      their digest, the others are redirected. */
  ghost predicate Sorted(pages: seq<Page>, digest: Page -> Digest, seen: set<nat>, buckets: map<Digest, seq<nat>>,
                         redirects: map<nat, nat>)
  {
    && IsPlan(pages, seen, redirects)
    && (forall p :: p in seen && p !in redirects ==> digest(pages[p]) in buckets && p in buckets[digest(pages[p])])
    && (forall d, i :: d in buckets && 0 <= i < |buckets[d]| ==>
          && buckets[d][i] in seen && buckets[d][i] !in redirects
          && digest(pages[buckets[d][i]]) == d)
  }

  ghost function FullPages(p: Pool, occurrences: multiset<nat>): set<nat> {
    set x | x in occurrences && x < |p.lens| && p.lens[x] == p.pageSize
  }

  ghost function Below(pages: set<nat>, n: nat): set<nat> {
    set x | x in pages && x < n
  }

  /** Plans duplicate-to-canonical redirects without changing the pool. */
  method DiscoverPageRedirects(pool: PagedKVPool, occurrences: multiset<nat>, digest: Page -> Digest)
    returns (redirects: map<nat, nat>)
    requires pool.Valid() && forall p :: p in occurrences ==> pool.State().Allocated(p)
    ensures IsPlan(pool.cache[..], FullPages(pool.State(), occurrences), redirects)
  {
    var buckets: map<Digest, seq<nat>> := map[];
    redirects := map[];
    ghost var pages := pool.cache[..];
    ghost var full := FullPages(pool.State(), occurrences);
    FullPagesInPool(pool, occurrences);
    SortedNothing(pages, digest, full);
    hide PoolOk, FullPages, Below, Sorted, IsPlan;
    for page := 0 to pool.capacity
      invariant Sorted(pages, digest, Below(full, page), buckets, redirects)
    {
      BelowStep(full, page);
      hide Sorted;
      if page in occurrences && pool.validLengths[page] == pool.pageSize {
        buckets, redirects := SortPage(pool, page, digest, buckets, redirects, Below(full, page));
      }
    }
    BelowAll(full, pool.capacity);
    SortedIsPlan(pages, digest, full, buckets, redirects);
  }

  lemma SortedNothing(pages: seq<Page>, digest: Page -> Digest, full: set<nat>)
    ensures Sorted(pages, digest, Below(full, 0), map[], map[])
  {
  }

  lemma SortedIsPlan(pages: seq<Page>, digest: Page -> Digest, seen: set<nat>, buckets: map<Digest, seq<nat>>,
                     redirects: map<nat, nat>)
    requires Sorted(pages, digest, seen, buckets, redirects)
    ensures IsPlan(pages, seen, redirects)
  {
  }

  lemma BelowStep(pages: set<nat>, n: nat)
    ensures Below(pages, n + 1) == if n in pages then Below(pages, n) + {n} else Below(pages, n)
    ensures forall x :: x in Below(pages, n) ==> x < n
  {
  }

  lemma BelowAll(pages: set<nat>, n: nat)
    requires forall x :: x in pages ==> x < n
    ensures Below(pages, n) == pages
  {
  }

  lemma FullPagesInPool(pool: PagedKVPool, occurrences: multiset<nat>)
    requires pool.Valid() && forall p :: p in occurrences ==> pool.State().Allocated(p)
    ensures pool.cache.Length == |pool.validLengths| == pool.capacity
    ensures forall p :: p in FullPages(pool.State(), occurrences) <==>
              p in occurrences && p < pool.capacity && pool.validLengths[p] == pool.pageSize
  {
  }

  /** One candidate: redirected to an equal page already kept, or kept itself. */
  method SortPage(pool: PagedKVPool, page: nat, digest: Page -> Digest, buckets: map<Digest, seq<nat>>,
                  redirects: map<nat, nat>, ghost seen: set<nat>)
    returns (buckets': map<Digest, seq<nat>>, redirects': map<nat, nat>)
    requires page < pool.cache.Length && forall p :: p in seen ==> p < page
    requires Sorted(pool.cache[..], digest, seen, buckets, redirects)
    ensures Sorted(pool.cache[..], digest, seen + {page}, buckets', redirects')
  {
    ghost var pages := pool.cache[..];
    var d := digest(pool.cache[page]);
    var bucket := if d in buckets then buckets[d] else [];
    BucketInPool(pages, digest, seen, buckets, redirects, bucket);
    var i := FirstEqual(pool, bucket, page);
    hide Sorted;
    if i < |bucket| {
      RedirectOne(pages, digest, seen, buckets, redirects, page, bucket[i]);
      buckets', redirects' := buckets, redirects[page := bucket[i]];
    } else {
      KeepOne(pages, digest, seen, buckets, redirects, page, d, bucket);
      buckets', redirects' := buckets[d := bucket + [page]], redirects;
    }
  }

  /** The first page of the bucket with the same bytes. */
  method FirstEqual(pool: PagedKVPool, bucket: seq<nat>, page: nat) returns (i: nat)
    requires page < pool.cache.Length && forall j :: 0 <= j < |bucket| ==> bucket[j] < pool.cache.Length
    ensures i <= |bucket|
    ensures i < |bucket| ==> pool.cache[bucket[i]] == pool.cache[page]
    ensures forall j :: 0 <= j < i ==> pool.cache[bucket[j]] != pool.cache[page]
  {
    i := 0;
    while i < |bucket| && pool.cache[bucket[i]] != pool.cache[page]
      invariant 0 <= i <= |bucket|
      invariant forall j :: 0 <= j < i ==> pool.cache[bucket[j]] != pool.cache[page]
    {
      i := i + 1;
    }
  }

  lemma BucketInPool(pages: seq<Page>, digest: Page -> Digest, seen: set<nat>, buckets: map<Digest, seq<nat>>,
                     redirects: map<nat, nat>, bucket: seq<nat>)
    requires Sorted(pages, digest, seen, buckets, redirects) && (bucket == [] || bucket in buckets.Values)
    ensures forall j :: 0 <= j < |bucket| ==> bucket[j] in seen && bucket[j] < |pages| && bucket[j] !in redirects
  {
  }

  lemma RedirectOne(pages: seq<Page>, digest: Page -> Digest, seen: set<nat>, buckets: map<Digest, seq<nat>>,
                    redirects: map<nat, nat>, page: nat, target: nat)
    requires page < |pages| && forall p :: p in seen ==> p < page
    requires Sorted(pages, digest, seen, buckets, redirects)
    requires target in seen && target !in redirects && pages[target] == pages[page]
    ensures Sorted(pages, digest, seen + {page}, buckets, redirects[page := target])
  {
    var r := redirects[page := target];
    assert Lowest(pages, seen, target, target);
    forall p | p in r
      ensures r[p] in seen + {page} && Lowest(pages, seen + {page}, p, r[p]) && r[p] != p
    {
      assert p != page ==> Lowest(pages, seen, p, redirects[p]);
    }
    forall p | p in seen + {page} && p !in r
      ensures Lowest(pages, seen + {page}, p, p)
    {
      assert Lowest(pages, seen, p, p);
    }
  }

  lemma KeepOne(pages: seq<Page>, digest: Page -> Digest, seen: set<nat>, buckets: map<Digest, seq<nat>>,
                redirects: map<nat, nat>, page: nat, d: Digest, bucket: seq<nat>)
    requires page < |pages| && (forall p :: p in seen ==> p < page) && d == digest(pages[page])
    requires bucket == if d in buckets then buckets[d] else []
    requires Sorted(pages, digest, seen, buckets, redirects)
    requires forall j :: 0 <= j < |bucket| ==> bucket[j] < |pages| && pages[bucket[j]] != pages[page]
    ensures Sorted(pages, digest, seen + {page}, buckets[d := bucket + [page]], redirects)
  {
    NoEqualSeen(pages, digest, seen, buckets, redirects, page, d, bucket);
    KeepOnePlan(pages, seen, redirects, page);
    var b := buckets[d := bucket + [page]];
    forall x, i | x in b && 0 <= i < |b[x]|
      ensures b[x][i] in seen + {page} && b[x][i] !in redirects && digest(pages[b[x][i]]) == x
    {
      if x == d && i < |bucket| {
        assert b[x][i] == buckets[d][i];
      }
    }
  }

  /** Equal content has an equal digest, so an equal page that was kept would be in the bucket. */
  lemma NoEqualSeen(pages: seq<Page>, digest: Page -> Digest, seen: set<nat>, buckets: map<Digest, seq<nat>>,
                    redirects: map<nat, nat>, page: nat, d: Digest, bucket: seq<nat>)
    requires page < |pages| && d == digest(pages[page])
    requires bucket == if d in buckets then buckets[d] else []
    requires Sorted(pages, digest, seen, buckets, redirects)
    requires forall j :: 0 <= j < |bucket| ==> bucket[j] < |pages| && pages[bucket[j]] != pages[page]
    ensures forall q :: q in seen ==> pages[q] != pages[page]
  {
    TargetsStay(pages, seen, redirects);
    forall q | q in seen
      ensures pages[q] != pages[page]
    {
      var kept := if q in redirects then redirects[q] else q;
      assert q in redirects ==> Lowest(pages, seen, q, redirects[q]);
      assert pages[kept] == pages[q] && kept in seen && kept !in redirects;
      assert digest(pages[kept]) == d ==> kept in bucket;
    }
  }

  lemma KeepOnePlan(pages: seq<Page>, seen: set<nat>, redirects: map<nat, nat>, page: nat)
    requires IsPlan(pages, seen, redirects) && page < |pages| && page !in seen
    requires forall q :: q in seen ==> pages[q] != pages[page]
    ensures IsPlan(pages, seen + {page}, redirects)
  {
    forall p | p in redirects
      ensures Lowest(pages, seen + {page}, p, redirects[p])
    {
      assert Lowest(pages, seen, p, redirects[p]);
    }
    forall p | p in seen + {page} && p !in redirects
      ensures Lowest(pages, seen + {page}, p, p)
    {
      assert p != page ==> Lowest(pages, seen, p, p);
    }
  }

  // ---------------------------------------------------------------------------
  // Carrying the plan out
  // ---------------------------------------------------------------------------

  function Redirected(r: map<nat, nat>, x: nat): nat {
    if x in r then r[x] else x
  }

  function RedirectTable(r: map<nat, nat>, table: seq<nat>): (t: seq<nat>)
    ensures |t| == |table|
    ensures forall i :: 0 <= i < |table| ==> t[i] == Redirected(r, table[i])
  {
    if table == [] then [] else RedirectTable(r, table[..|table| - 1]) + [Redirected(r, table[|table| - 1])]
  }

  function RedirectBranches(m: map<nat, Branch>, r: map<nat, nat>): map<nat, Branch> {
    map b | b in m :: m[b].(table := RedirectTable(r, m[b].table))
  }

  /** How many occurrences the redirects of the pages below k bring to page x. */
  ghost function Gain(ms: multiset<nat>, r: map<nat, nat>, k: nat, x: nat): nat {
    if k == 0 then 0 else Gain(ms, r, k - 1, x) + if k - 1 in r && r[k - 1] == x then ms[k - 1] else 0
  }

  /** The occurrences of page x once everything is redirected; k bounds the page ids. */
  ghost function Moved(ms: multiset<nat>, r: map<nat, nat>, k: nat, x: nat): nat {
    (if x in r then 0 else ms[x]) + Gain(ms, r, k, x)
  }

  lemma {:induction false} GainAdds(a: multiset<nat>, b: multiset<nat>, r: map<nat, nat>, k: nat, x: nat)
    ensures Gain(a + b, r, k, x) == Gain(a, r, k, x) + Gain(b, r, k, x)
  {
    if k > 0 { GainAdds(a, b, r, k - 1, x); }
  }

  lemma {:induction false} GainOfNone(r: map<nat, nat>, k: nat, x: nat)
    ensures Gain(multiset{}, r, k, x) == 0
  {
    if k > 0 { GainOfNone(r, k - 1, x); }
  }

  lemma {:induction false} GainOfOne(y: nat, one: multiset<nat>, r: map<nat, nat>, k: nat, x: nat)
    requires one == multiset{y}
    ensures Gain(one, r, k, x) == if y < k && y in r && r[y] == x then 1 else 0
  {
    if k > 0 { GainOfOne(y, one, r, k - 1, x); }
  }

  lemma {:induction false} TableMoves(table: seq<nat>, r: map<nat, nat>, k: nat, x: nat)
    requires forall i :: 0 <= i < |table| ==> table[i] < k
    requires forall y :: y in r ==> r[y] != y
    ensures multiset(RedirectTable(r, table))[x] == Moved(multiset(table), r, k, x)
  {
    if table == [] {
      GainOfNone(r, k, x);
    } else {
      var init, last := table[..|table| - 1], table[|table| - 1];
      var one: multiset<nat> := multiset{last};
      assert table == init + [last];
      TableMoves(init, r, k, x);
      GainAdds(multiset(init), one, r, k, x);
      GainOfOne(last, one, r, k, x);
      assert multiset(table) == multiset(init) + one;
    }
  }

  lemma MoveTogether(a: multiset<nat>, b: multiset<nat>, a': multiset<nat>, b': multiset<nat>, r: map<nat, nat>, k: nat, x: nat)
    requires a'[x] == Moved(a, r, k, x) && b'[x] == Moved(b, r, k, x)
    ensures (a' + b')[x] == Moved(a + b, r, k, x)
  {
    GainAdds(a, b, r, k, x);
  }

  lemma {:induction false} PagesMove(m: map<nat, Branch>, r: map<nat, nat>, n: nat, k: nat, x: nat)
    requires forall b, i :: b in m && 0 <= i < |m[b].table| ==> m[b].table[i] < k
    requires forall y :: y in r ==> r[y] != y
    ensures PagesOf(RedirectBranches(m, r), n)[x] == Moved(PagesOf(m, n), r, k, x)
  {
    hide PagesOf, Moved, RedirectBranches;
    if n == 0 {
      NoneMove(m, r, k, x);
    } else {
      PagesMove(m, r, n - 1, k, x);
      if n - 1 in m {
        BranchMoves(m, r, n - 1, k, x);
        OneMoreMoves(m, r, n, k, x);
      } else {
        PagesSkip(m, r, n);
      }
    }
  }

  lemma NoneMove(m: map<nat, Branch>, r: map<nat, nat>, k: nat, x: nat)
    ensures PagesOf(RedirectBranches(m, r), 0)[x] == Moved(PagesOf(m, 0), r, k, x)
  {
    GainOfNone(r, k, x);
  }

  lemma PagesSkip(m: map<nat, Branch>, r: map<nat, nat>, n: nat)
    requires n > 0 && n - 1 !in m
    ensures PagesOf(m, n) == PagesOf(m, n - 1)
    ensures PagesOf(RedirectBranches(m, r), n) == PagesOf(RedirectBranches(m, r), n - 1)
  {
  }

  lemma OneMoreMoves(m: map<nat, Branch>, r: map<nat, nat>, n: nat, k: nat, x: nat)
    requires n > 0 && n - 1 in m && n - 1 in RedirectBranches(m, r)
    requires PagesOf(RedirectBranches(m, r), n - 1)[x] == Moved(PagesOf(m, n - 1), r, k, x)
    requires multiset(RedirectBranches(m, r)[n - 1].table)[x] == Moved(multiset(m[n - 1].table), r, k, x)
    ensures PagesOf(RedirectBranches(m, r), n)[x] == Moved(PagesOf(m, n), r, k, x)
  {
    hide RedirectBranches, Moved;
    MoveTogether(PagesOf(m, n - 1), multiset(m[n - 1].table), PagesOf(RedirectBranches(m, r), n - 1),
                 multiset(RedirectBranches(m, r)[n - 1].table), r, k, x);
  }

  lemma {:induction false} TokensStay(m: map<nat, Branch>, r: map<nat, nat>, n: nat)
    ensures TokensOf(RedirectBranches(m, r), n) == TokensOf(m, n)
  {
    if n > 0 { TokensStay(m, r, n - 1); }
  }

  lemma RedirectKeys(m: map<nat, Branch>, r: map<nat, nat>)
    ensures RedirectBranches(m, r).Keys == m.Keys
  {
  }

  lemma BranchMoves(m: map<nat, Branch>, r: map<nat, nat>, b: nat, k: nat, x: nat)
    requires b in m && forall i :: 0 <= i < |m[b].table| ==> m[b].table[i] < k
    requires forall y :: y in r ==> r[y] != y
    ensures b in RedirectBranches(m, r) && RedirectBranches(m, r)[b].numTokens == m[b].numTokens
    ensures multiset(RedirectBranches(m, r)[b].table)[x] == Moved(multiset(m[b].table), r, k, x)
  {
    TableMoves(m[b].table, r, k, x);
  }

  /** The pool after the references have been moved from the duplicates to their targets. */
  ghost predicate RefsMoved(p: Pool, q: Pool, occurrences: multiset<nat>, r: map<nat, nat>) {
    && PoolOk(q)
    && q == p.(refs := q.refs, lens := q.lens, free := q.free)
    && |q.refs| == |p.refs| == |p.lens|
    && (forall x :: 0 <= x < |p.refs| ==> q.refs[x] == Moved(occurrences, r, |p.refs|, x))
    && (forall x :: 0 <= x < |p.refs| && q.refs[x] > 0 ==> q.lens[x] == p.lens[x])
  }

  /** A plan for the live pages of a store. */
  ghost predicate PlanFor(s: Store, r: map<nat, nat>) {
    IsPlan(s.pool.pages, FullPages(s.pool, PagesOf(s.branches, s.next)), r)
  }

  lemma RedirectedRefs(s: Store, q: Pool, r: map<nat, nat>)
    requires StoreInv(s, 0) && PlanFor(s, r) && RefsMoved(s.pool, q, PagesOf(s.branches, s.next), r)
    ensures RefsMatch(q, PagesOf(RedirectBranches(s.branches, r), s.next))
    ensures TokensOf(RedirectBranches(s.branches, r), s.next) == TokensOf(s.branches, s.next)
  {
    TargetsStay(s.pool.pages, FullPages(s.pool, PagesOf(s.branches, s.next)), r);
    TablesBelow(s);
    var m, ms := RedirectBranches(s.branches, r), PagesOf(s.branches, s.next);
    var k := |s.pool.refs|;
    TokensStay(s.branches, r, s.next);
    forall x: nat
      ensures PagesOf(m, s.next)[x] == Moved(ms, r, k, x)
    {
      PagesMove(s.branches, r, s.next, k, x);
    }
    hide StoreInv, PlanFor, IsPlan, PagesOf, TokensOf, RedirectBranches, PoolOk;
    forall x: nat | x >= k
      ensures Moved(ms, r, k, x) == 0
    {
      GainAboveIsNone(ms, r, k, x);
    }
  }

  lemma TablesBelow(s: Store)
    requires StoreInv(s, 0)
    ensures forall b, i :: b in s.branches && 0 <= i < |s.branches[b].table| ==> s.branches[b].table[i] < |s.pool.refs|
    ensures forall x: nat :: x >= |s.pool.refs| ==> PagesOf(s.branches, s.next)[x] == 0
  {
    forall b, i | b in s.branches && 0 <= i < |s.branches[b].table|
      ensures s.branches[b].table[i] < |s.pool.refs|
    {
      assert Covered(s.pool, s.branches[b]);
    }
  }

  lemma {:induction false} GainAboveIsNone(ms: multiset<nat>, r: map<nat, nat>, k: nat, x: nat)
    requires x >= k && forall y :: y in r ==> r[y] < y
    ensures Gain(ms, r, k, x) == 0
  {
    if k > 0 { GainAboveIsNone(ms, r, k - 1, x); }
  }

  /** Entry i of a redirected table is live and shows what it showed before. */
  lemma RedirectedPage(s: Store, q: Pool, r: map<nat, nat>, b: nat, i: nat)
    requires StoreInv(s, 0) && PlanFor(s, r) && RefsMoved(s.pool, q, PagesOf(s.branches, s.next), r)
    requires b in s.branches && i < |s.branches[b].table|
    ensures var page := s.branches[b].table[i]; var target := RedirectBranches(s.branches, r)[b].table[i];
            && q.Allocated(target) && page < |s.pool.refs| && target < |s.pool.refs|
            && q.lens[target] == s.pool.lens[page] && q.pages[target] == s.pool.pages[page]
  {
    var m := RedirectBranches(s.branches, r);
    var page, target := s.branches[b].table[i], m[b].table[i];
    var full := FullPages(s.pool, PagesOf(s.branches, s.next));
    assert Covered(s.pool, s.branches[b]) && b < s.next && s.pool.Allocated(page);
    RedirectedRefs(s, q, r);
    PagesInclude(m, s.next, b);
    assert target in multiset(m[b].table);
    assert page in r ==> Lowest(s.pool.pages, full, page, r[page]) && r[page] in full && page in full;
  }

  /** Full equal pages read the same, so each branch reads as before. */
  lemma RedirectedReads(s: Store, q: Pool, r: map<nat, nat>, b: nat)
    requires StoreInv(s, 0) && PlanFor(s, r) && RefsMoved(s.pool, q, PagesOf(s.branches, s.next), r) && b in s.branches
    ensures Covered(q, RedirectBranches(s.branches, r)[b])
    ensures Gather(q, RedirectBranches(s.branches, r)[b]) == Gather(s.pool, s.branches[b])
  {
    var n := RedirectBranches(s.branches, r)[b];
    forall i | 0 <= i < |n.table|
      ensures SameEntry(s.pool, s.branches[b].table[i], q, n.table[i])
    {
      RedirectedPage(s, q, r, b, i);
    }
    SameContent(s.pool, s.branches[b], q, n);
  }

  lemma RedirectTopology(m: map<nat, Branch>, r: map<nat, nat>)
    requires Topology(m)
    ensures Topology(RedirectBranches(m, r))
  {
    var n := RedirectBranches(m, r);
    forall b | b in n
      ensures Linked(n, b)
    {
      assert Linked(m, b);
    }
  }

  /** No two distinct full live pages hold the same content. */
  ghost predicate NoDuplicates(s: Store) {
    var full := FullPages(s.pool, PagesOf(s.branches, s.next));
    forall p, q :: p in full && q in full && p != q && p < |s.pool.pages| && q < |s.pool.pages| ==> s.pool.pages[p] != s.pool.pages[q]
  }

  lemma NothingLeftToMerge(s: Store, t: Store, r: map<nat, nat>)
    requires StoreInv(s, 0) && PlanFor(s, r) && RefsMoved(s.pool, t.pool, PagesOf(s.branches, s.next), r)
    requires t.branches == RedirectBranches(s.branches, r) && t.next == s.next
    ensures NoDuplicates(t)
  {
    RedirectedRefs(s, t.pool, r);
    var before, after := FullPages(s.pool, PagesOf(s.branches, s.next)), FullPages(t.pool, PagesOf(t.branches, t.next));
    TargetsStay(s.pool.pages, before, r);
    forall p | p in after
      ensures p in before && p !in r
    {
      StaysLive(PagesOf(s.branches, s.next), before, r, |s.pool.refs|, p);
      assert t.pool.refs[p] == Moved(PagesOf(s.branches, s.next), r, |s.pool.refs|, p);
    }
    forall p, q | p in after && q in after && p != q
      ensures s.pool.pages[p] != s.pool.pages[q]
    {
      assert Lowest(s.pool.pages, before, p, p) && Lowest(s.pool.pages, before, q, q);
    }
  }

  /** A page with occurrences after the move had some before, or is a target and so a full live page. */
  lemma {:induction false} StaysLive(ms: multiset<nat>, full: set<nat>, r: map<nat, nat>, k: nat, x: nat)
    requires forall y :: y in r ==> r[y] in full && r[y] !in r
    ensures Gain(ms, r, k, x) > 0 ==> x in full && x !in r
  {
    if k > 0 { StaysLive(ms, full, r, k - 1, x); }
  }

  /** Carrying out a plan changes nothing that any branch reads and leaves no two equal full pages. */
  lemma PlanKeepsStore(s: Store, t: Store, r: map<nat, nat>)
    requires StoreInv(s, 0) && PlanFor(s, r) && RefsMoved(s.pool, t.pool, PagesOf(s.branches, s.next), r)
    requires t.branches == RedirectBranches(s.branches, r) && t.next == s.next
    ensures StoreInv(t, 0) && View(t) == View(s) && NoDuplicates(t)
  {
    PlanKeepsInvariant(s, t, r);
    NothingLeftToMerge(s, t, r);
    PlanKeepsView(s, t, r);
  }

  lemma PlanKeepsView(s: Store, t: Store, r: map<nat, nat>)
    requires StoreInv(s, 0) && PlanFor(s, r) && RefsMoved(s.pool, t.pool, PagesOf(s.branches, s.next), r)
    requires t.branches == RedirectBranches(s.branches, r) && t.next == s.next && StoreInv(t, 0)
    ensures View(t) == View(s)
  {
    RedirectKeys(s.branches, r);
    hide Gather, NoDuplicates, PlanFor, RefsMoved, Covered, Topology, RefsMatch, PagesOf, TokensOf, RedirectBranches;
    forall b | b in t.branches
      ensures b in s.branches && Gather(t.pool, t.branches[b]) == Gather(s.pool, s.branches[b])
    {
      RedirectedReads(s, t.pool, r, b);
    }
  }

  lemma PlanKeepsInvariant(s: Store, t: Store, r: map<nat, nat>)
    requires StoreInv(s, 0) && PlanFor(s, r) && RefsMoved(s.pool, t.pool, PagesOf(s.branches, s.next), r)
    requires t.branches == RedirectBranches(s.branches, r) && t.next == s.next
    ensures StoreInv(t, 0)
  {
    RedirectedRefs(s, t.pool, r);
    RedirectTopology(s.branches, r);
    hide Gather, Covered, RefsMatch, PagesOf, TokensOf, Topology, PlanFor, PoolOk, Moved;
    forall b | b in t.branches
      ensures Covered(t.pool, t.branches[b])
    {
      RedirectedReads(s, t.pool, r, b);
    }
  }
}
