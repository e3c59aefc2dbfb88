/** The branch store over a paged pool (core/autotree_core/kv/tree_state.py). */
module KvTreeState {
  import opened Common
  import opened PageMath
  import opened KvPool
  import opened KvStore
  import opened KvLifecycle
  import opened KvAppend
  import opened KvDedup

  // ---------------------------------------------------------------------------
  // Gathering (core/autotree_core/kv/gather.py)
  // ---------------------------------------------------------------------------

  /** The selected pages, one after the other. */
  function Flatten(pages: seq<Page>, table: seq<nat>): seq<Token>
    requires forall i :: 0 <= i < |table| ==> table[i] < |pages|
  {
    if table == [] then [] else Flatten(pages, table[..|table| - 1]) + pages[table[|table| - 1]]
  }

  function Anonymous(table: seq<nat>, numTokens: nat): Branch {
    Branch(None, numTokens, table, {})
  }

  /** Materializes a branch without padded tail slots, after checking that the table covers it exactly. */
  function GatherBranchKv(p: Pool, table: seq<nat>, numTokens: nat): KVResult<seq<Token>>
    requires PoolOk(p)
  {
    if !Covered(p, Anonymous(table, numTokens)) then Err(KVInvariantError)
    else if numTokens == 0 then Ok([])
    else if |Flatten(p.pages, table)| < numTokens then Err(KVInvariantError)
    else Ok(Flatten(p.pages, table)[..numTokens])
  }

  /** One more page, with the products and quotients given. */
  lemma FlattenStep(pages: seq<Page>, init: seq<nat>, last: nat, size: nat, i: nat, q: nat, slot: nat, before: nat, after: nat)
    requires (forall k :: 0 <= k < |init| ==> init[k] < |pages|) && last < |pages| && |pages[last]| == size > slot
    requires forall k :: 0 <= k < |init| ==> |pages[init[k]]| == size
    requires |Flatten(pages, init)| == before && after == before + size
    requires i < before ==> q < |init| && Flatten(pages, init)[i] == pages[init[q]][slot]
    requires before <= i < after ==> q == |init| && slot == i - before
    ensures |Flatten(pages, init + [last])| == after
    ensures i < after ==> q <= |init| && Flatten(pages, init + [last])[i] == pages[(init + [last])[q]][slot]
  {
    assert (init + [last])[..|init|] == init;
  }

  lemma {:induction false} FlattenAt(pages: seq<Page>, table: seq<nat>, size: nat, i: nat)
    requires size > 0 && forall p :: 0 <= p < |pages| ==> |pages[p]| == size
    requires forall k :: 0 <= k < |table| ==> table[k] < |pages|
    ensures |Flatten(pages, table)| == |table| * size
    ensures i < |table| * size ==> i / size < |table| && Flatten(pages, table)[i] == pages[table[i / size]][i % size]
  {
    if table != [] {
      var init, last := table[..|table| - 1], table[|table| - 1];
      FlattenAt(pages, init, size, i);
      DivIsNat(i, size);
      MulSplit(|table|, size);
      if i < |table| * size { LastBlock(i, |table|, size); }
      FlattenStep(pages, init, last, size, i, i / size, i % size, |init| * size, |table| * size);
      assert table == init + [last];
    }
  }

  /** The paged-to-dense copy is the branch's token path, and it is refused exactly when the table does
      not cover the tokens. */
  lemma GatherBranchKvSpec(p: Pool, table: seq<nat>, numTokens: nat)
    requires PoolOk(p)
    ensures GatherBranchKv(p, table, numTokens) ==
            if Covered(p, Anonymous(table, numTokens)) then Ok(Gather(p, Anonymous(table, numTokens))) else Err(KVInvariantError)
  {
    var b := Anonymous(table, numTokens);
    if Covered(p, b) {
      CeilDivSpec(numTokens, p.pageSize);
      FlattenAt(p.pages, table, p.pageSize, 0);
      forall i: nat | i < numTokens
        ensures Flatten(p.pages, table)[i] == TokenAt(p, b, i)
      {
        FlattenAt(p.pages, table, p.pageSize, i);
      }
      assert Flatten(p.pages, table)[..numTokens] == Gather(p, b);
    }
  }

  // ---------------------------------------------------------------------------
  // The class
  // ---------------------------------------------------------------------------

  /** A pool that no branch has used yet. */
  ghost predicate Unused(p: Pool) {
    && p.UsedPages() == 0
    && p.logical == 0
    && (forall i :: 0 <= i < |p.refs| ==> p.refs[i] == 0)
    && (forall i :: 0 <= i < |p.lens| ==> p.lens[i] == 0)
  }

  /** Same branches, same parents, same children. */
  ghost predicate SameForest(m: map<nat, Branch>, r: map<nat, Branch>) {
    && m.Keys == r.Keys
    && forall b :: b in m ==> m[b].parent == r[b].parent && m[b].children == r[b].children
  }

  /** The tables of the branches below `id` have been redirected. */
  ghost predicate RewrittenBelow(was: map<nat, Branch>, now: map<nat, Branch>, redirects: map<nat, nat>, id: nat) {
    && now.Keys == was.Keys
    && forall b :: b in was ==>
         now[b] == if b < id then was[b].(table := RedirectTable(redirects, was[b].table)) else was[b]
  }

  lemma RewriteStep(was: map<nat, Branch>, now: map<nat, Branch>, redirects: map<nat, nat>, id: nat)
    requires RewrittenBelow(was, now, redirects, id)
    ensures id !in now ==> RewrittenBelow(was, now, redirects, id + 1)
    ensures id in now ==>
              RewrittenBelow(was, now[id := now[id].(table := RedirectTable(redirects, now[id].table))], redirects, id + 1)
  {
    hide RedirectTable;
  }

  lemma RewritingDone(was: map<nat, Branch>, now: map<nat, Branch>, redirects: map<nat, nat>, id: nat)
    requires RewrittenBelow(was, now, redirects, id) && forall b :: b in was ==> b < id
    ensures now == RedirectBranches(was, redirects)
  {
    hide RedirectTable;
  }

  /** Pages an append of k tokens has to allocate. */
  function RequiredPages(s: Store, b: nat, k: nat): int
    requires s.pool.pageSize > 0 && b in s.branches && Covered(s.pool, s.branches[b])
  {
    if k == 0 then 0
    else
      CeilDiv(s.branches[b].numTokens + k, s.pool.pageSize) - |s.branches[b].table|
      + (if NeedsCopy(s, b) then 1 else 0)
  }

  class TreeState {
    const pool: PagedKVPool
    var branches: map<nat, Branch>
    var nextBranchId: nat

    ghost function Snapshot(): Store
      reads this, pool, pool.cache
    {
      Store(pool.State(), branches, nextBranchId)
    }

    ghost predicate Valid()
      reads this, pool, pool.cache
    {
      pool.Valid() && StoreInv(Snapshot(), 0)
    }

    /** The meaning of the store: each live branch with its token sequence. */
    ghost function Contents(): map<nat, seq<Token>>
      requires Valid()
      reads this, pool, pool.cache
    {
      View(Snapshot())
    }

    constructor (pool: PagedKVPool)
      requires pool.Valid() && Unused(pool.State())
      ensures Valid() && this.pool == pool && pool.State() == old(pool.State())
      ensures Contents() == map[0 := []]
      ensures branches == map[0 := RootBranch()] && nextBranchId == 1
    {
      this.pool := pool;
      branches := map[0 := RootBranch()];
      nextBranchId := 1;
      new;
      CeilDivSpec(0, pool.pageSize);
      assert PagesOf(branches, 1) == PagesOf(branches, 0);
      assert TokensOf(branches, 1) == TokensOf(branches, 0);
      assert Gather(pool.State(), RootBranch()) == [];
    }

    /** The coverage check every operation starts with. */
    method ValidateBranchCoverage(record: Branch) returns (r: KVResult<()>)
      requires pool.Valid()
      ensures r.Ok? <==> Covered(pool.State(), record)
      ensures r.Err? ==> r.error == KVInvariantError
    {
      if |record.table| != CeilDiv(record.numTokens, pool.pageSize) {
        return Err(KVInvariantError);
      }
      for i := 0 to |record.table|
        invariant forall j :: 0 <= j < i ==>
                    && pool.State().Allocated(record.table[j])
                    && pool.validLengths[record.table[j]] == Fill(record.numTokens, pool.pageSize, j)
      {
        var page := record.table[i];
        if page >= pool.capacity || pool.refcounts[page] == 0
           || pool.validLengths[page] != Fill(record.numTokens, pool.pageSize, i) {
          return Err(KVInvariantError);
        }
      }
      r := Ok(());
    }

    /** Creates a child that shares every covered page occurrence. */
    method Fork(b: nat) returns (r: KVResult<nat>)
      requires Valid()
      modifies this, pool
      ensures Valid()
      ensures b !in old(branches) ==> r == Err(KeyError(b)) && Snapshot() == old(Snapshot())
      ensures b in old(branches) ==> r == Ok(old(nextBranchId)) && Snapshot() == ForkStore(old(Snapshot()), b)
      ensures r.Ok? ==> Contents() == old(Contents())[r.value := old(Contents())[b]]
    {
      if b !in branches {
        return Err(KeyError(b));
      }
      hide Covered, PoolOk, RefsMatch, PagesOf, TokensOf, Topology, Gather, RetainAll;
      var source := branches[b];
      var checked := ValidateBranchCoverage(source);
      assert checked.Ok?;
      ghost var before := Snapshot();
      TablesAllocated(before, b);
      RetainTable(source.table);
      var adjusted := pool.AdjustLogicalTokens(source.numTokens);
      assert adjusted.Ok?;
      var child := nextBranchId;
      branches := branches[b := source.(children := source.children + {child})]
                  [child := Branch(Some(b), source.numTokens, source.table, {})];
      nextBranchId := nextBranchId + 1;
      assert Snapshot() == ForkStore(before, b);
      hide *;
      ForkKeepsStore(before, b);
      r := Ok(child);
    }

    method RetainTable(table: seq<nat>)
      requires pool.Valid() && forall i :: 0 <= i < |table| ==> pool.State().Allocated(table[i])
      modifies pool`refcounts
      ensures pool.Valid() && pool.State() == RetainAll(old(pool.State()), table)
    {
      ghost var before := pool.State();
      for i := 0 to |table|
        invariant pool.Valid()
        invariant pool.State() == RetainAll(before, table[..i])
      {
        assert before.Allocated(table[i]);
        assert table[..i + 1] == table[..i] + [table[i]] && table[..i + 1][..i] == table[..i];
        var _ := pool.RetainPage(table[i]);
      }
      assert table[..|table|] == table;
    }

    /** Removes a leaf branch and immediately releases its page references. */
    method Prune(b: nat) returns (r: KVResult<()>)
      requires Valid()
      modifies this, pool
      ensures Valid()
      ensures b !in old(branches) ==> r == Err(KeyError(b))
      ensures b in old(branches) && old(branches)[b].children != {} ==> r == Err(BranchHasChildrenError(b))
      ensures r.Err? ==> Snapshot() == old(Snapshot())
      ensures b in old(branches) && old(branches)[b].children == {} ==>
                && r == Ok(())
                && Releasable(old(pool.State()), old(branches)[b].table)
                && Snapshot() == PruneStore(old(Snapshot()), b)
                && Contents() == old(Contents()) - {b}
    {
      if b !in branches {
        return Err(KeyError(b));
      }
      var record := branches[b];
      if record.children != {} {
        return Err(BranchHasChildrenError(b));
      }
      ghost var before := Snapshot();
      TableReleasable(before, b);
      PruneKeepsStore(before, b);
      var checked := ValidateBranchCoverage(record);
      assert checked.Ok?;
      hide PoolOk, StoreInv, Topology, PruneStore, PruneBranches, View, Covered;
      RemoveLeaf(b);
      r := Ok(());
    }

    /** The body of a prune once its checks have passed. */
    method RemoveLeaf(b: nat)
      requires Valid() && b in branches && branches[b].children == {}
      requires Releasable(pool.State(), branches[b].table)
      modifies this, pool
      ensures Snapshot() == PruneStore(old(Snapshot()), b)
      ensures pool.Valid()
    {
      hide Covered, RefsMatch, PagesOf, TokensOf, Gather, ReleaseAll, Releasable;
      var record := branches[b];
      ghost var before := Snapshot();
      ReleaseTable(record.table);
      TokensInclude(before, b);
      var adjusted := pool.AdjustLogicalTokens(0 - record.numTokens);
      if record.parent.Some? {
        assert Linked(before.branches, b);
        var p := record.parent.value;
        branches := branches[p := branches[p].(children := branches[p].children - {b})];
      }
      branches := branches - {b};
    }

    method ReleaseTable(table: seq<nat>)
      requires pool.Valid() && Releasable(pool.State(), table)
      modifies pool`refcounts, pool`validLengths, pool`freePages
      ensures pool.Valid() && pool.State() == ReleaseAll(old(pool.State()), table)
    {
      ghost var before := pool.State();
      for i := 0 to |table|
        invariant pool.Valid() && Releasable(before, table[..i])
        invariant pool.State() == ReleaseAll(before, table[..i])
      {
        PrefixReleasable(before, table, i);
        var _ := pool.Free(table[i]);
      }
      assert table[..|table|] == table;
    }

    /** Appends tokens to one branch, copying a shared partial tail first. */
    method AppendTokens(b: nat, tokens: seq<Token>) returns (r: KVResult<()>)
      requires Valid()
      modifies this, pool, pool.cache
      ensures Valid()
      ensures b !in old(branches) ==> r == Err(KeyError(b))
      ensures b in old(branches) ==>
                var need := RequiredPages(old(Snapshot()), b, |tokens|);
                && (r.Ok? <==> need <= |old(pool.freePages)|)
                && (r.Err? ==> r == Err(KVCapacityError(need, |old(pool.freePages)|)))
                && (r.Ok? ==> Appended(old(Snapshot()), Snapshot(), b, tokens) && |pool.freePages| == |old(pool.freePages)| - need)
      ensures r.Err? ==> Snapshot() == old(Snapshot())
    {
      if b !in branches {
        return Err(KeyError(b));
      }
      if tokens == [] {
        NothingAppended(Snapshot(), b);
        return Ok(());
      }
      ghost var before := Snapshot();
      ghost var free := |pool.freePages|;
      var checked := ValidateBranchCoverage(branches[b]);
      assert checked.Ok?;
      PagesForAppend(before, b, |tokens|);
      var pageSize := pool.pageSize;
      var finalPageCount := CeilDiv(branches[b].numTokens + |tokens|, pageSize);
      var boundaryPages := finalPageCount - |branches[b].table|;
      var needsCopy := branches[b].numTokens % pageSize != 0
                       && pool.refcounts[branches[b].table[|branches[b].table| - 1]] > 1;
      var requiredPages := boundaryPages + if needsCopy then 1 else 0;
      var room := pool.RequireCapacity(requiredPages);
      if room.Err? {
        return Err(room.error);
      }
      PerformAppend(b, tokens, needsCopy);
      r := Ok(());
    }

    /** The part of an append that changes something, once there is room for it. */
    method PerformAppend(b: nat, tokens: seq<Token>, needsCopy: bool)
      requires Valid() && b in branches && tokens != [] && needsCopy == NeedsCopy(Snapshot(), b)
      requires RequiredPages(Snapshot(), b, |tokens|) <= |pool.freePages|
      modifies this`branches, pool, pool.cache
      ensures Valid() && b in old(branches) && Appended(old(Snapshot()), Snapshot(), b, tokens)
      ensures |pool.freePages| == |old(pool.freePages)| - RequiredPages(old(Snapshot()), b, |tokens|)
    {
      hide StoreInv, Covered, View, Appended, Writing, CopyTail;
      ghost var before := Snapshot();
      PagesForAppend(before, b, |tokens|);
      if needsCopy {
        CopySharedTail(b);
      }
      ghost var ready := Snapshot();
      ReadyToWrite(before, ready, b, tokens, pool.zero);
      WriteTokens(b, tokens);
      ghost var written := Snapshot();
      SettleAppend(before, ready, written, b, tokens);
      WritingDone(ready, written, b, tokens);
      LogicalStaysPositive(written, |tokens|);
      var adjusted := pool.AdjustLogicalTokens(|tokens|);
    }

    /** Gives the branch a private copy of its shared partial tail. */
    method CopySharedTail(b: nat)
      requires pool.Valid() && b in branches && branches[b].table != [] && pool.freePages != []
      requires pool.State().Allocated(Tail(Snapshot(), b)) && pool.refcounts[Tail(Snapshot(), b)] > 1
      modifies this`branches, pool, pool.cache
      ensures pool.Valid() && Snapshot() == CopyTail(old(Snapshot()), b, pool.zero)
    {
      ghost var before := pool.State();
      AllocOk(before, pool.zero);
      var table := branches[b].table;
      var shared := table[|table| - 1];
      var copied := pool.CopyPage(shared);
      branches := branches[b := branches[b].(table := table[|table| - 1 := copied.value])];
      var freed := pool.Free(shared);
    }

    /** One pass of the write loop. */
    method WriteOnePage(b: nat, chunk: seq<Token>, ghost lag: nat)
      requires pool.Valid() && b in branches && StoreInv(Snapshot(), lag)
      requires CanWrite(Snapshot(), b, chunk) && TailOwned(Snapshot(), b)
      modifies this`branches, pool, pool.cache
      ensures pool.Valid() && Snapshot() == WriteChunk(old(Snapshot()), b, chunk, pool.zero)
    {
      hide AllCovered, Covered, RefsMatch, PagesOf, TokensOf, Topology, View, Overwrite, Alloc, TailOwned;
      ghost var before := Snapshot();
      DivIsNat(branches[b].numTokens, pool.pageSize);
      ChunkPool(before, b, chunk, pool.zero);
      var record := branches[b];
      var at := record.numTokens % pool.pageSize;
      var page;
      if at == 0 {
        var granted := pool.AllocPage();
        page := granted.value;
        record := record.(table := record.table + [page]);
      } else {
        page := record.table[|record.table| - 1];
      }
      pool.WriteSlots(page, at, chunk);
      var sized := pool.SetPageLength(page, at + |chunk|);
      branches := branches[b := record.(numTokens := record.numTokens + |chunk|)];
    }

    /** The write loop, page by page. The pages it allocates are exactly the boundary pages, so no
        allocation inside it can fail. */
    method WriteTokens(b: nat, tokens: seq<Token>)
      requires pool.Valid() && b in branches && Writing(Snapshot(), Snapshot(), b, tokens, 0)
      modifies this`branches, pool, pool.cache
      ensures pool.Valid() && b in old(branches) && Writing(old(Snapshot()), Snapshot(), b, tokens, |tokens|)
    {
      hide StoreInv, AllCovered, AppendedSoFar, TailOwned, WriteChunk, View, CanWrite;
      ghost var before := Snapshot();
      var offset := 0;
      while offset < |tokens|
        invariant 0 <= offset <= |tokens| && b in branches
        invariant pool.Valid() && Writing(before, Snapshot(), b, tokens, offset)
      {
        var count := Min(pool.pageSize - branches[b].numTokens % pool.pageSize, |tokens| - offset);
        var chunk := tokens[offset..offset + count];
        ghost var here := Snapshot();
        DivIsNat(branches[b].numTokens, pool.pageSize);
        WritingStep(before, here, b, tokens, offset, chunk, pool.zero);
        WriteOnePage(b, chunk, offset);
        offset := offset + count;
      }
    }

    /** Merges byte-identical full pages and returns the number of physical pages freed. The digest only
        groups candidates; any function will do. */
    method DedupScan(digest: Page -> Digest) returns (r: KVResult<nat>)
      requires Valid()
      modifies this`branches, pool
      ensures Valid() && r.Ok?
      ensures Contents() == old(Contents())
      ensures NoDuplicates(Snapshot())
      ensures pool.State().UsedPages() == old(pool.State().UsedPages()) - r.value
      ensures SameForest(old(branches), branches) && nextBranchId == old(nextBranchId)
      ensures NoDuplicates(old(Snapshot())) ==> r.value == 0 && Snapshot() == old(Snapshot())
    {
      hide StoreInv, View, NoDuplicates, IsPlan, FullPages, PagesOf;
      ghost var before := Snapshot();
      var occurrences := CheckedOccurrences();
      var redirects := DiscoverPageRedirects(pool, occurrences, digest);
      NoPlanWithoutDuplicates(before, redirects);
      if |redirects| == 0 {
        EmptyPlanMeansDistinct(before, redirects);
        return Ok(0);
      }
      RedirectAll(redirects);
      r := Ok(|redirects|);
    }

    /** The occurrences, after the check that each page's refcount equals them. */
    method CheckedOccurrences() returns (occurrences: multiset<nat>)
      requires Valid()
      ensures occurrences == PagesOf(branches, nextBranchId)
      ensures forall p :: p in occurrences ==> pool.State().Allocated(p)
    {
      occurrences := CountOccurrences();
      CountsAreRefs(Snapshot());
      for page := 0 to pool.capacity {
        if page in occurrences && pool.refcounts[page] != occurrences[page] {
          assert false;
        }
      }
    }

    /** Every page's occurrences over the live tables. */
    method CountOccurrences() returns (occurrences: multiset<nat>)
      requires Valid()
      ensures occurrences == PagesOf(branches, nextBranchId)
    {
      occurrences := multiset{};
      for id := 0 to nextBranchId
        invariant occurrences == PagesOf(branches, id)
      {
        if id in branches {
          var checked := ValidateBranchCoverage(branches[id]);
          assert checked.Ok?;
          occurrences := occurrences + multiset(branches[id].table);
        }
      }
    }

    /** Moves every reference from the duplicates to their targets. */
    method RedirectAll(redirects: map<nat, nat>)
      requires Valid() && PlanFor(Snapshot(), redirects)
      modifies this`branches, pool
      ensures Valid() && Contents() == old(Contents()) && NoDuplicates(Snapshot())
      ensures pool.State().UsedPages() == old(pool.State().UsedPages()) - |redirects|
      ensures SameForest(old(branches), branches) && nextBranchId == old(nextBranchId)
    {
      hide StoreInv, PlanFor, IsPlan, View, NoDuplicates, FullPages, PoolOk, Gain, PagesOf;
      ghost var before := Snapshot();
      var occurrences := CountOccurrences();
      PlanFacts(before, redirects);
      RetainTargets(occurrences, redirects);
      ghost var retained := pool.State();
      RewriteTables(redirects);
      ReleaseDuplicates(redirects);
      ReferencesMoved(before.pool, retained, pool.State(), occurrences, redirects);
      PlanKeepsStore(before, Snapshot(), redirects);
      RedirectKeepsForest(before.branches, redirects);
    }

    method RetainTargets(occurrences: multiset<nat>, redirects: map<nat, nat>)
      requires pool.Valid() && forall d :: d in redirects ==> pool.State().Allocated(redirects[d])
      modifies pool`refcounts
      ensures pool.Valid() && |pool.refcounts| == |old(pool.refcounts)|
      ensures forall x :: 0 <= x < |pool.refcounts| ==>
                pool.refcounts[x] == old(pool.refcounts)[x] + Gain(occurrences, redirects, pool.capacity, x)
    {
      ghost var refs := pool.refcounts;
      for d := 0 to pool.capacity
        invariant pool.Valid()
        invariant forall x :: 0 <= x < |refs| ==> pool.refcounts[x] == refs[x] + Gain(occurrences, redirects, d, x)
      {
        if d in redirects {
          RetainTimes(redirects[d], occurrences[d]);
        }
      }
    }

    method RetainTimes(page: nat, times: nat)
      requires pool.Valid() && pool.State().Allocated(page)
      modifies pool`refcounts
      ensures pool.Valid() && pool.refcounts == old(pool.refcounts)[page := old(pool.refcounts)[page] + times]
    {
      ghost var refs := pool.refcounts;
      for j := 0 to times
        invariant pool.Valid() && pool.refcounts == refs[page := refs[page] + j]
      {
        var kept := pool.RetainPage(page);
      }
    }

    method RewriteTables(redirects: map<nat, nat>)
      requires forall b :: b in branches ==> b < nextBranchId
      modifies this`branches
      ensures branches == RedirectBranches(old(branches), redirects)
    {
      ghost var was := branches;
      for id := 0 to nextBranchId
        invariant RewrittenBelow(was, branches, redirects, id)
      {
        hide RewrittenBelow, RedirectTable;
        RewriteStep(was, branches, redirects, id);
        if id in branches {
          branches := branches[id := branches[id].(table := RedirectTable(redirects, branches[id].table))];
        }
      }
      RewritingDone(was, branches, redirects, nextBranchId);
    }

    /** Drops every reference of the redirected pages, which recycles them. */
    method ReleaseDuplicates(redirects: map<nat, nat>)
      requires pool.Valid() && forall d :: d in redirects ==> pool.State().Allocated(d)
      modifies pool`refcounts, pool`validLengths, pool`freePages
      ensures pool.Valid() && |pool.refcounts| == |old(pool.refcounts)| == |pool.validLengths| == |old(pool.validLengths)|
      ensures forall x :: 0 <= x < |pool.refcounts| ==> pool.refcounts[x] == if x in redirects then 0 else old(pool.refcounts)[x]
      ensures forall x :: 0 <= x < |pool.refcounts| && x !in redirects ==> pool.validLengths[x] == old(pool.validLengths)[x]
      ensures |pool.freePages| == |old(pool.freePages)| + |redirects|
    {
      ghost var refs, lens, free := pool.refcounts, pool.validLengths, |pool.freePages|;
      hide PoolOk, Below;
      BelowSteps(redirects.Keys, pool.capacity);
      for d := 0 to pool.capacity
        invariant pool.Valid() && |pool.refcounts| == |refs| == |pool.validLengths| == |lens|
        invariant forall x :: 0 <= x < |refs| ==> pool.refcounts[x] == if x < d && x in redirects then 0 else refs[x]
        invariant forall x :: 0 <= x < |refs| && x !in redirects ==> pool.validLengths[x] == lens[x]
        invariant |pool.freePages| == free + |Below(redirects.Keys, d)|
      {
        if d in redirects {
          ReleaseEveryOccurrence(d);
        }
      }
    }

    /** Frees a page once for each of its references. The source counts the page's occurrences over the live tables
        instead; on a valid store the two numbers are the same, and DedupScan checks that they are. */
    method ReleaseEveryOccurrence(page: nat)
      requires pool.Valid() && pool.State().Allocated(page)
      modifies pool`refcounts, pool`validLengths, pool`freePages
      ensures pool.Valid()
      ensures pool.refcounts == old(pool.refcounts)[page := 0]
      ensures pool.validLengths == old(pool.validLengths)[page := 0]
      ensures |pool.freePages| == |old(pool.freePages)| + 1
    {
      var times := pool.refcounts[page];
      ghost var refs, lens, free := pool.refcounts, pool.validLengths, |pool.freePages|;
      for j := 0 to times
        invariant pool.Valid() && pool.refcounts == refs[page := times - j]
        invariant pool.validLengths == if j < times then lens else lens[page := 0]
        invariant |pool.freePages| == free + if j < times then 0 else 1
      {
        ReleaseOk(pool.State(), page);
        var freed := pool.Free(page);
      }
    }
  }

  // ---------------------------------------------------------------------------
  // Deduplication
  // ---------------------------------------------------------------------------

  lemma CountsAreRefs(s: Store)
    requires StoreInv(s, 0)
    ensures forall x :: x in PagesOf(s.branches, s.next) ==>
              x < |s.pool.refs| && s.pool.refs[x] == PagesOf(s.branches, s.next)[x] && s.pool.Allocated(x)
  {
  }

  lemma NoPlanWithoutDuplicates(s: Store, r: map<nat, nat>)
    requires PlanFor(s, r)
    ensures NoDuplicates(s) ==> r == map[]
  {
    if NoDuplicates(s) {
      DistinctPagesNeedNoPlan(s.pool.pages, FullPages(s.pool, PagesOf(s.branches, s.next)), r);
    }
  }

  lemma EmptyPlanMeansDistinct(s: Store, r: map<nat, nat>)
    requires PlanFor(s, r) && r == map[]
    ensures NoDuplicates(s)
  {
    var full := FullPages(s.pool, PagesOf(s.branches, s.next));
    assert forall p :: p in full ==> Lowest(s.pool.pages, full, p, p);
  }

  /** What the reference moves need to know of a plan. */
  lemma PlanFacts(s: Store, r: map<nat, nat>)
    requires StoreInv(s, 0) && PlanFor(s, r)
    ensures forall d :: d in r ==>
              && d < |s.pool.refs| && PagesOf(s.branches, s.next)[d] > 0
              && s.pool.Allocated(r[d]) && r[d] !in r
    ensures forall x :: 0 <= x < |s.pool.refs| ==> s.pool.refs[x] == PagesOf(s.branches, s.next)[x]
    ensures forall b :: b in s.branches ==> b < s.next
    ensures PoolOk(s.pool)
  {
    TargetsStay(s.pool.pages, FullPages(s.pool, PagesOf(s.branches, s.next)), r);
  }

  lemma BelowSteps(keys: set<nat>, n: nat)
    requires forall k :: k in keys ==> k < n
    ensures |Below(keys, 0)| == 0 && Below(keys, n) == keys
    ensures forall d: nat :: |Below(keys, d + 1)| == |Below(keys, d)| + if d in keys then 1 else 0
  {
    forall d: nat
      ensures |Below(keys, d + 1)| == |Below(keys, d)| + if d in keys then 1 else 0
    {
      assert Below(keys, d + 1) == if d in keys then Below(keys, d) + {d} else Below(keys, d);
    }
    assert Below(keys, 0) == {};
  }

  lemma ReferencesMoved(p: Pool, retained: Pool, q: Pool, ms: multiset<nat>, r: map<nat, nat>)
    requires PoolOk(p) && PoolOk(q) && retained == p.(refs := retained.refs) && |retained.refs| == |p.refs|
    requires q == retained.(refs := q.refs, lens := q.lens, free := q.free) && |q.refs| == |p.refs|
    requires forall d :: d in r ==> r[d] !in r
    requires forall x :: 0 <= x < |p.refs| ==> p.refs[x] == ms[x]
    requires forall x :: 0 <= x < |p.refs| ==> retained.refs[x] == p.refs[x] + Gain(ms, r, |p.refs|, x)
    requires forall x :: 0 <= x < |p.refs| ==> q.refs[x] == if x in r then 0 else retained.refs[x]
    requires forall x :: 0 <= x < |p.refs| && x !in r ==> q.lens[x] == p.lens[x]
    ensures RefsMoved(p, q, ms, r)
  {
    forall x | 0 <= x < |p.refs| && x in r
      ensures Gain(ms, r, |p.refs|, x) == 0
    {
      NoGainForKeys(ms, r, |p.refs|, x);
    }
  }

  lemma RedirectKeepsForest(m: map<nat, Branch>, r: map<nat, nat>)
    ensures SameForest(m, RedirectBranches(m, r))
  {
  }

  lemma {:induction false} NoGainForKeys(ms: multiset<nat>, r: map<nat, nat>, k: nat, x: nat)
    requires x in r && forall d :: d in r ==> r[d] !in r
    ensures Gain(ms, r, k, x) == 0
  {
    if k > 0 { NoGainForKeys(ms, r, k - 1, x); }
  }

  // ---------------------------------------------------------------------------
  // What an append amounts to
  // ---------------------------------------------------------------------------

  /** The branch reads its old tokens followed by the new ones; every other branch reads as before; the
      forest is the same. */
  ghost predicate AppendedSoFar(s: Store, t: Store, b: nat, tokens: seq<Token>)
    requires PoolOk(s.pool) && AllCovered(s) && b in s.branches && PoolOk(t.pool) && AllCovered(t)
  {
    && View(t) == View(s)[b := View(s)[b] + tokens]
    && SameForest(s.branches, t.branches)
    && t.next == s.next
    && t.pool.pageSize == s.pool.pageSize
  }

  ghost predicate Appended(s: Store, t: Store, b: nat, tokens: seq<Token>)
    requires StoreInv(s, 0) && StoreInv(t, 0) && b in s.branches
  {
    AppendedSoFar(s, t, b, tokens)
  }

  lemma AppendedNothing(s: Store, b: nat)
    requires PoolOk(s.pool) && AllCovered(s) && b in s.branches
    ensures AppendedSoFar(s, s, b, [])
  {
    assert View(s)[b] + [] == View(s)[b];
  }

  lemma NothingAppended(s: Store, b: nat)
    requires StoreInv(s, 0) && b in s.branches
    ensures Appended(s, s, b, [])
  {
    AppendedNothing(s, b);
  }

  lemma AppendedMore(s: Store, t: Store, u: Store, b: nat, xs: seq<Token>, ys: seq<Token>)
    requires PoolOk(s.pool) && AllCovered(s) && b in s.branches && PoolOk(t.pool) && AllCovered(t)
    requires PoolOk(u.pool) && AllCovered(u) && b in t.branches
    requires AppendedSoFar(s, t, b, xs) && AppendedSoFar(t, u, b, ys)
    ensures AppendedSoFar(s, u, b, xs + ys)
  {
    hide PoolOk, AllCovered, Covered, Gather;
    assert b in View(s);
    assert View(s)[b] + (xs + ys) == (View(s)[b] + xs) + ys;
  }

  /** What the code computes about the pages it needs. */
  lemma PagesForAppend(s: Store, b: nat, k: nat)
    requires StoreInv(s, 0) && b in s.branches && k > 0
    ensures var size := s.pool.pageSize; var n := s.branches[b].numTokens; var table := s.branches[b].table;
            && |table| == CeilDiv(n, size) <= CeilDiv(n + k, size)
            && (n % size != 0 ==> table != [] && table[|table| - 1] < |s.pool.refs|)
            && (NeedsCopy(s, b) <==> n % size != 0 && s.pool.refs[table[|table| - 1]] > 1)
            && RequiredPages(s, b, k) == CeilDiv(n + k, size) - CeilDiv(n, size) + (if NeedsCopy(s, b) then 1 else 0)
            && (!NeedsCopy(s, b) ==> TailOwned(s, b))
  {
    CeilDivMonotone(s.branches[b].numTokens, s.branches[b].numTokens + k, s.pool.pageSize);
    assert Covered(s.pool, s.branches[b]);
    if HasPartialTail(s, b) { PartialTailHasPage(s, b); }
  }

  /** The chunk fits its page, and the page count moves as the code says. */
  lemma ChunkFits(s: Store, b: nat, chunk: seq<Token>, lag: nat, final: nat)
    requires StoreInv(s, lag) && b in s.branches && TailOwned(s, b)
    requires var size := s.pool.pageSize; var n := s.branches[b].numTokens;
             0 < |chunk| <= size - n % size && n + |chunk| <= final
             && CeilDiv(final, size) - CeilDiv(n, size) <= |s.pool.free|
    ensures CanWrite(s, b, chunk)
    ensures var size := s.pool.pageSize; var n := s.branches[b].numTokens;
            CeilDiv(n + |chunk|, size) == CeilDiv(n, size) + if HasPartialTail(s, b) then 0 else 1
  {
    var size, n := s.pool.pageSize, s.branches[b].numTokens;
    CeilDivSpec(n + |chunk|, size);
    ChunkFills(n, |chunk|, size, CeilDiv(n + |chunk|, size) - 1);
    CeilDivMonotone(n + |chunk|, final, size);
    assert Covered(s.pool, s.branches[b]);
    if HasPartialTail(s, b) { PartialTailHasPage(s, b); }
  }

  /** The state of the write loop after `offset` tokens. */
  ghost predicate Writing(before: Store, now: Store, b: nat, tokens: seq<Token>, offset: nat) {
    && PoolOk(before.pool) && AllCovered(before) && b in before.branches
    && b in now.branches
    && StoreInv(now, offset)
    && TailOwned(now, b)
    && offset <= |tokens|
    && AppendedSoFar(before, now, b, tokens[..offset])
    && now.branches[b].numTokens == before.branches[b].numTokens + offset
    && CeilDiv(before.branches[b].numTokens + |tokens|, now.pool.pageSize) - CeilDiv(before.branches[b].numTokens, now.pool.pageSize)
       <= |before.pool.free|
    && |now.pool.free| == |before.pool.free|
       - (CeilDiv(now.branches[b].numTokens, now.pool.pageSize) - CeilDiv(before.branches[b].numTokens, now.pool.pageSize))
  }

  lemma ChunkShape(s: Store, b: nat, chunk: seq<Token>, zero: Token)
    requires PoolOk(s.pool) && CanWrite(s, b, chunk) && TailOwned(s, b)
    ensures b in s.branches
    ensures var t := WriteChunk(s, b, chunk, zero);
            && t.next == s.next && t.pool.pageSize == s.pool.pageSize
            && b in t.branches && t.branches == s.branches[b := t.branches[b]]
            && t.branches[b].parent == s.branches[b].parent && t.branches[b].children == s.branches[b].children
            && t.branches[b].numTokens == s.branches[b].numTokens + |chunk|
            && |t.pool.free| == |s.pool.free| - (if HasPartialTail(s, b) then 0 else 1)
  {
    ChunkPool(s, b, chunk, zero);
  }

  lemma StoreFacts(s: Store, lag: nat)
    requires StoreInv(s, lag)
    ensures PoolOk(s.pool) && s.pool.pageSize > 0 && AllCovered(s)
  {
  }

  /** The next chunk fits, and writing it keeps the loop's state. */
  lemma WritingStep(before: Store, here: Store, b: nat, tokens: seq<Token>, offset: nat, chunk: seq<Token>, zero: Token)
    requires Writing(before, here, b, tokens, offset) && offset < |tokens|
    requires 0 < |chunk| <= here.pool.pageSize - here.branches[b].numTokens % here.pool.pageSize
    requires offset + |chunk| <= |tokens| && chunk == tokens[offset..offset + |chunk|]
    ensures CanWrite(here, b, chunk)
    ensures Writing(before, WriteChunk(here, b, chunk, zero), b, tokens, offset + |chunk|)
  {
    hide WriteChunk, StoreInv, Topology, TailOwned, CanWrite, CeilDiv, RefsMatch, AllCovered, PoolOk, View;
    var start, size := before.branches[b].numTokens, here.pool.pageSize;
    StoreFacts(here, offset);
    DivIsNat(here.branches[b].numTokens, size);
    ChunkFits(here, b, chunk, offset, start + |tokens|);
    WriteChunkKeepsStore(here, b, chunk, zero, offset);
    var now := WriteChunk(here, b, chunk, zero);
    StoreFacts(now, offset + |chunk|);
    ChunkShape(here, b, chunk, zero);
    assert tokens[..offset + |chunk|] == tokens[..offset] + chunk;
    ChunkAppends(here, now, b, chunk);
    AppendedMore(before, here, now, b, tokens[..offset], chunk);
  }

  lemma ChunkAppends(s: Store, t: Store, b: nat, chunk: seq<Token>)
    requires PoolOk(s.pool) && AllCovered(s) && b in s.branches && PoolOk(t.pool) && AllCovered(t) && b in t.branches
    requires View(t) == View(s)[b := View(s)[b] + chunk]
    requires t.next == s.next && t.branches == s.branches[b := t.branches[b]] && t.pool.pageSize == s.pool.pageSize
    requires t.branches[b].parent == s.branches[b].parent && t.branches[b].children == s.branches[b].children
    ensures AppendedSoFar(s, t, b, chunk)
  {
  }

  /** Whether the tail was copied or not, the write loop can start. */
  lemma ReadyToWrite(before: Store, ready: Store, b: nat, tokens: seq<Token>, zero: Token)
    requires StoreInv(before, 0) && b in before.branches && |tokens| > 0
    requires RequiredPages(before, b, |tokens|) <= |before.pool.free|
    requires NeedsCopy(before, b) ==> before.pool.free != [] && before.branches[b].table != []
                                      && before.pool.Allocated(Tail(before, b)) && ready == CopyTail(before, b, zero)
    requires !NeedsCopy(before, b) ==> ready == before
    ensures Writing(ready, ready, b, tokens, 0)
    ensures StoreInv(ready, 0) && AppendedSoFar(before, ready, b, []) && ready.branches[b].numTokens == before.branches[b].numTokens
    ensures |ready.pool.free| == |before.pool.free| - (if NeedsCopy(before, b) then 1 else 0)
  {
    hide NeedsCopy, RequiredPages, Covered, PoolOk, StoreInv, CopyTail, Writing, CeilDiv, TailOwned, AppendedSoFar;
    StoreFacts(before, 0);
    PagesForAppend(before, b, |tokens|);
    if NeedsCopy(before, b) {
      CopiedIsReady(before, b, zero);
      CopyShape(before, b, zero);
    } else {
      UncopiedIsReady(before, b);
    }
    StoreFacts(ready, 0);
    WritingStarts(ready, b, tokens);
  }

  lemma UncopiedIsReady(s: Store, b: nat)
    requires StoreInv(s, 0) && b in s.branches
    ensures AppendedSoFar(s, s, b, [])
  {
    AppendedNothing(s, b);
  }

  lemma CopiedIsReady(s: Store, b: nat, zero: Token)
    requires StoreInv(s, 0) && b in s.branches && NeedsCopy(s, b) && s.pool.free != []
    ensures s.branches[b].table != []
    ensures var t := CopyTail(s, b, zero);
            && StoreInv(t, 0)
            && TailOwned(t, b)
            && AppendedSoFar(s, t, b, [])
            && |t.pool.free| == |s.pool.free| - 1
            && t.branches[b].numTokens == s.branches[b].numTokens
  {
    CopyTailKeepsStore(s, b, zero);
    CopyShape(s, b, zero);
    hide CopyTail, PoolOk, Covered, RefsMatch, PagesOf, TokensOf, Topology, Gather, NeedsCopy, TailOwned;
    assert View(s)[b] + [] == View(s)[b];
    ChunkAppends(s, CopyTail(s, b, zero), b, []);
  }

  lemma CopyShape(s: Store, b: nat, zero: Token)
    requires StoreInv(s, 0) && b in s.branches && NeedsCopy(s, b) && s.pool.free != [] && s.branches[b].table != []
    ensures var t := CopyTail(s, b, zero);
            && t.next == s.next && t.pool.pageSize == s.pool.pageSize
            && b in t.branches && t.branches == s.branches[b := t.branches[b]]
            && t.branches[b].parent == s.branches[b].parent && t.branches[b].children == s.branches[b].children
            && t.branches[b].numTokens == s.branches[b].numTokens
  {
    CopyTailPool(s, b, zero);
  }

  lemma WritingStarts(s: Store, b: nat, tokens: seq<Token>)
    requires StoreInv(s, 0) && b in s.branches && TailOwned(s, b)
    requires CeilDiv(s.branches[b].numTokens + |tokens|, s.pool.pageSize)
             - CeilDiv(s.branches[b].numTokens, s.pool.pageSize) <= |s.pool.free|
    ensures Writing(s, s, b, tokens, 0)
  {
    AppendedNothing(s, b);
    assert tokens[..0] == [];
  }

  lemma WritingDone(ready: Store, written: Store, b: nat, tokens: seq<Token>)
    requires Writing(ready, written, b, tokens, |tokens|)
    ensures PoolOk(ready.pool) && AllCovered(ready) && b in ready.branches && b in written.branches
    ensures StoreInv(written, |tokens|) && AppendedSoFar(ready, written, b, tokens)
    ensures |written.pool.free| == |ready.pool.free|
            - (CeilDiv(ready.branches[b].numTokens + |tokens|, written.pool.pageSize)
               - CeilDiv(ready.branches[b].numTokens, written.pool.pageSize))
  {
    hide StoreInv, AppendedSoFar, Covered, CeilDiv, PoolOk, TailOwned;
    assert tokens[..|tokens|] == tokens;
  }

  ghost function Counted(s: Store, k: nat): Store {
    s.(pool := s.pool.(logical := s.pool.logical + k))
  }

  /** A completed append: the invariant holds again, the branch has its tokens, and exactly the required
      pages are gone. */
  ghost predicate Completed(before: Store, t: Store, b: nat, tokens: seq<Token>) {
    && StoreInv(before, 0)
    && StoreInv(t, 0)
    && b in before.branches
    && Appended(before, t, b, tokens)
    && |t.pool.free| == |before.pool.free| - RequiredPages(before, b, |tokens|)
  }

  /** Counting the appended tokens completes the append. */
  lemma SettleAppend(before: Store, ready: Store, written: Store, b: nat, tokens: seq<Token>)
    requires StoreInv(before, 0) && StoreInv(ready, 0) && b in before.branches && b in ready.branches && |tokens| > 0
    requires AppendedSoFar(before, ready, b, []) && Writing(ready, written, b, tokens, |tokens|)
    requires ready.branches[b].numTokens == before.branches[b].numTokens
    requires |ready.pool.free| == |before.pool.free| - (if NeedsCopy(before, b) then 1 else 0)
    ensures Completed(before, Counted(written, |tokens|), b, tokens)
  {
    hide StoreInv, Appended, AppendedSoFar, Writing, NeedsCopy, RequiredPages, CeilDiv, Counted, Covered, View;
    WritingDone(ready, written, b, tokens);
    SettleView(before, ready, written, b, tokens);
    SettleCounts(before, ready, written, b, tokens);
  }

  lemma SettleCounts(before: Store, ready: Store, written: Store, b: nat, tokens: seq<Token>)
    requires StoreInv(before, 0) && StoreInv(ready, 0) && b in before.branches && b in ready.branches && |tokens| > 0
    requires AppendedSoFar(before, ready, b, []) && Writing(ready, written, b, tokens, |tokens|)
    requires ready.branches[b].numTokens == before.branches[b].numTokens
    requires |ready.pool.free| == |before.pool.free| - (if NeedsCopy(before, b) then 1 else 0)
    ensures |Counted(written, |tokens|).pool.free| == |before.pool.free| - RequiredPages(before, b, |tokens|)
  {
    hide StoreInv, Writing, RequiredPages, CeilDiv, Covered, View, SameForest;
    WritingDone(ready, written, b, tokens);
    RequiredPagesForm(before, b, |tokens|);
  }

  lemma RequiredPagesForm(s: Store, b: nat, k: nat)
    requires StoreInv(s, 0) && b in s.branches && k > 0
    ensures RequiredPages(s, b, k) ==
            CeilDiv(s.branches[b].numTokens + k, s.pool.pageSize) - CeilDiv(s.branches[b].numTokens, s.pool.pageSize)
            + (if NeedsCopy(s, b) then 1 else 0)
  {
    assert Covered(s.pool, s.branches[b]);
  }

  lemma SettleView(before: Store, ready: Store, written: Store, b: nat, tokens: seq<Token>)
    requires StoreInv(before, 0) && StoreInv(ready, 0) && b in before.branches && b in ready.branches
    requires StoreInv(written, |tokens|)
    requires AppendedSoFar(before, ready, b, []) && AppendedSoFar(ready, written, b, tokens)
    ensures StoreInv(Counted(written, |tokens|), 0)
    ensures Appended(before, Counted(written, |tokens|), b, tokens)
  {
    assert [] + tokens == tokens;
    AppendedMore(before, ready, written, b, [], tokens);
    CountTokens(written, |tokens|);
    hide PoolOk, Covered, RefsMatch, PagesOf, TokensOf, Topology, Gather;
  }

  lemma LogicalStaysPositive(s: Store, k: nat)
    requires StoreInv(s, k)
    ensures s.pool.logical + k >= 0
  {
  }

  lemma CountTokens(s: Store, k: nat)
    requires StoreInv(s, k)
    ensures StoreInv(Counted(s, k), 0) && View(Counted(s, k)) == View(s)
  {
    var t := Counted(s, k);
    forall x | x in t.branches
      ensures Covered(t.pool, t.branches[x]) && Gather(t.pool, t.branches[x]) == Gather(s.pool, s.branches[x])
    {
      assert Covered(s.pool, s.branches[x]);
      SameView(s.pool, t.pool, s.branches[x]);
    }
    hide Gather, Covered, RefsMatch, PagesOf, TokensOf, Topology;
    assert View(t) == View(s);
  }

  /** One more entry of the table can be released. */
  lemma PrefixReleasable(p: Pool, table: seq<nat>, i: nat)
    requires PoolOk(p) && Releasable(p, table) && i < |table| && Releasable(p, table[..i])
    ensures Releasable(p, table[..i + 1])
    ensures ReleaseAll(p, table[..i]).Allocated(table[i])
    ensures ReleaseAll(p, table[..i + 1]) == Release(ReleaseAll(p, table[..i]), table[i])
  {
    assert table[..i + 1] == table[..i] + [table[i]] && table[..i + 1][..i] == table[..i];
    assert table == table[..i + 1] + table[i + 1..];
    assert multiset(table) == multiset(table[..i + 1]) + multiset(table[i + 1..]);
    assert multiset(table[..i + 1]) == multiset(table[..i]) + multiset([table[i]]);
  }

  lemma TokensInclude(s: Store, b: nat)
    requires StoreInv(s, 0) && b in s.branches
    ensures s.branches[b].numTokens <= s.pool.logical
  {
    SumsRemove(s.branches, b, s.next);
  }
}
