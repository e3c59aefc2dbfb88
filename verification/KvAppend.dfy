/** Copy-on-write appends (core/autotree_core/kv/tree_state.py, _append_validated). */
module KvAppend {
  import opened PageMath
  import opened KvPool
  import opened KvStore

  // ---------------------------------------------------------------------------
  // The steps of an append
  // ---------------------------------------------------------------------------

  predicate HasPartialTail(s: Store, b: nat)
    requires b in s.branches && s.pool.pageSize > 0
  {
    s.branches[b].numTokens % s.pool.pageSize != 0
  }

  lemma PartialTailHasPage(s: Store, b: nat)
    requires s.pool.pageSize > 0 && b in s.branches && Covered(s.pool, s.branches[b]) && HasPartialTail(s, b)
    ensures s.branches[b].table != []
    ensures s.pool.Allocated(s.branches[b].table[|s.branches[b].table| - 1])
  {
    CeilDivSpec(s.branches[b].numTokens, s.pool.pageSize);
  }

  function Tail(s: Store, b: nat): nat
    requires b in s.branches && s.branches[b].table != []
  {
    s.branches[b].table[|s.branches[b].table| - 1]
  }

  /** The partial last page of the branch, if it has one, is nobody else's. */
  ghost predicate TailOwned(s: Store, b: nat)
    requires b in s.branches && s.pool.pageSize > 0
  {
    HasPartialTail(s, b) ==> s.branches[b].table != [] && Tail(s, b) < |s.pool.refs| && s.pool.refs[Tail(s, b)] == 1
  }

  predicate NeedsCopy(s: Store, b: nat)
    requires b in s.branches && s.pool.pageSize > 0 && Covered(s.pool, s.branches[b])
  {
    HasPartialTail(s, b) && (PartialTailHasPage(s, b); s.pool.refs[Tail(s, b)] > 1)
  }

  /** The shared tail replaced by a private copy. */
  function CopyTail(s: Store, b: nat, zero: Token): Store
    requires PoolOk(s.pool) && b in s.branches && s.branches[b].table != []
    requires s.pool.Allocated(Tail(s, b)) && s.pool.refs[Tail(s, b)] > 1 && s.pool.free != []
  {
    var record := s.branches[b];
    AllocOk(s.pool, zero);
    var copied := CopyOf(s.pool, Tail(s, b), zero);
    Store(Release(copied, Tail(s, b)),
          s.branches[b := record.(table := record.table[|record.table| - 1 := s.pool.free[0]])],
          s.next)
  }

  /** The page the next tokens go to: a fresh one at a page boundary, else the tail. */
  function WritePage(s: Store, b: nat): nat
    requires b in s.branches && s.pool.pageSize > 0
    requires if HasPartialTail(s, b) then s.branches[b].table != [] else s.pool.free != []
  {
    if HasPartialTail(s, b) then Tail(s, b) else s.pool.free[0]
  }

  predicate CanWrite(s: Store, b: nat, tokens: seq<Token>)
    requires PoolOk(s.pool)
  {
    && b in s.branches
    && 0 < |tokens| <= s.pool.pageSize - s.branches[b].numTokens % s.pool.pageSize
    && (if HasPartialTail(s, b) then s.branches[b].table != [] && s.pool.Allocated(Tail(s, b)) else s.pool.free != [])
  }

  /** One pass of the append loop: as many tokens as fit the page. */
  function WriteChunk(s: Store, b: nat, tokens: seq<Token>, zero: Token): Store
    requires PoolOk(s.pool) && CanWrite(s, b, tokens)
  {
    var record := s.branches[b];
    var at := record.numTokens % s.pool.pageSize;
    var page := WritePage(s, b);
    var p := if HasPartialTail(s, b) then s.pool else (AllocOk(s.pool, zero); Alloc(s.pool, zero));
    Store(p.(pages := p.pages[page := Overwrite(p.pages[page], at, tokens)], lens := p.lens[page := at + |tokens|]),
          s.branches[b := record.(numTokens := record.numTokens + |tokens|,
                                  table := if HasPartialTail(s, b) then record.table else record.table + [page])],
          s.next)
  }

  // ---------------------------------------------------------------------------
  // Copying the tail
  // ---------------------------------------------------------------------------

  lemma TableUpdate(table: seq<nat>, i: nat, x: nat)
    requires i < |table|
    ensures multiset(table[i := x]) + multiset{table[i]} == multiset(table) + multiset{x}
  {
  }

  lemma CopyTailPool(s: Store, b: nat, zero: Token)
    requires StoreInv(s, 0) && b in s.branches && NeedsCopy(s, b) && s.pool.free != []
    ensures s.branches[b].table != []
    ensures var r := CopyTail(s, b, zero).pool; var newPage := s.pool.free[0];
            && PoolOk(r)
            && |r.free| == |s.pool.free| - 1
            && |r.refs| == |s.pool.refs|
            && r.pageSize == s.pool.pageSize && r.logical == s.pool.logical
            && newPage < |r.refs| && newPage != Tail(s, b) && s.pool.refs[newPage] == 0
            && r.refs == s.pool.refs[newPage := 1][Tail(s, b) := s.pool.refs[Tail(s, b)] - 1]
            && r.pages == s.pool.pages[newPage := s.pool.pages[Tail(s, b)]]
            && r.lens == s.pool.lens[newPage := s.pool.lens[Tail(s, b)]]
  {
    PartialTailHasPage(s, b);
    AllocOk(s.pool, zero);
    var newPage := s.pool.free[0];
    var copied := CopyOf(s.pool, Tail(s, b), zero);
    assert copied.pages == s.pool.pages[newPage := s.pool.pages[Tail(s, b)]];
    assert copied.lens == s.pool.lens[newPage := s.pool.lens[Tail(s, b)]];
    ReleaseOk(copied, Tail(s, b));
  }

  lemma CopyTailRefs(s: Store, b: nat, zero: Token)
    requires StoreInv(s, 0) && b in s.branches && NeedsCopy(s, b) && s.pool.free != []
    ensures s.branches[b].table != []
    ensures RefsMatch(CopyTail(s, b, zero).pool, PagesOf(CopyTail(s, b, zero).branches, s.next))
    ensures TokensOf(CopyTail(s, b, zero).branches, s.next) == TokensOf(s.branches, s.next)
  {
    CopyTailPool(s, b, zero);
    var r := CopyTail(s, b, zero);
    var record := s.branches[b];
    var last := |record.table| - 1;
    var newPage, tail := s.pool.free[0], Tail(s, b);
    SumsUpdate(s.branches, b, r.branches[b], s.next);
    TableUpdate(record.table, last, newPage);
    var before, after := PagesOf(s.branches, s.next), PagesOf(r.branches, s.next);
    var kept, grown: multiset<nat> := multiset(record.table), multiset(r.branches[b].table);
    var gone, come: multiset<nat> := multiset{tail}, multiset{newPage};
    forall x: nat
      ensures after[x] + gone[x] == before[x] + come[x]
    {
      assert (after + kept)[x] == (before + grown)[x];
      assert (grown + gone)[x] == (kept + come)[x];
    }
  }

  /** Every table entry still leads to the same tokens. */
  lemma CopyTailEntry(s: Store, b: nat, zero: Token, x: nat, i: nat)
    requires StoreInv(s, 0) && b in s.branches && NeedsCopy(s, b) && s.pool.free != []
    requires x in s.branches && i < |s.branches[x].table|
    ensures s.branches[b].table != []
    ensures var r := CopyTail(s, b, zero);
            && |r.pool.pages| == |s.pool.pages| == |r.pool.lens| == |s.pool.lens|
            && |r.branches[x].table| == |s.branches[x].table|
            && SameEntry(s.pool, s.branches[x].table[i], r.pool, r.branches[x].table[i])
  {
    CopyTailPool(s, b, zero);
    assert Covered(s.pool, s.branches[x]);
    assert s.pool.Allocated(s.branches[x].table[i]);
  }

  lemma CopyTailReads(s: Store, b: nat, zero: Token, x: nat)
    requires StoreInv(s, 0) && b in s.branches && NeedsCopy(s, b) && s.pool.free != [] && x in s.branches
    ensures s.branches[b].table != []
    ensures var r := CopyTail(s, b, zero);
            && PoolOk(r.pool)
            && Covered(r.pool, r.branches[x])
            && Gather(r.pool, r.branches[x]) == Gather(s.pool, s.branches[x])
  {
    CopyTailPool(s, b, zero);
    var r := CopyTail(s, b, zero);
    assert Covered(s.pool, s.branches[x]);
    forall i: nat | i < |s.branches[x].table|
      ensures SameEntry(s.pool, s.branches[x].table[i], r.pool, r.branches[x].table[i])
    {
      CopyTailEntry(s, b, zero, x, i);
    }
    hide PoolOk, Gather, Covered;
    SameContent(s.pool, s.branches[x], r.pool, r.branches[x]);
  }

  lemma TablesOnlyTopology(m: map<nat, Branch>, b: nat, r: Branch)
    requires Topology(m) && b in m && r.parent == m[b].parent && r.children == m[b].children
    ensures Topology(m[b := r])
  {
    var u := m[b := r];
    forall x | x in u
      ensures Linked(u, x)
    {
      assert Linked(m, x);
    }
  }

  /** Copying a shared tail changes nothing that anybody reads, costs one page, and leaves the branch
      with a tail of its own. */
  lemma CopyTailKeepsStore(s: Store, b: nat, zero: Token)
    requires StoreInv(s, 0) && b in s.branches && NeedsCopy(s, b) && s.pool.free != []
    ensures s.branches[b].table != []
    ensures var r := CopyTail(s, b, zero);
            && StoreInv(r, 0)
            && View(r) == View(s)
            && TailOwned(r, b)
            && |r.pool.free| == |s.pool.free| - 1
  {
    CopyTailPool(s, b, zero);
    CopyTailRefs(s, b, zero);
    var r := CopyTail(s, b, zero);
    TablesOnlyTopology(s.branches, b, r.branches[b]);
    forall x | x in r.branches
      ensures Covered(r.pool, r.branches[x]) && Gather(r.pool, r.branches[x]) == Gather(s.pool, s.branches[x])
    {
      CopyTailReads(s, b, zero, x);
    }
    hide CopyTail, PoolOk, Gather, Covered, RefsMatch, PagesOf, TokensOf, Topology, NeedsCopy;
    assert View(r).Keys == View(s).Keys;
  }

  // ---------------------------------------------------------------------------
  // Writing a chunk
  // ---------------------------------------------------------------------------

  /** No table but the branch's own refers to the page about to be written, and the branch's own only
      with its last entry. */
  lemma WritePageIsPrivate(s: Store, b: nat, tokens: seq<Token>, lag: nat)
    requires StoreInv(s, lag) && CanWrite(s, b, tokens) && TailOwned(s, b)
    ensures forall x, i :: x in s.branches && 0 <= i < |s.branches[x].table| && s.branches[x].table[i] == WritePage(s, b) ==>
              x == b && HasPartialTail(s, b) && i == |s.branches[b].table| - 1
  {
    var page := WritePage(s, b);
    assert !HasPartialTail(s, b) ==> page in s.pool.free && !s.pool.Allocated(page);
    forall x, i | x in s.branches && 0 <= i < |s.branches[x].table| && s.branches[x].table[i] == page
      ensures x == b && HasPartialTail(s, b) && i == |s.branches[b].table| - 1
    {
      assert Covered(s.pool, s.branches[x]) && s.pool.Allocated(page);
      if HasPartialTail(s, b) {
        SoleOccurrence(s.branches, s.next, page, x, i, b, |s.branches[b].table| - 1);
      }
    }
  }

  lemma ChunkPool(s: Store, b: nat, tokens: seq<Token>, zero: Token)
    requires PoolOk(s.pool) && CanWrite(s, b, tokens) && TailOwned(s, b)
    ensures var r := WriteChunk(s, b, tokens, zero).pool; var page := WritePage(s, b);
            && PoolOk(r)
            && |r.free| == |s.pool.free| - (if HasPartialTail(s, b) then 0 else 1)
            && |r.refs| == |s.pool.refs|
            && r.pageSize == s.pool.pageSize && r.logical == s.pool.logical
            && page < |r.refs|
            && r.refs == s.pool.refs[page := 1]
            && (forall x :: 0 <= x < |r.refs| && x != page ==> r.pages[x] == s.pool.pages[x] && r.lens[x] == s.pool.lens[x])
            && r.lens[page] == s.branches[b].numTokens % s.pool.pageSize + |tokens|
            && (HasPartialTail(s, b) ==>
                  r.pages[page] == Overwrite(s.pool.pages[page], s.branches[b].numTokens % s.pool.pageSize, tokens))
            && (!HasPartialTail(s, b) ==> s.pool.refs[page] == 0 && r.pages[page] == Overwrite(seq(s.pool.pageSize, _ => zero), 0, tokens))
  {
    if !HasPartialTail(s, b) { AllocOk(s.pool, zero); }
  }

  lemma ChunkRefs(s: Store, b: nat, tokens: seq<Token>, zero: Token, lag: nat)
    requires StoreInv(s, lag) && CanWrite(s, b, tokens) && TailOwned(s, b)
    ensures RefsMatch(WriteChunk(s, b, tokens, zero).pool, PagesOf(WriteChunk(s, b, tokens, zero).branches, s.next))
    ensures TokensOf(WriteChunk(s, b, tokens, zero).branches, s.next) == TokensOf(s.branches, s.next) + |tokens|
  {
    ChunkPool(s, b, tokens, zero);
    var r := WriteChunk(s, b, tokens, zero);
    SumsUpdate(s.branches, b, r.branches[b], s.next);
    var before, after := PagesOf(s.branches, s.next), PagesOf(r.branches, s.next);
    var table := s.branches[b].table;
    var page := WritePage(s, b);
    var kept: multiset<nat> := multiset(table);
    var come: multiset<nat> := if HasPartialTail(s, b) then multiset{} else multiset{page};
    assert multiset(r.branches[b].table) == kept + come;
    forall x: nat
      ensures after[x] == before[x] + come[x]
    {
      assert (after + kept)[x] == (before + (kept + come))[x];
    }
  }

  /** How the page counts and fills of the branch grow. */
  lemma ChunkFills(n: nat, k: nat, size: nat, i: nat)
    requires size > 0 && 0 < k <= size - n % size && i < CeilDiv(n + k, size)
    ensures CeilDiv(n + k, size) == CeilDiv(n, size) + if n % size == 0 then 1 else 0
    ensures i == CeilDiv(n + k, size) - 1 ==> Fill(n + k, size, i) == n % size + k
    ensures i < CeilDiv(n + k, size) - 1 ==> i < CeilDiv(n, size) && Fill(n + k, size, i) == Fill(n, size, i)
  {
    if n % size != 0 {
      GrowWithinPage(n, k, size);
    } else {
      GrowOntoNewPage(n, k, size);
    }
    FillSpec(n + k, size, i);
    if i < CeilDiv(n, size) { FillSpec(n, size, i); }
  }

  /** The grown table: the old entries with the written page last. */
  lemma ChunkTable(s: Store, b: nat, tokens: seq<Token>, zero: Token)
    requires PoolOk(s.pool) && CanWrite(s, b, tokens) && Covered(s.pool, s.branches[b])
    ensures b in WriteChunk(s, b, tokens, zero).branches
    ensures var old', r := s.branches[b], WriteChunk(s, b, tokens, zero).branches[b];
            && r.numTokens == old'.numTokens + |tokens|
            && |r.table| == CeilDiv(r.numTokens, s.pool.pageSize) > 0
            && r.table[|r.table| - 1] == WritePage(s, b)
            && (forall i :: 0 <= i < |r.table| - 1 ==> i < |old'.table| && r.table[i] == old'.table[i])
            && (HasPartialTail(s, b) <==> |r.table| == |old'.table|)
  {
    var n, k, size := s.branches[b].numTokens, |tokens|, s.pool.pageSize;
    CeilDivSpec(n + k, size);
    ChunkFills(n, k, size, CeilDiv(n + k, size) - 1);
    hide CeilDiv, Fill;
  }

  /** Each entry of the grown table is live and filled as the grown branch needs. */
  lemma ChunkEntry(s: Store, b: nat, tokens: seq<Token>, zero: Token, lag: nat, i: nat)
    requires StoreInv(s, lag) && CanWrite(s, b, tokens) && TailOwned(s, b)
    requires i < |WriteChunk(s, b, tokens, zero).branches[b].table|
    ensures var r := WriteChunk(s, b, tokens, zero); var page := r.branches[b].table[i];
            r.pool.Allocated(page) && page < |r.pool.lens|
            && r.pool.lens[page] == Fill(r.branches[b].numTokens, s.pool.pageSize, i)
  {
    assert Covered(s.pool, s.branches[b]);
    var r := WriteChunk(s, b, tokens, zero);
    ChunkTable(s, b, tokens, zero);
    ChunkPool(s, b, tokens, zero);
    ChunkFills(s.branches[b].numTokens, |tokens|, s.pool.pageSize, i);
    if i < |r.branches[b].table| - 1 {
      WritePageIsPrivate(s, b, tokens, lag);
      TableFills(s, b, i);
    }
    hide Covered, Fill, CeilDiv, WriteChunk, RefsMatch, PagesOf, TokensOf, Topology, StoreInv, WritePage;
  }

  /** The grown branch is covered. */
  lemma ChunkCovers(s: Store, b: nat, tokens: seq<Token>, zero: Token, lag: nat)
    requires StoreInv(s, lag) && CanWrite(s, b, tokens) && TailOwned(s, b)
    ensures Covered(WriteChunk(s, b, tokens, zero).pool, WriteChunk(s, b, tokens, zero).branches[b])
  {
    hide Fill, CeilDiv, RefsMatch, PagesOf, TokensOf, Topology, WritePage, WriteChunk;
    assert Covered(s.pool, s.branches[b]);
    ChunkPool(s, b, tokens, zero);
    ChunkTable(s, b, tokens, zero);
    var r := WriteChunk(s, b, tokens, zero);
    forall i | 0 <= i < |r.branches[b].table|
      ensures r.pool.Allocated(r.branches[b].table[i])
              && r.pool.lens[r.branches[b].table[i]] == Fill(r.branches[b].numTokens, s.pool.pageSize, i)
    {
      ChunkEntry(s, b, tokens, zero, lag, i);
    }
    CoveredBy(r.pool, r.branches[b]);
  }

  lemma TableFills(s: Store, b: nat, i: nat)
    requires s.pool.pageSize > 0 && b in s.branches && Covered(s.pool, s.branches[b]) && i < |s.branches[b].table|
    ensures var page := s.branches[b].table[i];
            s.pool.Allocated(page) && page < |s.pool.lens| && s.pool.lens[page] == Fill(s.branches[b].numTokens, s.pool.pageSize, i)
  {
  }

  lemma CoveredBy(p: Pool, b: Branch)
    requires p.pageSize > 0 && |b.table| == CeilDiv(b.numTokens, p.pageSize) && |p.lens| == |p.refs|
    requires forall i :: 0 <= i < |b.table| ==> p.Allocated(b.table[i]) && p.lens[b.table[i]] == Fill(b.numTokens, p.pageSize, i)
    ensures Covered(p, b)
  {
  }

  /** Which page and slot token i of the grown branch is on. */
  lemma ChunkSlot(n: nat, k: nat, size: nat, i: nat)
    requires size > 0 && 0 < k <= size - n % size && i < n + k
    ensures i / size <= n / size
    ensures i < n && i / size == n / size ==> i % size < n % size
    ensures i >= n ==> i / size == n / size && i % size == n % size + (i - n)
    ensures n / size == CeilDiv(n + k, size) - 1
  {
    assert n == (n / size) * size + n % size && i == (i / size) * size + i % size;
    if n % size == 0 {
      GrowOntoNewPage(n, k, size);
    } else {
      GrowWithinPage(n, k, size);
    }
    SlotInTable(i, n + k, size);
    if i >= n {
      assert i == (n / size) * size + (n % size + (i - n));
      DivUnique(n / size, n % size + (i - n), size);
    }
  }

  lemma ChunkToken(s: Store, b: nat, tokens: seq<Token>, zero: Token, lag: nat, i: nat)
    requires StoreInv(s, lag) && CanWrite(s, b, tokens) && TailOwned(s, b)
    requires Covered(WriteChunk(s, b, tokens, zero).pool, WriteChunk(s, b, tokens, zero).branches[b])
    requires i < s.branches[b].numTokens + |tokens|
    ensures PoolOk(WriteChunk(s, b, tokens, zero).pool)
    ensures TokenAt(WriteChunk(s, b, tokens, zero).pool, WriteChunk(s, b, tokens, zero).branches[b], i) ==
            (Gather(s.pool, s.branches[b]) + tokens)[i]
  {
    hide CeilDiv, Fill, RefsMatch, PagesOf, TokensOf, Topology, Gather;
    var n, size := s.branches[b].numTokens, s.pool.pageSize;
    DivIsNat(i, size);
    DivIsNat(n, size);
    ChunkPool(s, b, tokens, zero);
    WritePageIsPrivate(s, b, tokens, lag);
    ChunkSlot(n, |tokens|, size, i);
    assert Covered(s.pool, s.branches[b]);
    if i < n { GatherAt(s.pool, s.branches[b], i); }
  }

  lemma ChunkReads(s: Store, b: nat, tokens: seq<Token>, zero: Token, lag: nat, x: nat)
    requires StoreInv(s, lag) && CanWrite(s, b, tokens) && TailOwned(s, b) && x in s.branches
    ensures var r := WriteChunk(s, b, tokens, zero);
            && PoolOk(r.pool)
            && Covered(r.pool, r.branches[x])
            && Gather(r.pool, r.branches[x]) == Gather(s.pool, s.branches[x]) + if x == b then tokens else []
  {
    ChunkPool(s, b, tokens, zero);
    WritePageIsPrivate(s, b, tokens, lag);
    var r := WriteChunk(s, b, tokens, zero);
    assert Covered(s.pool, s.branches[x]);
    if x == b {
      ChunkCovers(s, b, tokens, zero, lag);
      var n := s.branches[b].numTokens + |tokens|;
      forall i: nat | i < n
        ensures Gather(r.pool, r.branches[b])[i] == (Gather(s.pool, s.branches[b]) + tokens)[i]
      {
        ChunkToken(s, b, tokens, zero, lag, i);
      }
    } else {
      SameView(s.pool, r.pool, s.branches[x]);
    }
  }

  /** Only the branch's own record changes, in its table and length. */
  lemma ChunkShape(s: Store, b: nat, tokens: seq<Token>, zero: Token, lag: nat)
    requires StoreInv(s, lag) && CanWrite(s, b, tokens) && TailOwned(s, b)
    ensures var r := WriteChunk(s, b, tokens, zero);
            && r.next == s.next
            && r.branches == s.branches[b := r.branches[b]]
            && r.branches[b].numTokens == s.branches[b].numTokens + |tokens|
            && Topology(r.branches)
            && TailOwned(r, b)
  {
    ChunkPool(s, b, tokens, zero);
    TablesOnlyTopology(s.branches, b, WriteChunk(s, b, tokens, zero).branches[b]);
  }

  /** Writing a chunk extends the branch by exactly its tokens and touches nobody else. */
  lemma WriteChunkKeepsStore(s: Store, b: nat, tokens: seq<Token>, zero: Token, lag: nat)
    requires StoreInv(s, lag) && CanWrite(s, b, tokens) && b in s.branches && TailOwned(s, b)
    ensures var r := WriteChunk(s, b, tokens, zero);
            && StoreInv(r, lag + |tokens|)
            && View(r) == View(s)[b := View(s)[b] + tokens]
            && TailOwned(r, b)
            && |r.pool.free| == |s.pool.free| - (if HasPartialTail(s, b) then 0 else 1)
            && r.next == s.next
            && r.branches == s.branches[b := r.branches[b]]
            && r.branches[b].numTokens == s.branches[b].numTokens + |tokens|
            && r.pool.pageSize == s.pool.pageSize
  {
    hide WriteChunk, Gather, Covered, RefsMatch, PagesOf, TokensOf, Topology, TailOwned, CanWrite;
    ChunkPool(s, b, tokens, zero);
    ChunkRefs(s, b, tokens, zero, lag);
    ChunkShape(s, b, tokens, zero, lag);
    hide PoolOk;
    var r := WriteChunk(s, b, tokens, zero);
    forall x | x in r.branches
      ensures Covered(r.pool, r.branches[x])
      ensures Gather(r.pool, r.branches[x]) == View(s)[b := View(s)[b] + tokens][x]
    {
      ChunkReads(s, b, tokens, zero, lag, x);
      assert Gather(s.pool, s.branches[x]) + [] == Gather(s.pool, s.branches[x]);
    }
    assert View(r).Keys == View(s).Keys;
  }
}
