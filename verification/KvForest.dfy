/** The speculative "as if appended" tables of a batched decode step
    (core/autotree_core/modeling/executor.py, _forest_attention_decode and attention_metadata). */
module KvForest {
  import opened Common
  import opened PageMath
  import opened KvPool
  import opened KvStore
  import opened KvAppend
  import opened KvTreeState

  /** A block table as the kernel sees it: page ids, padded with -1. */
  type Row = seq<int>

  function Ids(table: seq<nat>): (r: Row)
    ensures |r| == |table| && forall i :: 0 <= i < |table| ==> r[i] == table[i]
  {
    seq(|table|, i requires 0 <= i < |table| => table[i])
  }

  function Padded(table: seq<nat>, width: nat): (r: Row)
    requires |table| <= width
    ensures |r| == width
    ensures forall i :: 0 <= i < width ==> r[i] == if i < |table| then table[i] else -1
  {
    Ids(table) + seq(width - |table|, _ => -1)
  }

  /** The row names a physical page for every token of the context. */
  predicate RowCovers(pageCount: nat, size: nat, row: Row, contextLen: nat)
    requires size > 0
  {
    CeilDiv(contextLen, size) <= |row| && forall i :: 0 <= i < CeilDiv(contextLen, size) ==> 0 <= row[i] < pageCount
  }

  /** The tokens a branch attends to through its row. */
  function RowTokens(pages: seq<Page>, size: nat, row: Row, contextLen: nat): (r: seq<Token>)
    requires size > 0 && (forall p :: 0 <= p < |pages| ==> |pages[p]| == size)
    requires RowCovers(|pages|, size, row, contextLen)
    ensures |r| == contextLen
  {
    seq(contextLen, i requires 0 <= i < contextLen => RowToken(pages, size, row, contextLen, i))
  }

  function RowToken(pages: seq<Page>, size: nat, row: Row, contextLen: nat, i: nat): Token
    requires size > 0 && (forall p :: 0 <= p < |pages| ==> |pages[p]| == size)
    requires RowCovers(|pages|, size, row, contextLen) && i < contextLen
  {
    SlotInTable(i, contextLen, size);
    pages[row[i / size]][i % size]
  }

  function LongestTable(m: map<nat, Branch>, ids: seq<nat>): (w: nat)
    requires forall k :: 0 <= k < |ids| ==> ids[k] in m
    ensures forall k :: 0 <= k < |ids| ==> |m[ids[k]].table| <= w
  {
    if ids == [] then 0
    else
      var rest := LongestTable(m, ids[..|ids| - 1]);
      if |m[ids[|ids| - 1]].table| > rest then |m[ids[|ids| - 1]].table| else rest
  }

  /** A padded row shows a branch's token path. */
  lemma PaddedReads(p: Pool, b: Branch, width: nat)
    requires PoolOk(p) && Covered(p, b) && |b.table| <= width
    ensures RowCovers(|p.pages|, p.pageSize, Padded(b.table, width), b.numTokens)
    ensures RowTokens(p.pages, p.pageSize, Padded(b.table, width), b.numTokens) == Gather(p, b)
  {
    var row := Padded(b.table, width);
    forall i | 0 <= i < |b.table|
      ensures 0 <= row[i] < |p.pages|
    {
      assert p.Allocated(b.table[i]);
    }
    forall i: nat | i < b.numTokens
      ensures RowToken(p.pages, p.pageSize, row, b.numTokens, i) == Gather(p, b)[i]
    {
      DivIsNat(i, p.pageSize);
      SlotInTable(i, b.numTokens, p.pageSize);
      GatherAt(p, b, i);
    }
  }

  /** The kernel-ready tables of some branches, padded to the longest, and their context lengths. */
  method AttentionMetadata(tree: TreeState, ids: seq<nat>) returns (tables: seq<Row>, contextLens: seq<nat>)
    requires tree.Valid() && forall k :: 0 <= k < |ids| ==> ids[k] in tree.branches
    ensures |tables| == |contextLens| == |ids|
    ensures forall k :: 0 <= k < |ids| ==> ReadsBranch(tree.Snapshot(), ids[k], tables[k], contextLens[k])
  {
    var width := LongestTable(tree.branches, ids);
    tables, contextLens := [], [];
    for row := 0 to |ids|
      invariant |tables| == |contextLens| == row
      invariant forall k :: 0 <= k < row ==> ReadsBranch(tree.Snapshot(), ids[k], tables[k], contextLens[k])
    {
      var branch := tree.branches[ids[row]];
      assert Covered(tree.pool.State(), branch);
      PaddedReads(tree.pool.State(), branch, width);
      assert ReadsBranch(tree.Snapshot(), ids[row], Padded(branch.table, width), branch.numTokens);
      hide StoreInv, ReadsBranch, Covered;
      tables, contextLens := tables + [Padded(branch.table, width)], contextLens + [branch.numTokens];
    }
  }

  /** The row shows exactly what the branch holds. */
  ghost predicate ReadsBranch(s: Store, b: nat, row: Row, contextLen: nat)
    requires StoreInv(s, 0)
  {
    && b in s.branches
    && RowCovers(|s.pool.pages|, s.pool.pageSize, row, contextLen)
    && RowTokens(s.pool.pages, s.pool.pageSize, row, contextLen) == View(s)[b]
  }

  /** The page a row's step writes to: a copy of its partial tail, or an empty page, plus the new token. */
  function StepPage(p: Pool, b: Branch, token: Token, zero: Token): (r: Page)
    requires PoolOk(p) && Covered(p, b)
    ensures |r| == p.pageSize
  {
    var at := b.numTokens % p.pageSize;
    if at != 0 then
      CeilDivSpec(b.numTokens, p.pageSize);
      p.pages[b.table[|b.table| - 1]][at := token]
    else seq(p.pageSize, _ => zero)[at := token]
  }

  /** The row that sends the step's token to page `temp`: over the partial tail, or after the table. */
  function StepRow(size: nat, b: Branch, width: nat, temp: nat): (r: Row)
    requires size > 0 && |b.table| <= width && |b.table| == CeilDiv(b.numTokens, size)
  {
    CeilDivSpec(b.numTokens, size);
    var row := Padded(b.table, width) + [-1];
    if b.numTokens % size != 0 then row[|b.table| - 1 := temp] else row[|b.table| := temp]
  }

  /** Through its step row a branch reads its own tokens followed by the new one, although the store has
      not been touched. */
  lemma StepRowReads(p: Pool, b: Branch, width: nat, temp: nat, pages: seq<Page>, token: Token, zero: Token)
    requires PoolOk(p) && Covered(p, b) && |b.table| <= width
    requires p.pages <= pages && |p.pages| <= temp < |pages| && pages[temp] == StepPage(p, b, token, zero)
    requires forall x :: 0 <= x < |pages| ==> |pages[x]| == p.pageSize
    ensures RowCovers(|pages|, p.pageSize, StepRow(p.pageSize, b, width, temp), b.numTokens + 1)
    ensures RowTokens(pages, p.pageSize, StepRow(p.pageSize, b, width, temp), b.numTokens + 1) == Gather(p, b) + [token]
  {
    StepRowCovers(p, b, width, temp, |pages|);
    var row := StepRow(p.pageSize, b, width, temp);
    forall i: nat | i < b.numTokens + 1
      ensures RowToken(pages, p.pageSize, row, b.numTokens + 1, i) == (Gather(p, b) + [token])[i]
    {
      StepToken(p, b, width, temp, pages, token, zero, i);
    }
  }

  lemma StepRowCovers(p: Pool, b: Branch, width: nat, temp: nat, pageCount: nat)
    requires PoolOk(p) && Covered(p, b) && |b.table| <= width && |p.pages| <= temp < pageCount
    ensures RowCovers(pageCount, p.pageSize, StepRow(p.pageSize, b, width, temp), b.numTokens + 1)
  {
    var n, size := b.numTokens, p.pageSize;
    ChunkSlot(n, 1, size, n);
    CeilDivCases(n, size);
    forall i | 0 <= i < |b.table|
      ensures b.table[i] < |p.pages|
    {
      assert p.Allocated(b.table[i]);
    }
  }

  lemma StepToken(p: Pool, b: Branch, width: nat, temp: nat, pages: seq<Page>, token: Token, zero: Token, i: nat)
    requires PoolOk(p) && Covered(p, b) && |b.table| <= width
    requires p.pages <= pages && |p.pages| <= temp < |pages| && pages[temp] == StepPage(p, b, token, zero)
    requires forall x :: 0 <= x < |pages| ==> |pages[x]| == p.pageSize
    requires RowCovers(|pages|, p.pageSize, StepRow(p.pageSize, b, width, temp), b.numTokens + 1)
    requires i < b.numTokens + 1
    ensures RowToken(pages, p.pageSize, StepRow(p.pageSize, b, width, temp), b.numTokens + 1, i) == (Gather(p, b) + [token])[i]
  {
    var n, size := b.numTokens, p.pageSize;
    DivIsNat(i, size);
    DivIsNat(n, size);
    ChunkSlot(n, 1, size, i);
    StepRowAt(size, b, width, temp, i / size);
    if i < n { GatherAt(p, b, i); }
    if i / size == n / size { StepPageAt(p, b, token, zero, i % size); }
    StepSlot(p, b, pages, StepRow(size, b, width, temp), temp, StepPage(p, b, token, zero), token, i,
             i / size, i % size, n / size, n % size);
  }

  /** The case analysis on the page and the slot, free of arithmetic. */
  lemma StepSlot(p: Pool, b: Branch, pages: seq<Page>, row: Row, temp: nat, page: Page, token: Token, i: nat,
                 q: nat, slot: nat, last: nat, at: nat)
    requires PoolOk(p) && Covered(p, b) && p.pages <= pages && temp < |pages| && pages[temp] == page
    requires i <= b.numTokens && q < |row| && q <= last
    requires q == last ==> row[q] == temp && slot <= at && slot < |page|
    requires q < last ==> q < |b.table| && row[q] == b.table[q] && i < b.numTokens
    requires i < b.numTokens && q == last ==> slot < at
    requires i == b.numTokens ==> q == last && slot == at
    requires i < b.numTokens ==> q < |b.table| && b.table[q] < |p.pages| && slot < |p.pages[b.table[q]]|
                                 && Gather(p, b)[i] == p.pages[b.table[q]][slot]
    requires q == last && slot == at ==> page[slot] == token
    requires q == last && slot < at ==> last < |b.table| && b.table[last] < |p.pages| && slot < |p.pages[b.table[last]]|
                                        && page[slot] == p.pages[b.table[last]][slot]
    ensures 0 <= row[q] < |pages| && slot < |pages[row[q]]|
    ensures pages[row[q]][slot] == (Gather(p, b) + [token])[i]
  {
    hide PoolOk, Covered, Gather;
  }

  lemma StepRowAt(size: nat, b: Branch, width: nat, temp: nat, j: nat)
    requires size > 0 && |b.table| == CeilDiv(b.numTokens, size) && |b.table| <= width && j <= b.numTokens / size
    ensures j < |StepRow(size, b, width, temp)|
    ensures j == b.numTokens / size ==> StepRow(size, b, width, temp)[j] == temp
    ensures j < b.numTokens / size ==> j < |b.table| && StepRow(size, b, width, temp)[j] == b.table[j]
  {
    CeilDivCases(b.numTokens, size);
  }

  lemma StepPageAt(p: Pool, b: Branch, token: Token, zero: Token, slot: nat)
    requires PoolOk(p) && Covered(p, b) && slot <= b.numTokens % p.pageSize
    ensures slot < |StepPage(p, b, token, zero)|
    ensures slot == b.numTokens % p.pageSize ==> StepPage(p, b, token, zero)[slot] == token
    ensures slot < b.numTokens % p.pageSize ==>
              var last := b.numTokens / p.pageSize;
              && last < |b.table| && b.table[last] < |p.pages| && slot < |p.pages[b.table[last]]|
              && StepPage(p, b, token, zero)[slot] == p.pages[b.table[last]][slot]
  {
    CeilDivCases(b.numTokens, p.pageSize);
    if slot < b.numTokens % p.pageSize {
      assert p.Allocated(b.table[|b.table| - 1]);
    }
  }

  /** The step-local views of a batch: one temporary page and one extended table a row. */
  method ForestStep(tree: TreeState, ids: seq<nat>, newTokens: seq<Token>)
    returns (tables: seq<Row>, contextLens: seq<nat>, temps: seq<Page>)
    requires tree.Valid() && |newTokens| == |ids| && forall k :: 0 <= k < |ids| ==> ids[k] in tree.branches
    ensures |tables| == |contextLens| == |temps| == |ids|
    ensures forall k :: 0 <= k < |temps| ==> |temps[k]| == tree.pool.pageSize
    ensures forall k :: 0 <= k < |ids| ==>
              ReadsAsAppended(tree.Snapshot(), ids[k], newTokens[k], tree.pool.cache[..] + temps, tables[k], contextLens[k])
  {
    hide StoreInv, StepRow, StepPage, Covered, ReadsAsAppended;
    var width := LongestTable(tree.branches, ids);
    ghost var s := tree.Snapshot();
    StoreFacts(s, 0);
    tables, contextLens, temps := [], [], [];
    for row := 0 to |ids|
      invariant |tables| == |contextLens| == |temps| == row
      invariant forall k :: 0 <= k < row ==>
                  StepDone(s, ids[k], newTokens[k], width, |s.pool.pages| + k, tree.pool.zero, tables[k], contextLens[k], temps[k])
    {
      var branch := tree.branches[ids[row]];
      var table, temp := StepForBranch(tree.pool, branch, width, tree.pool.cache.Length + row, newTokens[row]);
      tables, contextLens, temps := tables + [table], contextLens + [branch.numTokens + 1], temps + [temp];
    }
    BatchReads(s, ids, newTokens, width, tree.pool.zero, tables, contextLens, temps);
  }

  ghost predicate StepDone(s: Store, b: nat, token: Token, width: nat, temp: nat, zero: Token, row: Row, contextLen: nat, page: Page) {
    && PoolOk(s.pool) && b in s.branches && Covered(s.pool, s.branches[b]) && |s.branches[b].table| <= width
    && row == StepRow(s.pool.pageSize, s.branches[b], width, temp)
    && contextLen == s.branches[b].numTokens + 1
    && page == StepPage(s.pool, s.branches[b], token, zero)
  }

  lemma BatchReads(s: Store, ids: seq<nat>, newTokens: seq<Token>, width: nat, zero: Token,
                   tables: seq<Row>, contextLens: seq<nat>, temps: seq<Page>)
    requires StoreInv(s, 0) && |newTokens| == |ids| == |tables| == |contextLens| == |temps|
    requires forall k :: 0 <= k < |ids| ==>
               StepDone(s, ids[k], newTokens[k], width, |s.pool.pages| + k, zero, tables[k], contextLens[k], temps[k])
    ensures forall k :: 0 <= k < |ids| ==>
              |temps[k]| == s.pool.pageSize && ids[k] in s.branches
              && ReadsAsAppended(s, ids[k], newTokens[k], s.pool.pages + temps, tables[k], contextLens[k])
  {
    forall k | 0 <= k < |ids|
      ensures |temps[k]| == s.pool.pageSize
    {
      assert StepDone(s, ids[k], newTokens[k], width, |s.pool.pages| + k, zero, tables[k], contextLens[k], temps[k]);
    }
    forall k | 0 <= k < |ids|
      ensures ids[k] in s.branches
      ensures ReadsAsAppended(s, ids[k], newTokens[k], s.pool.pages + temps, tables[k], contextLens[k])
    {
      assert StepDone(s, ids[k], newTokens[k], width, |s.pool.pages| + k, zero, tables[k], contextLens[k], temps[k]);
      StepRowReads(s.pool, s.branches[ids[k]], width, |s.pool.pages| + k, s.pool.pages + temps, newTokens[k], zero);
    }
  }

  /** One row of the batch: its extended table and its temporary page. */
  method StepForBranch(pool: PagedKVPool, branch: Branch, width: nat, temp: nat, token: Token)
    returns (row: Row, page: Page)
    requires pool.Valid() && Covered(pool.State(), branch) && |branch.table| <= width
    ensures row == StepRow(pool.pageSize, branch, width, temp)
    ensures page == StepPage(pool.State(), branch, token, pool.zero)
  {
    CeilDivSpec(branch.numTokens, pool.pageSize);
    var at := branch.numTokens % pool.pageSize;
    page := seq(pool.pageSize, _ => pool.zero);
    row := Padded(branch.table, width) + [-1];
    if at != 0 {
      assert pool.State().Allocated(branch.table[|branch.table| - 1]);
      page := pool.cache[branch.table[|branch.table| - 1]];
      row := row[|branch.table| - 1 := temp];
    } else {
      row := row[|branch.table| := temp];
    }
    page := page[at := token];
  }

  /** The row is complete and shows the branch's tokens with one more at the end. */
  ghost predicate ReadsAsAppended(s: Store, b: nat, token: Token, pages: seq<Page>, row: Row, contextLen: nat)
    requires StoreInv(s, 0) && b in s.branches
  {
    && (forall x :: 0 <= x < |pages| ==> |pages[x]| == s.pool.pageSize)
    && RowCovers(|pages|, s.pool.pageSize, row, contextLen)
    && RowTokens(pages, s.pool.pageSize, row, contextLen) == View(s)[b] + [token]
  }

  /** The speculative view is the real one: what a step row shows is what the branch reads once its token has
      really been appended, whatever else was appended to other branches. */
  lemma StepAgreesWithAppend(s: Store, t: Store, b: nat, token: Token, pages: seq<Page>, row: Row, contextLen: nat)
    requires StoreInv(s, 0) && StoreInv(t, 0) && b in s.branches
    requires b in View(t) && View(t)[b] == View(s)[b] + [token]
    requires ReadsAsAppended(s, b, token, pages, row, contextLen)
    ensures b in t.branches
    ensures RowTokens(pages, s.pool.pageSize, row, contextLen) == Gather(t.pool, t.branches[b])
    ensures contextLen == t.branches[b].numTokens
  {
  }

  datatype BatchOutcome = Decoded | BadBatch | UnknownBranch(branch: nat) | OutOfPages(row: nat, error: KVError)

  /** The sequences after the first n branches of a batch got their tokens. */
  function Extended(m: map<nat, seq<Token>>, ids: seq<nat>, newTokens: seq<Token>, n: nat): (r: map<nat, seq<Token>>)
    requires n <= |ids| == |newTokens| && forall k :: 0 <= k < |ids| ==> ids[k] in m
    ensures r.Keys == m.Keys
  {
    if n == 0 then m
    else
      var before := Extended(m, ids, newTokens, n - 1);
      before[ids[n - 1] := before[ids[n - 1]] + [newTokens[n - 1]]]
  }

  lemma {:induction false} ExtendedAt(m: map<nat, seq<Token>>, ids: seq<nat>, newTokens: seq<Token>, n: nat, k: nat)
    requires n <= |ids| == |newTokens| && Distinct(ids) && k < |ids| && forall j :: 0 <= j < |ids| ==> ids[j] in m
    ensures Extended(m, ids, newTokens, n)[ids[k]] == if k < n then m[ids[k]] + [newTokens[k]] else m[ids[k]]
  {
    if n > 0 { ExtendedAt(m, ids, newTokens, n - 1, k); }
  }

  method FirstUnknown(tree: TreeState, ids: seq<nat>) returns (unknown: Option<nat>)
    ensures unknown.None? <==> forall k :: 0 <= k < |ids| ==> ids[k] in tree.branches
    ensures unknown.Some? ==> exists k ::
              0 <= k < |ids| && unknown == Some(ids[k]) && ids[k] !in tree.branches
              && forall j :: 0 <= j < k ==> ids[j] in tree.branches
  {
    for k := 0 to |ids|
      invariant forall j :: 0 <= j < k ==> ids[j] in tree.branches
    {
      if ids[k] !in tree.branches { return Some(ids[k]); }
    }
    unknown := None;
  }

  /** What a step row showed is what the branch holds now. */
  ghost predicate ShowsBranch(t: Store, b: nat, pages: seq<Page>, row: Row, contextLen: nat)
    requires StoreInv(t, 0)
  {
    && b in t.branches
    && (forall x :: 0 <= x < |pages| ==> |pages[x]| == t.pool.pageSize)
    && RowCovers(|pages|, t.pool.pageSize, row, contextLen)
    && contextLen == t.branches[b].numTokens
    && RowTokens(pages, t.pool.pageSize, row, contextLen) == Gather(t.pool, t.branches[b])
  }

  lemma RowsAgree(s: Store, t: Store, ids: seq<nat>, newTokens: seq<Token>, pages: seq<Page>, tables: seq<Row>,
                  contextLens: seq<nat>, done: nat)
    requires StoreInv(s, 0) && StoreInv(t, 0) && t.pool.pageSize == s.pool.pageSize
    requires done <= |ids| == |newTokens| == |tables| == |contextLens| && Distinct(ids)
    requires forall k :: 0 <= k < |ids| ==>
               ids[k] in s.branches && ReadsAsAppended(s, ids[k], newTokens[k], pages, tables[k], contextLens[k])
    requires (forall k :: 0 <= k < |ids| ==> ids[k] in View(s)) && View(t) == Extended(View(s), ids, newTokens, done)
    ensures forall k :: 0 <= k < done ==> ShowsBranch(t, ids[k], pages, tables[k], contextLens[k])
  {
    forall k | 0 <= k < done
      ensures ShowsBranch(t, ids[k], pages, tables[k], contextLens[k])
    {
      ExtendedAt(View(s), ids, newTokens, done, k);
      hide StoreInv, View, Gather, RowTokens;
      StepAgreesWithAppend(s, t, ids[k], newTokens[k], pages, tables[k], contextLens[k]);
    }
  }

  method AllDistinct(ids: seq<nat>) returns (distinct: bool)
    ensures distinct <==> Distinct(ids)
  {
    var seen: set<nat> := {};
    for k := 0 to |ids|
      invariant forall x :: x in seen <==> x in ids[..k]
      invariant Distinct(ids[..k])
    {
      assert ids[..k + 1] == ids[..k] + [ids[k]];
      if ids[k] in seen {
        ghost var j :| 0 <= j < k && ids[..k][j] == ids[k];
        return false;
      }
      seen := seen + {ids[k]};
    }
    assert ids[..|ids|] == ids;
    distinct := true;
  }

  /** One append after the other; the first that finds too few pages ends it. */
  method AppendEach(tree: TreeState, ids: seq<nat>, newTokens: seq<Token>) returns (done: nat, r: KVResult<()>)
    requires tree.Valid() && |ids| == |newTokens| && forall k :: 0 <= k < |ids| ==> ids[k] in tree.Contents()
    modifies tree, tree.pool, tree.pool.cache
    ensures tree.Valid() && done <= |ids|
    ensures tree.Contents() == Extended(old(tree.Contents()), ids, newTokens, done)
    ensures if r.Ok? then done == |ids| else done < |ids| && r.error.KVCapacityError?
  {
    hide StoreInv, View;
    ghost var before := tree.Contents();
    done := 0;
    while done < |ids|
      invariant tree.Valid() && done <= |ids|
      invariant tree.Contents() == Extended(before, ids, newTokens, done)
    {
      ViewKeys(tree.Snapshot());
      r := tree.AppendTokens(ids[done], [newTokens[done]]);
      if r.Err? {
        return;
      }
      done := done + 1;
    }
    r := Ok(());
  }

  /** A batched decode: the forward pass attends through the step rows, and only afterwards each branch's token is
      really appended. Every branch that gets its token then holds exactly what its row showed. Out of pages, the
      branches before the failing one keep their tokens. */
  method DecodeBatch(tree: TreeState, ids: seq<nat>, newTokens: seq<Token>)
    returns (outcome: BatchOutcome, tables: seq<Row>, contextLens: seq<nat>, temps: seq<Page>)
    requires tree.Valid()
    modifies tree, tree.pool, tree.pool.cache
    ensures tree.Valid()
    ensures outcome.BadBatch? <==> ids == [] || |ids| != |newTokens| || !Distinct(ids)
    ensures !outcome.BadBatch? ==> (outcome.UnknownBranch? <==> exists k :: 0 <= k < |ids| && ids[k] !in old(tree.branches))
    ensures outcome.BadBatch? || outcome.UnknownBranch? ==> tree.Snapshot() == old(tree.Snapshot())
    ensures outcome.Decoded? || outcome.OutOfPages? ==>
              var done := if outcome.Decoded? then |ids| else outcome.row;
              && done <= |ids| == |newTokens| == |tables| == |contextLens|
              && (forall k :: 0 <= k < |ids| ==> ids[k] in old(tree.Contents()))
              && tree.Contents() == Extended(old(tree.Contents()), ids, newTokens, done)
              && forall k :: 0 <= k < done ==>
                   ShowsBranch(tree.Snapshot(), ids[k], old(tree.pool.cache[..]) + temps, tables[k], contextLens[k])
    ensures outcome.OutOfPages? ==> outcome.row < |ids| && outcome.error.KVCapacityError?
  {
    hide StoreInv, View, ReadsAsAppended, ShowsBranch, Distinct, Extended;
    tables, contextLens, temps := [], [], [];
    var distinct := AllDistinct(ids);
    if ids == [] || |ids| != |newTokens| || !distinct {
      return BadBatch, [], [], [];
    }
    var unknown := FirstUnknown(tree, ids);
    if unknown.Some? {
      return UnknownBranch(unknown.value), [], [], [];
    }
    ghost var s, pages := tree.Snapshot(), tree.pool.cache[..];
    tables, contextLens, temps := ForestStep(tree, ids, newTokens);
    ViewKeys(s);
    var done, r := AppendEach(tree, ids, newTokens);
    RowsAgree(s, tree.Snapshot(), ids, newTokens, pages + temps, tables, contextLens, done);
    outcome := if r.Ok? then Decoded else OutOfPages(done, r.error);
  }

  lemma ViewKeys(s: Store)
    requires StoreInv(s, 0)
    ensures View(s).Keys == s.branches.Keys
  {
  }
}
