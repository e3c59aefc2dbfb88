/** The paged K/V pool (core/autotree_core/kv/pool.py). */
module KvPool {
  import opened Common

  /** One token's keys and values over all layers, as the bytes they are. */
  type Token(==, 0, !new)

  type Page = seq<Token>

  datatype KVError =
    | KVCapacityError(requiredPages: nat, availablePages: nat)
    | KVInvariantError
    | BranchHasChildrenError(branch: nat)
    | KeyError(branch: nat)

  datatype KVResult<+T> = Ok(value: T) | Err(error: KVError) {
    predicate IsFailure() { Err? }

    function PropagateFailure<U>(): KVResult<U>
      requires Err?
    {
      Err(error)
    }

    function Extract(): T
      requires Ok?
    {
      value
    }
  }

  /** The value of a pool: the pages' contents, their reference counts and valid lengths, the free
      pages in ascending order, and the logical token count. */
  datatype Pool = Pool(
    pageSize: nat,
    pages: seq<Page>,
    refs: seq<nat>,
    lens: seq<nat>,
    free: seq<nat>,
    logical: int)
  {
    function UsedPages(): int { |refs| - |free| }

    function PhysicalTokens(): int { UsedPages() * pageSize }

    predicate Allocated(p: nat) {
      p < |refs| && refs[p] != 0
    }
  }

  ghost predicate Ascending(s: seq<nat>) {
    forall i, j :: 0 <= i < j < |s| ==> s[i] < s[j]
  }

  /** The free list is exactly the unreferenced pages, each once. */
  ghost predicate PoolOk(p: Pool) {
    && p.pageSize > 0
    && |p.pages| == |p.refs| == |p.lens|
    && (forall i :: 0 <= i < |p.pages| ==> |p.pages[i]| == p.pageSize)
    && Ascending(p.free)
    && (forall i: nat :: i in p.free <==> i < |p.refs| && p.refs[i] == 0)
  }

  function EmptyPool(capacity: nat, pageSize: nat, zero: Token): Pool {
    Pool(pageSize, seq(capacity, _ => seq(pageSize, _ => zero)), seq(capacity, _ => 0), seq(capacity, _ => 0),
         IdsFrom(0, capacity), 0)
  }

  lemma EmptyPoolOk(capacity: nat, pageSize: nat, zero: Token)
    requires pageSize > 0
    ensures PoolOk(EmptyPool(capacity, pageSize, zero))
  {
  }

  // ---------------------------------------------------------------------------
  // The operations
  // ---------------------------------------------------------------------------

  lemma AscendingBelow(low: nat, tail: seq<nat>, rest: seq<nat>, p: nat)
    requires Ascending([low] + tail) && forall x :: x in rest ==> x == p || x in tail
    ensures low < p && Ascending(rest) ==> Ascending([low] + rest)
  {
    forall x | x in tail
      ensures low < x
    {
      var i :| 0 <= i < |tail| && tail[i] == x;
      assert ([low] + tail)[0] < ([low] + tail)[i + 1];
    }
    assert forall i :: 0 <= i < |rest| ==> rest[i] in rest;
  }

  /** Where a page goes back into the ordered free list. */
  function InsertFree(free: seq<nat>, p: nat): (r: seq<nat>)
    requires Ascending(free)
    ensures forall x :: x in r <==> x == p || x in free
    ensures p !in free ==> |r| == |free| + 1 && Ascending(r)
    decreases |free|
  {
    if free == [] then [p]
    else if p < free[0] then
      assert forall i :: 0 <= i < |free| ==> p < free[i];
      [p] + free
    else
      var rest := InsertFree(free[1..], p);
      assert free == [free[0]] + free[1..];
      AscendingBelow(free[0], free[1..], rest, p);
      [free[0]] + rest
  }

  function Retain(p: Pool, page: nat): Pool
    requires p.Allocated(page)
  {
    p.(refs := p.refs[page := p.refs[page] + 1])
  }

  function Release(p: Pool, page: nat): Pool
    requires p.Allocated(page) && |p.lens| == |p.refs| && Ascending(p.free)
  {
    if p.refs[page] > 1 then p.(refs := p.refs[page := p.refs[page] - 1])
    else p.(lens := p.lens[page := 0], refs := p.refs[page := 0], free := InsertFree(p.free, page))
  }

  /** The lowest free page, zeroed, with one reference. */
  function Alloc(p: Pool, zero: Token): Pool
    requires PoolOk(p) && p.free != []
  {
    var page := p.free[0];
    assert page in p.free;
    p.(free := p.free[1..],
       pages := p.pages[page := seq(p.pageSize, _ => zero)],
       lens := p.lens[page := 0],
       refs := p.refs[page := 1])
  }

  /** A fresh page holding what `page` holds. */
  function CopyOf(p: Pool, page: nat, zero: Token): Pool
    requires PoolOk(p) && p.free != [] && p.Allocated(page)
  {
    var q := Alloc(p, zero);
    assert p.free[0] in p.free;
    q.(pages := q.pages[p.free[0] := p.pages[page]], lens := q.lens[p.free[0] := p.lens[page]])
  }

  /** The page with new tokens in the slots from `at` on. */
  function Overwrite(page: Page, at: nat, tokens: seq<Token>): (r: Page)
    requires at + |tokens| <= |page|
    ensures |r| == |page|
    ensures forall k :: 0 <= k < |page| ==> r[k] == if at <= k < at + |tokens| then tokens[k - at] else page[k]
  {
    page[..at] + tokens + page[at + |tokens|..]
  }

  lemma RetainOk(p: Pool, page: nat)
    requires PoolOk(p) && p.Allocated(page)
    ensures PoolOk(Retain(p, page))
  {
  }

  lemma ReleaseOk(p: Pool, page: nat)
    requires PoolOk(p) && p.Allocated(page)
    ensures PoolOk(Release(p, page))
    ensures |Release(p, page).free| == |p.free| + if p.refs[page] == 1 then 1 else 0
  {
    assert page !in p.free;
  }

  lemma AllocOk(p: Pool, zero: Token)
    requires PoolOk(p) && p.free != []
    ensures PoolOk(Alloc(p, zero))
    ensures |Alloc(p, zero).free| == |p.free| - 1
    ensures p.free[0] < |p.refs| && p.refs[p.free[0]] == 0
  {
    var page := p.free[0];
    assert page in p.free;
    assert p.free == [page] + p.free[1..];
    var r := Alloc(p, zero);
    forall i: nat
      ensures i in r.free <==> i < |r.refs| && r.refs[i] == 0
    {
      if i in p.free[1..] {
        var k :| 0 <= k < |p.free[1..]| && p.free[1..][k] == i;
        assert p.free[k + 1] == i && i in p.free;
      }
    }
  }

  // ---------------------------------------------------------------------------
  // The class
  // ---------------------------------------------------------------------------

  class PagedKVPool {
    const capacity: nat
    const pageSize: nat
    const zero: Token
    const cache: array<Page>
    var refcounts: seq<nat>
    var validLengths: seq<nat>
    var freePages: seq<nat>
    var logicalTokens: int

    ghost function State(): Pool
      reads this, cache
    {
      Pool(pageSize, cache[..], refcounts, validLengths, freePages, logicalTokens)
    }

    ghost predicate Valid()
      reads this, cache
    {
      PoolOk(State()) && |refcounts| == capacity
    }

    constructor (capacity: nat, pageSize: nat, zero: Token)
      requires capacity > 0 && pageSize > 0
      ensures Valid() && fresh(cache)
      ensures State() == EmptyPool(capacity, pageSize, zero)
      ensures this.capacity == capacity && this.pageSize == pageSize && this.zero == zero
    {
      this.capacity := capacity;
      this.pageSize := pageSize;
      this.zero := zero;
      cache := new Page[capacity](_ => seq(pageSize, _ => zero));
      refcounts := seq(capacity, _ => 0);
      validLengths := seq(capacity, _ => 0);
      freePages := IdsFrom(0, capacity);
      logicalTokens := 0;
      new;
      assert cache[..] == EmptyPool(capacity, pageSize, zero).pages;
      EmptyPoolOk(capacity, pageSize, zero);
    }

    /** Allocates the lowest available page with a reference count of one. */
    method AllocPage() returns (r: KVResult<nat>)
      requires Valid()
      modifies this`refcounts, this`validLengths, this`freePages, cache
      ensures Valid()
      ensures r.Err? <==> old(freePages) == []
      ensures r.Err? ==> r.error == KVCapacityError(1, 0) && State() == old(State())
      ensures r.Ok? ==> r.value == old(freePages)[0] && State() == Alloc(old(State()), zero)
    {
      if freePages == [] {
        return Err(KVCapacityError(1, 0));
      }
      AllocOk(State(), zero);
      var page := freePages[0];
      assert page in freePages;
      freePages := freePages[1..];
      ZeroPage(page);
      validLengths := validLengths[page := 0];
      refcounts := refcounts[page := 1];
      r := Ok(page);
    }

    method ZeroPage(page: nat)
      requires page < cache.Length
      modifies cache
      ensures cache[..] == old(cache[..])[page := seq(pageSize, _ => zero)]
    {
      cache[page] := seq(pageSize, _ => zero);
    }

    /** Releases one reference and recycles the page immediately at zero. */
    method Free(page: nat) returns (r: KVResult<()>)
      requires Valid()
      modifies this`refcounts, this`validLengths, this`freePages
      ensures Valid()
      ensures r.Ok? <==> old(State()).Allocated(page)
      ensures r.Ok? ==> State() == Release(old(State()), page)
      ensures r.Err? ==> r.error == KVInvariantError && State() == old(State())
    {
      if page >= capacity || refcounts[page] == 0 {
        return Err(KVInvariantError);
      }
      ReleaseOk(State(), page);
      if refcounts[page] > 1 {
        refcounts := refcounts[page := refcounts[page] - 1];
        return Ok(());
      }
      validLengths := validLengths[page := 0];
      refcounts := refcounts[page := 0];
      freePages := InsertFree(freePages, page);
      r := Ok(());
    }

    method RetainPage(page: nat) returns (r: KVResult<()>)
      requires Valid()
      modifies this`refcounts
      ensures Valid()
      ensures r.Ok? <==> old(State()).Allocated(page)
      ensures r.Ok? ==> State() == Retain(old(State()), page)
      ensures r.Err? ==> r.error == KVInvariantError && State() == old(State())
    {
      if page >= capacity || refcounts[page] == 0 {
        return Err(KVInvariantError);
      }
      refcounts := refcounts[page := refcounts[page] + 1];
      r := Ok(());
    }

    method AdjustLogicalTokens(delta: int) returns (r: KVResult<()>)
      requires Valid()
      modifies this`logicalTokens
      ensures Valid()
      ensures r.Ok? <==> old(logicalTokens) + delta >= 0
      ensures State() == if r.Ok? then old(State()).(logical := old(logicalTokens) + delta) else old(State())
    {
      if logicalTokens + delta < 0 {
        return Err(KVInvariantError);
      }
      logicalTokens := logicalTokens + delta;
      r := Ok(());
    }

    method RequireCapacity(requiredPages: int) returns (r: KVResult<()>)
      requires Valid()
      ensures r.Ok? <==> 0 <= requiredPages <= |freePages|
      ensures requiredPages > |freePages| ==> r == Err(KVCapacityError(requiredPages, |freePages|))
    {
      if requiredPages < 0 {
        return Err(KVInvariantError);
      }
      if requiredPages > |freePages| {
        return Err(KVCapacityError(requiredPages, |freePages|));
      }
      r := Ok(());
    }

    /** Allocates a page and copies another one into it. */
    method CopyPage(page: nat) returns (r: KVResult<nat>)
      requires Valid()
      modifies this`refcounts, this`validLengths, this`freePages, cache
      ensures Valid()
      ensures r.Ok? <==> old(State()).Allocated(page) && old(freePages) != []
      ensures r.Err? ==> State() == old(State())
      ensures r.Ok? ==> r.value == old(freePages)[0] && State() == CopyOf(old(State()), page, zero)
    {
      if page >= capacity || refcounts[page] == 0 {
        return Err(KVInvariantError);
      }
      ghost var before := State();
      r := AllocPage();
      if r.Ok? {
        AllocOk(before, zero);
        cache[r.value] := cache[page];
        validLengths := validLengths[r.value := validLengths[page]];
      }
    }

    /** The batched slot write of an append, on one page. */
    method WriteSlots(page: nat, at: nat, tokens: seq<Token>)
      requires Valid() && page < cache.Length && at + |tokens| <= pageSize
      modifies cache
      ensures Valid()
      ensures State() == old(State()).(pages := old(cache[..])[page := Overwrite(old(cache[..])[page], at, tokens)])
    {
      cache[page] := Overwrite(cache[page], at, tokens);
    }

    method SetPageLength(page: nat, length: nat) returns (r: KVResult<()>)
      requires Valid()
      modifies this`validLengths
      ensures Valid()
      ensures r.Ok? <==> old(State()).Allocated(page) && length <= pageSize
      ensures State() == if r.Ok? then old(State()).(lens := old(validLengths)[page := length]) else old(State())
    {
      if page >= capacity || refcounts[page] == 0 || length > pageSize {
        return Err(KVInvariantError);
      }
      validLengths := validLengths[page := length];
      r := Ok(());
    }
  }
}
