/** Whole runs of the branch store against its specification, a plain map from branches to token sequences. */
module KvRuns {
  import opened KvPool
  import opened KvStore
  import opened KvLifecycle
  import opened KvDedup
  import opened KvTreeState

  datatype Op = ForkOp(branch: nat) | AppendOp(branch: nat, tokens: seq<Token>) | PruneOp(branch: nat) | DedupOp

  /** The specification: what each live branch holds, and the next branch id. */
  datatype Plain = Plain(held: map<nat, seq<Token>>, next: nat)

  function Meaning(p: Plain, op: Op): Plain {
    match op
    case ForkOp(b) => if b in p.held then Plain(p.held[p.next := p.held[b]], p.next + 1) else p
    case AppendOp(b, tokens) => if b in p.held then p.(held := p.held[b := p.held[b] + tokens]) else p
    case PruneOp(b) => p.(held := p.held - {b})
    case DedupOp => p
  }

  /** The operations that were not refused, applied in order. */
  function MeaningOf(p: Plain, ops: seq<Op>, accepted: seq<bool>): Plain
    requires |ops| == |accepted|
  {
    if ops == [] then p
    else
      var before := MeaningOf(p, ops[..|ops| - 1], accepted[..|ops| - 1]);
      if accepted[|ops| - 1] then Meaning(before, ops[|ops| - 1]) else before
  }

  /** Exactly the refusals the source has: an unknown branch, a branch with children, too few pages. */
  predicate Accepts(s: Store, op: Op)
    requires StoreInv(s, 0)
  {
    match op
    case ForkOp(b) => b in s.branches
    case AppendOp(b, tokens) => b in s.branches && RequiredPages(s, b, |tokens|) <= |s.pool.free|
    case PruneOp(b) => b in s.branches && s.branches[b].children == {}
    case DedupOp => true
  }

  /** One operation: the store afterwards means what the specification says, and every other branch reads
      as it did; a refused operation changes nothing. */
  method Perform(tree: TreeState, op: Op, digest: Page -> Digest) returns (accepted: bool)
    requires tree.Valid()
    modifies tree, tree.pool, tree.pool.cache
    ensures tree.Valid()
    ensures accepted == Accepts(old(tree.Snapshot()), op)
    ensures Plain(tree.Contents(), tree.nextBranchId) ==
            if accepted then Meaning(Plain(old(tree.Contents()), old(tree.nextBranchId)), op)
            else Plain(old(tree.Contents()), old(tree.nextBranchId))
    ensures !accepted ==> tree.Snapshot() == old(tree.Snapshot())
  {
    match op {
      case ForkOp(b) => accepted := PerformFork(tree, b);
      case AppendOp(b, tokens) => accepted := PerformAppend(tree, b, tokens);
      case PruneOp(b) => accepted := PerformPrune(tree, b);
      case DedupOp =>
        hide StoreInv, View, NoDuplicates, SameForest;
        var merged := tree.DedupScan(digest);
        accepted := true;
    }
  }

  method PerformFork(tree: TreeState, b: nat) returns (accepted: bool)
    requires tree.Valid()
    modifies tree, tree.pool
    ensures tree.Valid() && accepted == (b in old(tree.branches))
    ensures Plain(tree.Contents(), tree.nextBranchId) ==
            if accepted then Meaning(Plain(old(tree.Contents()), old(tree.nextBranchId)), ForkOp(b))
            else Plain(old(tree.Contents()), old(tree.nextBranchId))
    ensures !accepted ==> tree.Snapshot() == old(tree.Snapshot())
  {
    assert b in tree.branches <==> b in tree.Contents();
    hide StoreInv, View, RetainAll, ForkBranches;
    var r := tree.Fork(b);
    accepted := r.Ok?;
  }

  method PerformAppend(tree: TreeState, b: nat, tokens: seq<Token>) returns (accepted: bool)
    requires tree.Valid()
    modifies tree, tree.pool, tree.pool.cache
    ensures tree.Valid() && accepted == Accepts(old(tree.Snapshot()), AppendOp(b, tokens))
    ensures Plain(tree.Contents(), tree.nextBranchId) ==
            if accepted then Meaning(Plain(old(tree.Contents()), old(tree.nextBranchId)), AppendOp(b, tokens))
            else Plain(old(tree.Contents()), old(tree.nextBranchId))
    ensures !accepted ==> tree.Snapshot() == old(tree.Snapshot())
  {
    assert b in tree.branches <==> b in tree.Contents();
    hide StoreInv, View, RequiredPages, SameForest;
    var r := tree.AppendTokens(b, tokens);
    accepted := r.Ok?;
  }

  method PerformPrune(tree: TreeState, b: nat) returns (accepted: bool)
    requires tree.Valid()
    modifies tree, tree.pool
    ensures tree.Valid() && accepted == (b in old(tree.branches) && old(tree.branches)[b].children == {})
    ensures Plain(tree.Contents(), tree.nextBranchId) ==
            if accepted then Meaning(Plain(old(tree.Contents()), old(tree.nextBranchId)), PruneOp(b))
            else Plain(old(tree.Contents()), old(tree.nextBranchId))
    ensures !accepted ==> tree.Snapshot() == old(tree.Snapshot())
  {
    hide StoreInv, View, Releasable, ReleaseAll;
    var r := tree.Prune(b);
    accepted := r.Ok?;
  }

  /** Any run of operations: the store stays valid and every live branch gathers to exactly the tokens the
      specification gives it. */
  method RunOps(tree: TreeState, ops: seq<Op>, digest: Page -> Digest) returns (accepted: seq<bool>)
    requires tree.Valid()
    modifies tree, tree.pool, tree.pool.cache
    ensures tree.Valid() && |accepted| == |ops|
    ensures Plain(tree.Contents(), tree.nextBranchId)
         == MeaningOf(Plain(old(tree.Contents()), old(tree.nextBranchId)), ops, accepted)
    ensures forall b :: b in tree.branches ==>
              GatherBranchKv(tree.pool.State(), tree.branches[b].table, tree.branches[b].numTokens) == Ok(tree.Contents()[b])
  {
    hide StoreInv, View, Meaning, Accepts;
    ghost var start := Plain(tree.Contents(), tree.nextBranchId);
    accepted := [];
    for i := 0 to |ops|
      invariant tree.Valid() && |accepted| == i
      invariant Plain(tree.Contents(), tree.nextBranchId) == MeaningOf(start, ops[..i], accepted)
    {
      var ok := Perform(tree, ops[i], digest);
      assert ops[..i + 1][..i] == ops[..i] && (accepted + [ok])[..i] == accepted;
      accepted := accepted + [ok];
    }
    assert ops[..|ops|] == ops;
    GathersItsContents(tree.Snapshot());
  }

  lemma GathersItsContents(s: Store)
    requires StoreInv(s, 0)
    ensures forall b :: b in s.branches ==>
              && b in View(s)
              && GatherBranchKv(s.pool, s.branches[b].table, s.branches[b].numTokens) == Ok(View(s)[b])
  {
    forall b | b in s.branches
      ensures GatherBranchKv(s.pool, s.branches[b].table, s.branches[b].numTokens) == Ok(View(s)[b])
    {
      assert Covered(s.pool, s.branches[b]);
      GatherBranchKvSpec(s.pool, s.branches[b].table, s.branches[b].numTokens);
      SameReading(s.pool, s.branches[b]);
    }
  }

  /** A branch reads the same without its links. */
  lemma SameReading(p: Pool, b: Branch)
    requires PoolOk(p) && Covered(p, b)
    ensures Covered(p, Anonymous(b.table, b.numTokens))
    ensures Gather(p, Anonymous(b.table, b.numTokens)) == Gather(p, b)
  {
  }
}
