/** The server's accumulator and the client's assembler, which keep different state, accept the same streams. */
module EventAgreement {
  import opened Common
  import opened Events
  import A = Accumulator
  import B = Assembler

  /** The two states describe the same branches. */
  ghost predicate Agree(a: A.State, b: B.State) {
    && A.Ok(a)
    && B.Ok(b)
    && a.order == b.order
    && a.started == b.branches.Keys
    && (forall id :: id in b.branches ==> SameBranch(a, b.branches[id], id))
    && a.tokenCount == b.tokenCount >= 0
    && a.prunedCount == B.CountStatus(b.order, b.branches, B.WasPruned)
    && a.mergedCount == B.CountStatus(b.order, b.branches, B.WasMerged)
    && a.finished == b.done
  }

  ghost predicate SameBranch(a: A.State, branch: B.RolloutBranch, id: Id)
    requires A.Ok(a) && id in a.started
  {
    && a.parents[id] == branch.parent
    && a.tokens[id] == branch.tokens
    && a.nextTokenIndex[id] == |branch.tokens| == |branch.tokenIndices|
    && (id in a.terminal <==> branch.status != B.Live)
    && branch.path == Walk(a.order, a.parents, id)
  }

  /** What the client can read at all: token ids of its type, and on a done event a summary of a policy it knows
      without the fields of value pruning. */
  predicate Readable(e: Emitted) {
    && (e.Token? && e.tokenId.Some? ==> e.tokenId.value >= 0)
    && (e.Done? ==> e.tree.Some? && SummaryReadable(e.tree.value))
  }

  predicate SummaryReadable(s: Summary<Float>) {
    s.policy in {"beam", "best_first", "mcts"} && s.valueEstimates.None? && s.prunedAtTokens.None?
  }

  lemma FreshAgree()
    ensures Agree(A.Fresh(), B.Fresh())
  {
  }

  // ---------------------------------------------------------------------------
  // Counting statuses
  // ---------------------------------------------------------------------------

  lemma {:induction false} CountSame(order: seq<Id>, m: map<Id, B.RolloutBranch>, n: map<Id, B.RolloutBranch>, status: B.Status)
    requires forall id :: id in order ==> ((id in m && m[id].status == status) <==> (id in n && n[id].status == status))
    ensures B.CountStatus(order, m, status) == B.CountStatus(order, n, status)
  {
    if order != [] {
      assert order == order[..|order| - 1] + [order[|order| - 1]];
      CountSame(order[..|order| - 1], m, n, status);
    }
  }

  /** Ending a live branch raises the count of its new status by one and no other. */
  lemma {:induction false} CountEnded(order: seq<Id>, m: map<Id, B.RolloutBranch>, id: Id, now: B.Status, status: B.Status)
    requires Distinct(order) && id in m && m[id].status == B.Live && status != B.Live
    ensures B.CountStatus(order, m[id := m[id].(status := now)], status)
         == B.CountStatus(order, m, status) + if id in order && now == status then 1 else 0
  {
    var n := m[id := m[id].(status := now)];
    if order != [] {
      var init, last := order[..|order| - 1], order[|order| - 1];
      assert order == init + [last];
      if last == id {
        assert id !in init;
        CountSame(init, m, n, status);
      } else {
        CountEnded(init, m, id, now, status);
      }
    }
  }

  lemma CountStarted(order: seq<Id>, m: map<Id, B.RolloutBranch>, id: Id, branch: B.RolloutBranch, status: B.Status)
    requires id !in order && id !in m && branch.status == B.Live && status != B.Live
    ensures B.CountStatus(order + [id], m[id := branch], status) == B.CountStatus(order, m, status)
  {
    assert (order + [id])[..|order|] == order;
    CountSame(order, m, m[id := branch], status);
  }

  // ---------------------------------------------------------------------------
  // One event
  // ---------------------------------------------------------------------------

  lemma AgreeFacts(a: A.State, b: B.State)
    requires Agree(a, b)
    ensures A.Ok(a) && B.Ok(b)
    ensures a.order == b.order && a.started == b.branches.Keys == a.parents.Keys == a.tokens.Keys == a.nextTokenIndex.Keys
    ensures a.tokenCount == b.tokenCount >= 0 && a.finished == b.done
    ensures a.prunedCount == B.CountStatus(b.order, b.branches, B.WasPruned)
    ensures a.mergedCount == B.CountStatus(b.order, b.branches, B.WasMerged)
    ensures ParentsFirst(a.order, a.parents) && Distinct(a.order) && forall id :: id in a.order <==> id in a.started
  {
    hide Walk, B.CountStatus, SameBranch;
  }

  lemma AgreeAt(a: A.State, b: B.State, id: Id)
    requires Agree(a, b) && id in b.branches
    ensures A.Ok(a) && id in a.started && SameBranch(a, b.branches[id], id)
  {
    hide A.Ok, B.Ok, Walk, B.CountStatus, SameBranch;
  }

  /** A branch that is known and live for one side is so for the other. */
  lemma LiveAgrees(a: A.State, b: B.State, id: Id)
    requires Agree(a, b)
    ensures B.KnownLive(b, id).None? <==> id in a.started && id !in a.terminal
    ensures A.Terminate(a, id).Accepted? <==> B.KnownLive(b, id).None?
  {
    AgreeFacts(a, b);
    if id in b.branches { AgreeAt(a, b, id); }
    hide Agree, A.Ok, B.Ok, ParentsFirst, Walk, B.CountStatus;
  }

  lemma StartedBranch(a: A.State, b: B.State, e: Emitted, x: Id)
    requires Agree(a, b) && e.BranchStarted? && A.Start(a, e.branch, e.parent).Accepted?
    requires x in b.branches || x == e.branch
    ensures B.Start(b, e.branch, e.parent).Accepted?
    ensures var a', b' := A.Start(a, e.branch, e.parent).state, B.Start(b, e.branch, e.parent).state;
            A.Ok(a') && x in a'.started && x in b'.branches && SameBranch(a', b'.branches[x], x)
  {
    hide Agree, Walk, B.Ok, Lists, ParentsFirst, B.CountStatus;
    AgreeFacts(a, b);
    StartKeepsParentsFirst(a.order, a.parents, e.branch, e.parent);
    if x == e.branch {
      NewWalk(a.order, a.parents, e.branch, e.parent);
      if e.parent.Some? { AgreeAt(a, b, e.parent.value); }
    } else {
      AgreeAt(a, b, x);
      WalkStays(a.order, a.parents, e.branch, e.parent, x);
    }
  }

  lemma NewWalk(order: seq<Id>, parents: map<Id, Option<Id>>, id: Id, parent: Option<Id>)
    requires ParentsFirst(order, parents) && id !in parents && (parent.Some? ==> parent.value in parents)
    ensures ParentsFirst(order + [id], parents[id := parent])
    ensures Walk(order + [id], parents[id := parent], id)
         == if parent.None? then [id] else Walk(order, parents, parent.value) + [id]
  {
    StartKeepsParentsFirst(order, parents, id, parent);
    if parent.Some? { WalkStays(order, parents, id, parent, parent.value); }
  }

  lemma StartAgrees(a: A.State, b: B.State, e: Emitted)
    requires Agree(a, b) && !a.finished && e.BranchStarted?
    ensures A.Accept(a, e).Accepted? <==> B.Parses(OnWire(e)) && B.Add(b, OnWire(e)).Accepted?
    ensures A.Accept(a, e).Accepted? ==> Agree(A.Accept(a, e).state, B.Add(b, OnWire(e)).state)
  {
    hide A.Ok, B.Ok, ParentsFirst, Walk, SameBranch, B.CountStatus;
    AgreeFacts(a, b);
    if A.Accept(a, e).Accepted? {
      A.AcceptKeepsOk(a, e);
      B.AddKeepsOk(b, OnWire(e));
      var a', b' := A.Accept(a, e).state, B.Add(b, OnWire(e)).state;
      CountStarted(b.order, b.branches, e.branch, b'.branches[e.branch], B.WasPruned);
      CountStarted(b.order, b.branches, e.branch, b'.branches[e.branch], B.WasMerged);
      forall x | x in b'.branches
        ensures SameBranch(a', b'.branches[x], x)
      {
        StartedBranch(a, b, e, x);
      }
    }
  }

  lemma TokenAccepted(a: A.State, b: B.State, e: Emitted)
    requires Agree(a, b) && !a.finished && e.Token? && Readable(e)
    ensures A.Accept(a, e).Accepted? <==> B.Parses(OnWire(e)) && B.Add(b, OnWire(e)).Accepted?
  {
    AgreeFacts(a, b);
    if e.branch in b.branches { AgreeAt(a, b, e.branch); }
    hide Agree, A.Ok, B.Ok, ParentsFirst, Walk, B.CountStatus;
  }

  lemma TokenBranch(a: A.State, b: B.State, e: Emitted, x: Id)
    requires Agree(a, b) && !a.finished && e.Token? && Readable(e) && A.Accept(a, e).Accepted? && x in b.branches
    ensures B.Parses(OnWire(e)) && B.Add(b, OnWire(e)).Accepted? && A.Ok(A.Accept(a, e).state)
    ensures x in A.Accept(a, e).state.started && x in B.Add(b, OnWire(e)).state.branches
    ensures SameBranch(A.Accept(a, e).state, B.Add(b, OnWire(e)).state.branches[x], x)
  {
    hide Agree, ParentsFirst, Walk, B.CountStatus, B.Ok;
    TokenAccepted(a, b, e);
    AgreeFacts(a, b);
    AgreeAt(a, b, x);
    AgreeAt(a, b, e.branch);
  }

  lemma TokenAgrees(a: A.State, b: B.State, e: Emitted)
    requires Agree(a, b) && !a.finished && e.Token? && Readable(e)
    ensures A.Accept(a, e).Accepted? <==> B.Parses(OnWire(e)) && B.Add(b, OnWire(e)).Accepted?
    ensures A.Accept(a, e).Accepted? ==> Agree(A.Accept(a, e).state, B.Add(b, OnWire(e)).state)
  {
    hide A.Ok, B.Ok, ParentsFirst, Walk, SameBranch, B.CountStatus, B.Parses;
    TokenAccepted(a, b, e);
    AgreeFacts(a, b);
    if A.Accept(a, e).Accepted? {
      A.AcceptKeepsOk(a, e);
      B.AddKeepsOk(b, OnWire(e));
      var a', b' := A.Accept(a, e).state, B.Add(b, OnWire(e)).state;
      CountSame(b.order, b.branches, b'.branches, B.WasPruned);
      CountSame(b.order, b.branches, b'.branches, B.WasMerged);
      forall x | x in b'.branches
        ensures SameBranch(a', b'.branches[x], x)
      {
        TokenBranch(a, b, e, x);
      }
    }
  }

  /** What ending a live branch does on the two sides. */
  ghost predicate Ended(a: A.State, b: B.State, id: Id, status: B.Status, a': A.State, b': B.State)
    requires id in b.branches
  {
    && status != B.Live
    && b' == B.WithStatus(b, id, status).(done := b'.done)
    && a' == a.(terminal := a.terminal + {id}, finished := b'.done,
                prunedCount := a.prunedCount + if status == B.WasPruned then 1 else 0,
                mergedCount := a.mergedCount + if status == B.WasMerged then 1 else 0)
  }

  lemma EndedBranch(a: A.State, b: B.State, id: Id, status: B.Status, a': A.State, b': B.State, x: Id)
    requires Agree(a, b) && id in b.branches && Ended(a, b, id, status, a', b') && A.Ok(a') && x in b.branches
    ensures x in a'.started && x in b'.branches && SameBranch(a', b'.branches[x], x)
  {
    AgreeFacts(a, b);
    AgreeAt(a, b, x);
    hide Agree, A.Ok, B.Ok, ParentsFirst, Walk;
  }

  lemma EndAgrees(a: A.State, b: B.State, id: Id, status: B.Status, a': A.State, b': B.State)
    requires Agree(a, b) && id in b.branches && b.branches[id].status == B.Live && Ended(a, b, id, status, a', b')
    requires A.Ok(a') && B.Ok(b')
    ensures Agree(a', b')
  {
    hide A.Ok, B.Ok, ParentsFirst, Walk, SameBranch, B.CountStatus;
    AgreeFacts(a, b);
    CountEnded(b.order, b.branches, id, status, B.WasPruned);
    CountEnded(b.order, b.branches, id, status, B.WasMerged);
    forall x | x in b'.branches
      ensures x in a'.started && SameBranch(a', b'.branches[x], x)
    {
      EndedBranch(a, b, id, status, a', b', x);
    }
  }

  lemma EndAccepted(a: A.State, b: B.State, e: Emitted)
    requires Agree(a, b) && !a.finished && (e.Pruned? || e.Merged?)
    ensures A.Accept(a, e).Accepted? <==> B.Parses(OnWire(e)) && B.Add(b, OnWire(e)).Accepted?
    ensures A.Accept(a, e).Accepted? ==>
              && e.branch in b.branches && b.branches[e.branch].status == B.Live
              && Ended(a, b, e.branch, if e.Pruned? then B.WasPruned else B.WasMerged, A.Accept(a, e).state, B.Add(b, OnWire(e)).state)
  {
    hide Agree, A.Ok, B.Ok, ParentsFirst, Walk, B.CountStatus;
    AgreeFacts(a, b);
    LiveAgrees(a, b, e.branch);
    if e.Merged? { LiveAgrees(a, b, e.into); }
  }

  lemma EndEventAgrees(a: A.State, b: B.State, e: Emitted)
    requires Agree(a, b) && !a.finished && (e.Pruned? || e.Merged?)
    ensures A.Accept(a, e).Accepted? <==> B.Parses(OnWire(e)) && B.Add(b, OnWire(e)).Accepted?
    ensures A.Accept(a, e).Accepted? ==> Agree(A.Accept(a, e).state, B.Add(b, OnWire(e)).state)
  {
    hide Agree, A.Ok, B.Ok, ParentsFirst, Walk, B.CountStatus, Ended, B.Parses, A.Accept, B.Add;
    AgreeFacts(a, b);
    EndAccepted(a, b, e);
    if A.Accept(a, e).Accepted? {
      A.AcceptKeepsOk(a, e);
      B.AddKeepsOk(b, OnWire(e));
      EndAgrees(a, b, e.branch, if e.Pruned? then B.WasPruned else B.WasMerged, A.Accept(a, e).state, B.Add(b, OnWire(e)).state);
    }
  }

  // ---------------------------------------------------------------------------
  // Done
  // ---------------------------------------------------------------------------

  /** What both sides ask of a done event, in the accumulator's terms. */
  predicate SummaryRight(a: A.State, e: Emitted)
    requires e.Done? && e.tree.Some?
  {
    var tree := e.tree.value;
    && e.branch in a.started && e.branch !in a.terminal
    && a.started == a.terminal + {e.branch}
    && e.usage.completionTokens == a.tokenCount
    && A.CountersValid(e.usage, e.counters)
    && A.RatioValid(tree.ratio, e.counters)
    && tree.branchCount == |a.started|
    && tree.prunedCount == a.prunedCount
    && tree.mergedCount == a.mergedCount
    && tree.tokensPerBranch == (map id | id in a.tokens :: |a.tokens[id]|)
    && tree.finalScores.Keys == a.started
    && (forall id :: id in tree.finalScores ==> tree.finalScores[id].Finite?)
    && tree.winner == e.branch
  }

  lemma AccumulatorDone(a: A.State, e: Emitted)
    requires A.Ok(a) && e.Done? && e.tree.Some?
    ensures A.Complete(a, e).Accepted? <==>
              SummaryRight(a, e) && PathText(Walk(a.order, a.parents, e.branch), a.tokens) == e.text
    ensures A.Complete(a, e).Accepted? ==>
              A.Complete(a, e).state == a.(terminal := a.terminal + {e.branch}, finished := true)
  {
    hide ParentsFirst, Walk, PathText;
  }

  /** The counts and maps the two sides compare the summary with. */
  lemma SameTotals(a: A.State, b: B.State)
    requires Agree(a, b)
    ensures |a.started| == |b.branches|
    ensures (map id | id in a.tokens :: |a.tokens[id]|) == (map id | id in b.branches :: |b.branches[id].tokens|)
    ensures a.tokens == B.Texts(b)
  {
    hide Agree, A.Ok, B.Ok, ParentsFirst, Walk;
    AgreeFacts(a, b);
    forall id | id in b.branches
      ensures a.tokens[id] == b.branches[id].tokens
    {
      AgreeAt(a, b, id);
    }
  }

  lemma OthersEnded(a: A.State, b: B.State, winner: Id)
    requires Agree(a, b)
    ensures winner in a.started && winner !in a.terminal ==> (!B.OtherLive(b, winner) <==> a.started == a.terminal + {winner})
  {
    hide Agree, A.Ok, B.Ok, ParentsFirst, Walk;
    AgreeFacts(a, b);
    TerminalsStarted(a);
    forall id | id in b.branches
      ensures id in a.terminal <==> b.branches[id].status != B.Live
    {
      AgreeAt(a, b, id);
    }
  }

  lemma TerminalsStarted(a: A.State)
    requires A.Ok(a)
    ensures a.terminal <= a.started
  {
  }

  /** What the parser already guarantees of a done event. */
  lemma ParsedDone(e: Emitted)
    requires e.Done? && Readable(e) && B.Parses(OnWire(e))
    ensures A.CountersValid(e.usage, e.counters)
    ensures forall id :: id in e.tree.value.finalScores ==> e.tree.value.finalScores[id].Finite?
    ensures A.RatioValid(e.tree.value.ratio, e.counters) <==>
              e.counters.physical > 0 && B.RatioMatches(e.tree.value.ratio, e.counters)
  {
    hide IsClose;
  }

  /** The assembler's checks of a summary, as one condition. */
  predicate SummaryPasses(b: B.State, e: Emitted)
    requires e.Done? && e.tree.Some?
  {
    var tree := e.tree.value;
    && e.usage.completionTokens == b.tokenCount
    && tree.branchCount == |b.branches|
    && B.KnownLive(b, e.branch).None? && !B.OtherLive(b, e.branch)
    && tree.prunedCount == B.CountStatus(b.order, b.branches, B.WasPruned)
    && tree.mergedCount == B.CountStatus(b.order, b.branches, B.WasMerged)
    && tree.tokensPerBranch == (map id | id in b.branches :: |b.branches[id].tokens|)
    && tree.finalScores.Keys == b.branches.Keys
    && tree.winner == e.branch
    && e.counters.physical > 0 && B.RatioMatches(tree.ratio, e.counters)
  }

  lemma SummaryErrorForm(b: B.State, e: Emitted)
    requires e.Done? && e.tree.Some?
    ensures B.SummaryError(b, OnWire(e), SummaryOnWire(e.tree.value)).None? <==> SummaryPasses(b, e)
  {
    hide B.CountStatus, B.OtherLive, B.RatioMatches;
  }

  lemma AssemblerChecks(a: A.State, b: B.State, e: Emitted)
    requires Agree(a, b) && e.Done? && Readable(e) && B.Parses(OnWire(e))
    ensures B.SummaryError(b, OnWire(e), SummaryOnWire(e.tree.value)).None? <==> SummaryRight(a, e)
  {
    hide Agree, A.Ok, B.Ok, ParentsFirst, Walk, B.CountStatus, B.OtherLive, B.Parses, A.CountersValid, A.RatioValid, B.RatioMatches;
    hide B.SummaryError, B.KnownLive, SummaryReadable, OnWire, SummaryOnWire;
    SummaryErrorForm(b, e);
    AgreeFacts(a, b);
    ParsedDone(e);
    LiveAgrees(a, b, e.branch);
    SameTotals(a, b);
    OthersEnded(a, b, e.branch);
  }

  /** The accumulator's own checks include everything the client's parser asks. */
  lemma RightParses(a: A.State, b: B.State, e: Emitted)
    requires Agree(a, b) && e.Done? && Readable(e) && SummaryRight(a, e)
    ensures B.Parses(OnWire(e))
  {
    hide Agree, ParentsFirst, B.SummaryParses, B.CountStatus, SummaryRight, SummaryReadable, B.Parses, OnWire, SummaryOnWire;
    AgreeFacts(a, b);
    SummaryRightParses(a, e);
    CountersParse(a, e);
  }

  lemma CountersParse(a: A.State, e: Emitted)
    requires e.Done? && e.tree.Some? && SummaryRight(a, e) && a.tokenCount >= 0 && B.SummaryParses(SummaryOnWire(e.tree.value))
    ensures B.Parses(OnWire(e))
  {
    hide IsClose, B.SummaryParses, SummaryOnWire, A.RatioValid;
  }

  lemma SummaryRightParses(a: A.State, e: Emitted)
    requires e.Done? && e.tree.Some? && SummaryReadable(e.tree.value) && SummaryRight(a, e) && a.tokens.Keys == a.started
    requires a.prunedCount >= 0 && a.mergedCount >= 0
    ensures B.SummaryParses(SummaryOnWire(e.tree.value))
  {
    hide IsClose, A.CountersValid;
    var counts := e.tree.value.tokensPerBranch;
    assert counts.Keys == a.started;
    assert |counts| == |counts.Keys|;
    assert |a.started - {e.branch}| >= 0;
  }

  lemma DoneAccepted(a: A.State, b: B.State, e: Emitted)
    requires Agree(a, b) && !a.finished && e.Done? && Readable(e)
    ensures A.Accept(a, e).Accepted? <==> B.Parses(OnWire(e)) && B.Add(b, OnWire(e)).Accepted?
    ensures A.Accept(a, e).Accepted? ==>
              A.Accept(a, e).state == a.(terminal := a.terminal + {e.branch}, finished := true)
              && e.branch in b.branches && b.branches[e.branch].status == B.Live
  {
    hide Agree, A.Ok, B.Ok, ParentsFirst, Walk, SummaryRight, B.SummaryError, B.Parses, A.Complete, PathText, B.CountStatus;
    AgreeFacts(a, b);
    AccumulatorDone(a, e);
    SameTotals(a, b);
    if B.Parses(OnWire(e)) { AssemblerChecks(a, b, e); }
    if SummaryRight(a, e) {
      RightParses(a, b, e);
      WinnerAgrees(a, b, e);
    }
  }

  lemma WinnerAgrees(a: A.State, b: B.State, e: Emitted)
    requires Agree(a, b) && e.Done? && e.tree.Some? && SummaryRight(a, e)
    ensures A.Ok(a) && e.branch in a.started && e.branch in b.branches && b.branches[e.branch].status == B.Live
    ensures b.branches[e.branch].path == Walk(a.order, a.parents, e.branch)
  {
    AgreeFacts(a, b);
    AgreeAt(a, b, e.branch);
  }

  lemma DoneAgrees(a: A.State, b: B.State, e: Emitted)
    requires Agree(a, b) && !a.finished && e.Done? && Readable(e)
    ensures A.Accept(a, e).Accepted? <==> B.Parses(OnWire(e)) && B.Add(b, OnWire(e)).Accepted?
    ensures A.Accept(a, e).Accepted? ==> Agree(A.Accept(a, e).state, B.Add(b, OnWire(e)).state)
  {
    hide Agree, A.Ok, B.Ok, ParentsFirst, Walk, B.SummaryError, B.Parses, A.Complete, PathText, B.CountStatus;
    AgreeFacts(a, b);
    DoneAccepted(a, b, e);
    if A.Accept(a, e).Accepted? {
      A.AcceptKeepsOk(a, e);
      B.AddKeepsOk(b, OnWire(e));
      EndAgrees(a, b, e.branch, B.Completed, A.Accept(a, e).state, B.Add(b, OnWire(e)).state);
    }
  }

  // ---------------------------------------------------------------------------
  // Streams
  // ---------------------------------------------------------------------------

  /** One event: the server accepts it exactly when the client parses and accepts it. */
  lemma EventAgrees(a: A.State, b: B.State, e: Emitted)
    requires Agree(a, b) && Readable(e)
    ensures A.Accept(a, e).Accepted? <==> B.Parses(OnWire(e)) && B.Add(b, OnWire(e)).Accepted?
    ensures A.Accept(a, e).Accepted? ==> Agree(A.Accept(a, e).state, B.Add(b, OnWire(e)).state)
  {
    AgreeFacts(a, b);
    hide Agree, A.Ok, B.Ok, B.Parses;
    if !a.finished {
      match e {
        case BranchStarted(_, _) => StartAgrees(a, b, e);
        case Token(_, _, _, _, _) => TokenAgrees(a, b, e);
        case Merged(_, _) => EndEventAgrees(a, b, e);
        case Pruned(_, _) => EndEventAgrees(a, b, e);
        case Done(_, _, _, _, _) => DoneAgrees(a, b, e);
      }
    }
  }

  /** What the client cannot read it rejects, whatever the server does. */
  lemma UnreadableIsRejected(e: Emitted)
    requires !Readable(e)
    ensures !B.Parses(OnWire(e))
  {
  }

  function StreamOnWire(events: seq<Emitted>): (r: seq<Received>)
    ensures |r| == |events|
  {
    seq(|events|, k requires 0 <= k < |events| => OnWire(events[k]))
  }

  /** From agreeing states: the assembler accepts a stream exactly if the accumulator does and every event of it
      can be read. */
  lemma {:induction false} StreamsAgree(a: A.State, b: B.State, events: seq<Emitted>)
    requires Agree(a, b)
    ensures A.Ok(a) && B.Ok(b)
    ensures B.AcceptsStream(b, StreamOnWire(events)) <==>
              A.AcceptsStream(a, events) && forall k :: 0 <= k < |events| ==> Readable(events[k])
    decreases |events|
  {
    AgreeFacts(a, b);
    hide Agree, A.Ok, B.Ok, A.Accept, B.Add, B.Parses, Readable, OnWire;
    if events != [] {
      assert StreamOnWire(events)[0] == OnWire(events[0]) && StreamOnWire(events)[1..] == StreamOnWire(events[1..]);
      if Readable(events[0]) {
        EventAgrees(a, b, events[0]);
        if A.Accept(a, events[0]).Accepted? {
          A.AcceptKeepsOk(a, events[0]);
          B.AddKeepsOk(b, OnWire(events[0]));
          StreamsAgree(A.Accept(a, events[0]).state, B.Add(b, OnWire(events[0])).state, events[1..]);
          ReadableFirst(events);
        }
      } else {
        UnreadableIsRejected(events[0]);
      }
    }
  }

  lemma ReadableFirst(events: seq<Emitted>)
    requires events != []
    ensures (forall k :: 0 <= k < |events| ==> Readable(events[k])) <==>
              Readable(events[0]) && forall k :: 0 <= k < |events[1..]| ==> Readable(events[1..][k])
  {
    hide Readable;
    if Readable(events[0]) && forall k :: 0 <= k < |events[1..]| ==> Readable(events[1..][k]) {
      forall k | 0 <= k < |events| ensures Readable(events[k]) { assert k > 0 ==> events[k] == events[1..][k - 1]; }
    }
    if forall k :: 0 <= k < |events| ==> Readable(events[k]) {
      forall k | 0 <= k < |events[1..]| ensures Readable(events[1..][k]) { assert events[1..][k] == events[k + 1]; }
    }
  }

  /** From the start of a generation, for every stream the engine can emit. */
  lemma SameStreams(events: seq<Emitted>)
    ensures B.AcceptsStream(B.Fresh(), StreamOnWire(events)) <==>
              A.AcceptsStream(A.Fresh(), events) && forall k :: 0 <= k < |events| ==> Readable(events[k])
  {
    FreshAgree();
    StreamsAgree(A.Fresh(), B.Fresh(), events);
  }

  // ---------------------------------------------------------------------------
  // Where they differ
  // ---------------------------------------------------------------------------

  /** The end of a one-branch generation without tokens. */
  function EndOf(tree: Option<Summary<Float>>): Emitted {
    Done("r", "", Usage(0, 0), Counters(1, 1, 0, Finite(1.0), Finite(0.0)), tree)
  }

  /** The server's state once the only branch has started. */
  function RootStarted(): A.State {
    A.State(["r"], {"r"}, {}, map["r" := None], map["r" := []], map["r" := 0], 0, 0, 0, false)
  }

  lemma RootStarts()
    ensures A.Ok(A.Fresh()) && A.Accept(A.Fresh(), BranchStarted("r", None)) == Accepted(RootStarted()) && A.Ok(RootStarted())
  {
    A.AcceptKeepsOk(A.Fresh(), BranchStarted("r", None));
    var s, r := A.Accept(A.Fresh(), BranchStarted("r", None)).state, RootStarted();
    assert s.order == r.order && s.started == r.started && s.parents == r.parents;
    assert s.tokens == r.tokens && s.nextTokenIndex == r.nextTokenIndex;
  }

  lemma RootText()
    ensures ParentsFirst(RootStarted().order, RootStarted().parents)
    ensures PathText(Walk(RootStarted().order, RootStarted().parents, "r"), RootStarted().tokens) == ""
  {
    RootStarts();
    assert Walk(RootStarted().order, RootStarted().parents, "r") == ["r"];
  }

  /** Whatever end passes the summary check, if it has a summary at all, completes the stream. */
  lemma EndAcceptedByServer(tree: Option<Summary<Float>>)
    requires var done := A.Terminate(RootStarted(), "r");
             tree.Some? ==> done.Accepted? && A.SummaryError(done.state, "r", EndOf(tree).counters, tree.value).None?
    ensures A.AcceptsStream(A.Fresh(), [BranchStarted("r", None), EndOf(tree)])
  {
    RootStarts();
    RootText();
    hide ParentsFirst, Walk, PathText, A.SummaryError;
    assert RootStarted().terminal + {"r"} == RootStarted().started;
    assert A.Complete(RootStarted(), EndOf(tree)).Accepted?;
    hide A.Complete;
    A.AcceptKeepsOk(RootStarted(), EndOf(tree));
    var events: seq<Emitted> := [BranchStarted("r", None), EndOf(tree)];
    assert events[1..] == [EndOf(tree)] && events[1..][1..] == [];
    CompletedIsFinished(EndOf(tree));
    assert A.AcceptsStream(RootStarted(), [EndOf(tree)]);
  }

  lemma CompletedIsFinished(e: Emitted)
    requires A.Ok(RootStarted()) && e.Done? && A.Complete(RootStarted(), e).Accepted?
    ensures A.Complete(RootStarted(), e).state.finished
  {
    hide ParentsFirst, Walk, PathText, A.SummaryError;
  }

  lemma ClientRejects(e: Emitted)
    requires !Readable(e)
    ensures !B.AcceptsStream(B.Fresh(), StreamOnWire([BranchStarted("r", None), e]))
  {
    var events: seq<Emitted> := [BranchStarted("r", None), e];
    SameStreams(events);
    assert !Readable(events[1]);
  }

  /** Asked for without a tree, it is done without a summary: the server accepts that, the client cannot read it. */
  lemma MissingSummaryDiffers()
    ensures A.AcceptsStream(A.Fresh(), [BranchStarted("r", None), EndOf(None)])
    ensures !B.AcceptsStream(B.Fresh(), StreamOnWire([BranchStarted("r", None), EndOf(None)]))
  {
    EndAcceptedByServer(None);
    ClientRejects(EndOf(None));
  }

  /** The same generation pruned by value estimates, as an engine with that policy reports it. */
  function Estimates(): Summary<Float> {
    Summary("emvpt", Finite(1.0), 1, 0, 0, "r", map["r" := 0], map["r" := Finite(0.0)],
            Some(map["r" := None]), Some(map["r" := None]))
  }

  /** The server does not look at the policy or at the estimates; the client cannot read them. */
  lemma ValuePruningDiffers()
    ensures A.AcceptsStream(A.Fresh(), [BranchStarted("r", None), EndOf(Some(Estimates()))])
    ensures !B.AcceptsStream(B.Fresh(), StreamOnWire([BranchStarted("r", None), EndOf(Some(Estimates()))]))
  {
    EstimatesPass();
    EndAcceptedByServer(Some(Estimates()));
    ClientRejects(EndOf(Some(Estimates())));
  }

  lemma EstimatesPass()
    ensures var done := A.Terminate(RootStarted(), "r");
            done.Accepted? && A.SummaryError(done.state, "r", EndOf(None).counters, Estimates()).None?
  {
    var s := RootStarted();
    assert (map id | id in s.tokens :: |s.tokens[id]|) == map["r" := 0];
    assert Estimates().finalScores.Keys == {"r"} && |{"r"}| == 1;
  }
}
