/** What the server's and the client's errors say about a stream, in the stream's own events
    (serve/autotree_serve/app.py, sdk/autotree_sdk/trace.py). */
module Rejections {
  import opened Common
  import opened Events
  import opened Stories
  import A = Accumulator
  import B = Assembler
  import opened EventAgreement

  // ---------------------------------------------------------------------------
  // The server
  // ---------------------------------------------------------------------------

  ghost predicate Ends(e: Emitted, id: Id) {
    (e.Pruned? || e.Merged? || e.Done?) && e.branch == id
  }

  /** The error names a fault of the event e after the events p. */
  ghost predicate ServerSays(p: seq<Emitted>, e: Emitted, error: A.ContractError) {
    match error
    case EventAfterDone => DoneIn(p)
    case StartedMoreThanOnce(id) => e.BranchStarted? && e.branch == id && StartedIn(p, id)
    case UnknownParent(id) => e.BranchStarted? && e.branch == id && e.parent.Some? && !StartedIn(p, e.parent.value)
    case TokenForUnknownBranch(id) => e.Token? && e.branch == id && !StartedIn(p, id)
    case TokenAfterTermination(id) => e.Token? && e.branch == id && EndedIn(p, id)
    case WrongTokenIndex(expected, got) => e.Token? && e.index == got != expected == TokensIn(p, e.branch)
    case NonFiniteLogprob => e.Token? && e.logprob.NonFinite?
    case EmptyPruneReason => e.Pruned? && |e.reason| == 0
    case MergeIntoItself => e.Merged? && e.into == e.branch
    case UnknownMergeTarget => e.Merged? && !StartedIn(p, e.into)
    case TerminatedMergeTarget => e.Merged? && EndedIn(p, e.into)
    case TerminalForUnknownBranch(id) => Ends(e, id) && !StartedIn(p, id)
    case TerminatedMoreThanOnce(id) => Ends(e, id) && EndedIn(p, id)
    case BranchesWithoutTerminal => e.Done? && exists other :: OpenIn(p, other) && other != e.branch
    case CompletionTokensMismatch => e.Done? && e.usage.completionTokens != AllTokensIn(p)
    case InvalidCounters => e.Done? && !CountersFit(e.usage, e.counters)
    case TextMismatch => e.Done? && e.text != TextTo(p, |p|, e.branch)
    case _ => e.Done? && e.tree.Some? && SummarySays(p, e, e.tree.value, error)
  }

  ghost predicate SummarySays(p: seq<Emitted>, e: Emitted, tree: Summary<Float>, error: A.ContractError)
    requires e.Done?
  {
    match error
    case InvalidReuseRatio => !RatioFits(tree.ratio, e.counters)
    case BranchCountMismatch => tree.branchCount != |StartedIds(p)|
    case PrunedCountMismatch => tree.prunedCount != PrunedIn(p)
    case MergedCountMismatch => tree.mergedCount != MergedIn(p)
    case TokensPerBranchMismatch =>
      tree.tokensPerBranch.Keys != StartedIds(p) || exists id :: id in tree.tokensPerBranch && tree.tokensPerBranch[id] != TokensIn(p, id)
    case ScoreKeysMismatch => tree.finalScores.Keys != StartedIds(p)
    case NonFiniteScore => exists id :: id in tree.finalScores && tree.finalScores[id].NonFinite?
    case WinnerMismatch => tree.winner != e.branch
    case _ => false
  }

  /** The same in the accumulator's terms. */
  ghost predicate SummaryIsOff(s: A.State, e: Emitted, tree: Summary<Float>, error: A.ContractError)
    requires e.Done?
  {
    match error
    case InvalidReuseRatio => !A.RatioValid(tree.ratio, e.counters)
    case BranchCountMismatch => tree.branchCount != |s.started|
    case PrunedCountMismatch => tree.prunedCount != s.prunedCount
    case MergedCountMismatch => tree.mergedCount != s.mergedCount
    case TokensPerBranchMismatch => tree.tokensPerBranch != map id | id in s.tokens :: |s.tokens[id]|
    case ScoreKeysMismatch => tree.finalScores.Keys != s.started
    case NonFiniteScore => exists id :: id in tree.finalScores && tree.finalScores[id].NonFinite?
    case WinnerMismatch => tree.winner != e.branch
    case _ => false
  }

  lemma SummaryErrorIsOff(s: A.State, e: Emitted, tree: Summary<Float>)
    requires e.Done?
    ensures var x := A.SummaryError(s, e.branch, e.counters, tree); x.Some? ==> SummaryIsOff(s, e, tree, x.value)
  {
    hide A.RatioValid;
  }

  lemma OffAsTold(p: seq<Emitted>, s: A.State, e: Emitted, tree: Summary<Float>, error: A.ContractError)
    requires Reflects(p, s) && e.Done? && SummaryIsOff(s, e, tree, error)
    ensures SummarySays(p, e, tree, error)
  {
    hide A.RatioValid, RatioFits, A.Ok, KnowsTokens, KnowsStarts, StartedIn, EndedIn, DoneIn, TokensIn, StartedIds, PrunedIn, MergedIn;
    if error.TokensPerBranchMismatch? {
      CountsAsTold(p, s, tree.tokensPerBranch);
    } else if error.InvalidReuseRatio? {
      IsCloseFits(tree.ratio, e.counters);
    }
  }

  lemma SummaryFault(p: seq<Emitted>, s: A.State, e: Emitted, tree: Summary<Float>)
    requires Reflects(p, s) && e.Done?
    ensures A.SummaryError(s, e.branch, e.counters, tree).Some? ==>
              SummarySays(p, e, tree, A.SummaryError(s, e.branch, e.counters, tree).value)
  {
    hide Reflects, A.SummaryError, SummarySays, SummaryIsOff;
    SummaryErrorIsOff(s, e, tree);
    var x := A.SummaryError(s, e.branch, e.counters, tree);
    if x.Some? { OffAsTold(p, s, e, tree, x.value); }
  }

  lemma TokenFault(p: seq<Emitted>, s: A.State, e: Emitted)
    requires Reflects(p, s) && !s.finished && e.Token?
    ensures A.Accept(s, e).Rejected? ==> ServerSays(p, e, A.Accept(s, e).error)
  {
    hide ParentsFirst, KnowsCounts, KnowsStarts, StartedIn, EndedIn, DoneIn, StartedIds, TokensIn, OwnText, Join;
    if e.branch in s.started { assert Told(p, s, e.branch); }
  }

  lemma DoneFault(p: seq<Emitted>, s: A.State, e: Emitted)
    requires Reflects(p, s) && !s.finished && e.Done?
    ensures A.Accept(s, e).Rejected? ==> ServerSays(p, e, A.Accept(s, e).error)
  {
    hide A.Ok, KnowsTokens, KnowsStarts, StartedIn, EndedIn, DoneIn, A.SummaryError, SummarySays, Walk, PathText, TextTo;
    OpenIsLive(p, s, e.branch);
    OkOf(p, s);
    if OpenIn(p, e.branch) {
      SomeoneOpen(p, s, e.branch);
      StartedFirst(p, e.branch);
      WalkTells(p, s, |p|, e.branch);
      if e.tree.Some? {
        SummaryFault(p, s, e, e.tree.value);
        SameSummaryError(s, e);
        SummaryKinds(s, e);
      }
      DoneError(s, e);
    }
  }

  lemma SomeoneOpen(p: seq<Emitted>, s: A.State, id: Id)
    requires Reflects(p, s) && OpenIn(p, id)
    ensures s.started != s.terminal + {id} ==> exists other :: OpenIn(p, other) && other != id
  {
    hide KnowsTokens, KnowsCounts, KnowsStarts;
    LastOpen(p, s, id);
  }

  /** The summary's errors are those that ServerSays leaves to it. */
  lemma SummaryKinds(s: A.State, e: Emitted)
    requires e.Done? && e.tree.Some?
    ensures var x := A.SummaryError(s, e.branch, e.counters, e.tree.value);
            x.Some? ==> x.value.InvalidReuseRatio? || x.value.BranchCountMismatch? || x.value.PrunedCountMismatch?
                        || x.value.MergedCountMismatch? || x.value.TokensPerBranchMismatch? || x.value.ScoreKeysMismatch?
                        || x.value.NonFiniteScore? || x.value.WinnerMismatch?
  {
  }

  lemma DoneError(s: A.State, e: Emitted)
    requires A.Ok(s) && e.Done? && e.branch in s.started && e.branch !in s.terminal
    ensures A.Complete(s, e).Rejected? ==>
              match A.Complete(s, e).error
              case BranchesWithoutTerminal => s.started != s.terminal + {e.branch}
              case CompletionTokensMismatch => e.usage.completionTokens != s.tokenCount
              case InvalidCounters => !CountersFit(e.usage, e.counters)
              case TextMismatch => PathText(Walk(s.order, s.parents, e.branch), s.tokens) != e.text
              case x => e.tree.Some? && A.SummaryError(s.(terminal := s.terminal + {e.branch}), e.branch, e.counters, e.tree.value) == Some(x)
  {
    hide ParentsFirst, Walk, PathText, A.SummaryError;
    if e.tree.Some? {
      SameSummaryError(s, e);
      SummaryKinds(s, e);
    }
  }

  /** The server's error names a fault of the stream. */
  lemma ServerErrorIsTrue(p: seq<Emitted>, s: A.State, e: Emitted)
    requires Reflects(p, s)
    ensures A.Ok(s) && (A.Accept(s, e).Rejected? ==> ServerSays(p, e, A.Accept(s, e).error))
  {
    hide A.Ok, KnowsTokens, KnowsCounts, KnowsStarts, A.Complete, A.AddToken, SummarySays, StartedIn, EndedIn;
    OkOf(p, s);
    if !s.finished {
      OpenIsLive(p, s, e.branch);
      if e.Token? { TokenFault(p, s, e); }
      if e.Done? { DoneFault(p, s, e); }
    }
  }

  // ---------------------------------------------------------------------------
  // The client
  // ---------------------------------------------------------------------------

  /** The event names the branch: as its own or as the one it is merged into. */
  ghost predicate Names(e: Emitted, id: Id) {
    !e.BranchStarted? && (e.branch == id || (e.Merged? && e.into == id))
  }

  ghost predicate ClientSays(p: seq<Emitted>, e: Emitted, error: B.TraceError) {
    match error
    case EventAfterDone => DoneIn(p)
    case DuplicateBranch(id) => e.BranchStarted? && e.branch == id && StartedIn(p, id)
    case UnknownParent(id) => e.BranchStarted? && e.branch == id && e.parent.Some? && !StartedIn(p, e.parent.value)
    case InvalidTokenIndex(expected, got) => e.Token? && e.index == got != expected == TokensIn(p, e.branch)
    case InvalidMergeTarget(id) => e.Merged? && e.into == e.branch == id
    case UnknownBranch(id) => Names(e, id) && !StartedIn(p, id)
    case BranchNotLive(id) => Names(e, id) && EndedIn(p, id)
    case WinnerTextMismatch => e.Done? && e.text != TextTo(p, |p|, e.branch)
    case _ => e.Done? && e.tree.Some? && TraceSays(p, e, e.tree.value, error)
  }

  ghost predicate TraceSays(p: seq<Emitted>, e: Emitted, tree: Summary<Float>, error: B.TraceError)
    requires e.Done?
  {
    match error
    case UsageTokenMismatch => e.usage.completionTokens != AllTokensIn(p)
    case UnterminatedBranches => exists other :: OpenIn(p, other) && other != e.branch
    case BranchCountMismatch => tree.branchCount != |StartedIds(p)|
    case PrunedCountMismatch => tree.prunedCount != PrunedIn(p)
    case MergedCountMismatch => tree.mergedCount != MergedIn(p)
    case BranchTokenCountMismatch =>
      tree.tokensPerBranch.Keys != StartedIds(p) || exists id :: id in tree.tokensPerBranch && tree.tokensPerBranch[id] != TokensIn(p, id)
    case FinalScoreBranchMismatch => tree.finalScores.Keys != StartedIds(p)
    case WinnerBranchMismatch => tree.winner != e.branch
    case InvalidKvReuseRatio => !RatioFits(tree.ratio, e.counters)
    case _ => false
  }

  /** What the client knows of a branch is what the events told. */
  lemma ClientKnows(p: seq<Emitted>, s: A.State, b: B.State, id: Id)
    requires Reflects(p, s) && Agree(s, b)
    ensures id in b.branches <==> StartedIn(p, id)
    ensures id in b.branches ==> (b.branches[id].status != B.Live <==> EndedIn(p, id))
    ensures id in b.branches ==> |b.branches[id].tokens| == |b.branches[id].tokenIndices| == TokensIn(p, id)
    ensures id in b.branches && OpenIn(p, id) ==> PathText(b.branches[id].path, B.Texts(b)) == TextTo(p, |p|, id)
  {
    AgreeFacts(s, b);
    OkOf(p, s);
    OpenIsLive(p, s, id);
    if id in b.branches {
      AgreeAt(s, b, id);
      hide Agree, ParentsFirst, Walk, StartedIn, EndedIn, TokensIn, OwnText, Join, PathText, TextTo;
      assert Told(p, s, id);
      StartedFirst(p, id);
      WalkTells(p, s, |p|, id);
      SameTotals(s, b);
    }
  }

  /** One of the trace errors in the assembler's terms. */
  ghost predicate TraceIsOff(b: B.State, e: Emitted, tree: Summary<Float>, error: B.TraceError)
    requires e.Done?
  {
    match error
    case UsageTokenMismatch => e.usage.completionTokens != b.tokenCount
    case UnterminatedBranches => B.KnownLive(b, e.branch).None? && B.OtherLive(b, e.branch)
    case BranchCountMismatch => tree.branchCount != |b.branches|
    case PrunedCountMismatch => tree.prunedCount != B.CountStatus(b.order, b.branches, B.WasPruned)
    case MergedCountMismatch => tree.mergedCount != B.CountStatus(b.order, b.branches, B.WasMerged)
    case BranchTokenCountMismatch => tree.tokensPerBranch != map id | id in b.branches :: |b.branches[id].tokens|
    case FinalScoreBranchMismatch => tree.finalScores.Keys != b.branches.Keys
    case WinnerBranchMismatch => tree.winner != e.branch
    case InvalidKvReuseRatio => e.counters.physical <= 0 || !B.RatioMatches(tree.ratio, e.counters)
    case x => B.KnownLive(b, e.branch) == Some(x)
  }

  lemma TraceErrorIsOff(b: B.State, e: Emitted)
    requires e.Done? && e.tree.Some?
    ensures var x := B.SummaryError(b, OnWire(e), SummaryOnWire(e.tree.value));
            x.Some? ==> TraceIsOff(b, e, e.tree.value, x.value)
  {
    hide B.CountStatus, B.OtherLive, B.RatioMatches;
  }

  lemma LiveFault(p: seq<Emitted>, s: A.State, b: B.State, id: Id)
    requires Reflects(p, s) && Agree(s, b)
    ensures match B.KnownLive(b, id)
            case None => OpenIn(p, id)
            case Some(UnknownBranch(x)) => x == id && !StartedIn(p, id)
            case Some(BranchNotLive(x)) => x == id && EndedIn(p, id)
            case Some(_) => false
  {
    hide Reflects, Agree, StartedIn, EndedIn, PathText, TextTo, TokensIn;
    ClientKnows(p, s, b, id);
  }

  lemma TraceFault(p: seq<Emitted>, s: A.State, b: B.State, e: Emitted, error: B.TraceError)
    requires Reflects(p, s) && Agree(s, b) && e.Done? && e.tree.Some? && Readable(e) && B.Parses(OnWire(e))
    requires TraceIsOff(b, e, e.tree.value, error)
    ensures ClientSays(p, e, error)
  {
    hide Agree, KnowsTokens, KnowsStarts, A.Ok, B.Parses, Readable, B.KnownLive, B.OtherLive, B.CountStatus, B.RatioMatches;
    hide StartedIn, EndedIn, DoneIn, TokensIn, StartedIds, PrunedIn, MergedIn, RatioFits, A.RatioValid, TextTo;
    AgreeFacts(s, b);
    LiveFault(p, s, b, e.branch);
    if error.BranchTokenCountMismatch? {
      SameTotals(s, b);
      CountsAsTold(p, s, e.tree.value.tokensPerBranch);
    } else if error.BranchCountMismatch? {
      SameTotals(s, b);
    } else if error.UnterminatedBranches? {
      OthersEnded(s, b, e.branch);
      OpenIsLive(p, s, e.branch);
      SomeoneOpen(p, s, e.branch);
    } else if error.InvalidKvReuseRatio? {
      ParsedDone(e);
      IsCloseFits(e.tree.value.ratio, e.counters);
    }
  }

  lemma EventFault(p: seq<Emitted>, s: A.State, b: B.State, e: Emitted)
    requires Reflects(p, s) && Agree(s, b) && !e.Done? && B.Ok(b) && B.Parses(OnWire(e))
    ensures B.Add(b, OnWire(e)).Rejected? ==> ClientSays(p, e, B.Add(b, OnWire(e)).error)
  {
    hide Reflects, Agree, B.Ok, B.Parses, B.KnownLive, StartedIn, EndedIn, TokensIn, PathText, TextTo, TraceSays;
    DoneAlike(p, s, b);
    ClientKnows(p, s, b, e.branch);
    LiveFault(p, s, b, e.branch);
    match e
    case BranchStarted(_, parent) => if parent.Some? { ClientKnows(p, s, b, parent.value); }
    case Token(_, _, _, _, _) => KnownLiveIsKnown(b, e.branch);
    case Merged(_, into) => LiveFault(p, s, b, into);
    case _ =>
  }

  lemma KnownLiveIsKnown(b: B.State, id: Id)
    ensures B.KnownLive(b, id).None? ==> id in b.branches
  {
  }

  lemma DoneAlike(p: seq<Emitted>, s: A.State, b: B.State)
    requires Reflects(p, s) && Agree(s, b)
    ensures b.done <==> DoneIn(p)
  {
  }

  lemma DoneEventFault(p: seq<Emitted>, s: A.State, b: B.State, e: Emitted)
    requires Reflects(p, s) && Agree(s, b) && B.Ok(b) && !b.done
    requires e.Done? && e.tree.Some? && Readable(e) && B.Parses(OnWire(e))
    ensures B.Add(b, OnWire(e)).Rejected? ==> ClientSays(p, e, B.Add(b, OnWire(e)).error)
  {
    hide Reflects, Agree, B.Ok, B.Parses, Readable, B.SummaryError, TraceIsOff, PathText, TextTo, TraceSays, StartedIn, EndedIn, TokensIn;
    var x := B.SummaryError(b, OnWire(e), SummaryOnWire(e.tree.value));
    if x.Some? {
      TraceErrorIsOff(b, e);
      TraceFault(p, s, b, e, x.value);
    } else {
      SummaryLive(b, e);
      LiveFault(p, s, b, e.branch);
      ClientKnows(p, s, b, e.branch);
    }
  }

  lemma SummaryLive(b: B.State, e: Emitted)
    requires e.Done? && e.tree.Some? && B.SummaryError(b, OnWire(e), SummaryOnWire(e.tree.value)).None?
    ensures B.KnownLive(b, e.branch).None? && e.branch in b.branches
  {
  }

  /** The client's error on an event that it can read names a fault of the stream. */
  lemma ClientErrorIsTrue(p: seq<Emitted>, s: A.State, b: B.State, e: Emitted)
    requires Reflects(p, s) && Agree(s, b) && Readable(e) && B.Parses(OnWire(e))
    ensures B.Ok(b) && (B.Add(b, OnWire(e)).Rejected? ==> ClientSays(p, e, B.Add(b, OnWire(e)).error))
  {
    hide Reflects, Agree, B.Ok, B.Parses, B.KnownLive, B.SummaryError, PathText, TextTo, TraceSays, StartedIn, EndedIn, TokensIn;
    AgreeFacts(s, b);
    DoneAlike(p, s, b);
    if !e.Done? {
      EventFault(p, s, b, e);
    } else if !b.done {
      DoneEventFault(p, s, b, e);
    }
  }

  // ---------------------------------------------------------------------------
  // Whole streams
  // ---------------------------------------------------------------------------

  /** Feeding events to the server until it rejects one. */
  function ServerFeed(s: A.State, events: seq<Emitted>): A.Result
    requires A.Ok(s)
    decreases |events|
  {
    if events == [] then Accepted(s)
    else
      match A.Accept(s, events[0])
      case Rejected(error) => Rejected(error)
      case Accepted(next) =>
        A.AcceptKeepsOk(s, events[0]);
        ServerFeed(next, events[1..])
  }

  /** The error None stands for an event that the client cannot parse. */
  function ClientFeed(b: B.State, events: seq<Received>): Outcome<B.State, Option<B.TraceError>>
    requires B.Ok(b)
    decreases |events|
  {
    if events == [] then Accepted(b)
    else if !B.Parses(events[0]) then Rejected(None)
    else
      match B.Add(b, events[0])
      case Rejected(error) => Rejected(Some(error))
      case Accepted(next) =>
        B.AddKeepsOk(b, events[0]);
        ClientFeed(next, events[1..])
  }

  /** The first n events fit, the next one does not. */
  ghost predicate FirstFault(p: seq<Emitted>, rest: seq<Emitted>, n: nat) {
    && n < |rest|
    && (forall k :: 0 <= k < n ==> Fits(p + rest[..k], rest[k]))
    && !Fits(p + rest[..n], rest[n])
  }

  lemma LaterFault(p: seq<Emitted>, rest: seq<Emitted>, n: nat)
    requires rest != [] && Fits(p, rest[0]) && FirstFault(p + [rest[0]], rest[1..], n)
    ensures FirstFault(p, rest, n + 1)
    ensures p + [rest[0]] + rest[1..][..n] == p + rest[..n + 1] && rest[1..][n] == rest[n + 1]
  {
    hide Fits;
    var q := p + [rest[0]];
    forall k | 0 <= k <= n
      ensures q + rest[1..][..k] == p + rest[..k + 1] && rest[1..][k] == rest[k + 1]
    {
    }
    assert p + rest[..0] == p;
    forall k | 0 <= k < n + 1
      ensures Fits(p + rest[..k], rest[k])
    {
      if k > 0 { assert Fits(q + rest[1..][..k - 1], rest[1..][k - 1]); }
    }
  }

  lemma {:induction false} ServerFaultFrom(p: seq<Emitted>, s: A.State, rest: seq<Emitted>) returns (n: nat)
    requires Reflects(p, s) && A.Ok(s) && ServerFeed(s, rest).Rejected?
    ensures FirstFault(p, rest, n) && ServerSays(p + rest[..n], rest[n], ServerFeed(s, rest).error)
    decreases |rest|
  {
    hide Reflects, Fits, A.Ok, A.Accept, ServerSays;
    EventTold(p, s, rest[0]);
    if A.Accept(s, rest[0]).Rejected? {
      n := 0;
      assert p + rest[..0] == p;
      ServerErrorIsTrue(p, s, rest[0]);
    } else {
      A.AcceptKeepsOk(s, rest[0]);
      n := ServerFaultFrom(p + [rest[0]], A.Accept(s, rest[0]).state, rest[1..]);
      LaterFault(p, rest, n);
      n := n + 1;
    }
  }

  /** A stream that the server rejects has a first event that does not fit, and the error names a fault of that event. */
  lemma ServerRejectsTheFault(events: seq<Emitted>) returns (n: nat)
    requires ServerFeed(A.Fresh(), events).Rejected?
    ensures n < |events| && (forall k :: 0 <= k < n ==> Fits(events[..k], events[k])) && !Fits(events[..n], events[n])
    ensures ServerSays(events[..n], events[n], ServerFeed(A.Fresh(), events).error)
  {
    hide Fits, ServerSays;
    FreshReflects();
    n := ServerFaultFrom([], A.Fresh(), events);
    forall k | 0 <= k <= n ensures [] + events[..k] == events[..k] {}
  }

  lemma {:induction false} ClientFaultFrom(p: seq<Emitted>, s: A.State, b: B.State, rest: seq<Emitted>) returns (n: nat)
    requires Reflects(p, s) && Agree(s, b) && B.Ok(b) && (forall k :: 0 <= k < |rest| ==> Readable(rest[k]))
    requires ClientFeed(b, StreamOnWire(rest)).Rejected?
    ensures FirstFault(p, rest, n)
    ensures ClientFeed(b, StreamOnWire(rest)).error.Some? ==>
              ClientSays(p + rest[..n], rest[n], ClientFeed(b, StreamOnWire(rest)).error.value)
    decreases |rest|
  {
    hide Reflects, Agree, Fits, A.Ok, B.Ok, A.Accept, B.Add, B.Parses, Readable, OnWire, ClientSays;
    assert StreamOnWire(rest)[0] == OnWire(rest[0]) && StreamOnWire(rest)[1..] == StreamOnWire(rest[1..]);
    EventTold(p, s, rest[0]);
    EventAgrees(s, b, rest[0]);
    if A.Accept(s, rest[0]).Rejected? {
      n := 0;
      assert p + rest[..0] == p;
      if B.Parses(OnWire(rest[0])) { ClientErrorIsTrue(p, s, b, rest[0]); }
    } else {
      A.AcceptKeepsOk(s, rest[0]);
      B.AddKeepsOk(b, OnWire(rest[0]));
      n := ClientFaultFrom(p + [rest[0]], A.Accept(s, rest[0]).state, B.Add(b, OnWire(rest[0])).state, rest[1..]);
      LaterFault(p, rest, n);
      n := n + 1;
    }
  }

  /** So does a stream of readable events that the client rejects, unless it cannot parse that event. */
  lemma ClientRejectsTheFault(events: seq<Emitted>) returns (n: nat)
    requires forall k :: 0 <= k < |events| ==> Readable(events[k])
    requires ClientFeed(B.Fresh(), StreamOnWire(events)).Rejected?
    ensures n < |events| && (forall k :: 0 <= k < n ==> Fits(events[..k], events[k])) && !Fits(events[..n], events[n])
    ensures var error := ClientFeed(B.Fresh(), StreamOnWire(events)).error;
            error.Some? ==> ClientSays(events[..n], events[n], error.value)
  {
    hide Fits, ClientSays, Readable;
    FreshReflects();
    FreshAgree();
    n := ClientFaultFrom([], A.Fresh(), B.Fresh(), events);
    forall k | 0 <= k <= n ensures [] + events[..k] == events[..k] {}
  }
}
