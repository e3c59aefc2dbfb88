/** The client's check of the event stream it receives (sdk/autotree_sdk/models.py for the fields,
    sdk/autotree_sdk/trace.py, TraceAssembler, for the stream). */
module Assembler {
  import opened Common
  import opened Events

  datatype Status = Live | Completed | WasPruned | WasMerged

  datatype RolloutBranch = RolloutBranch(
    parent: Option<Id>,
    path: seq<Id>,
    tokens: seq<string>,
    tokenIndices: seq<int>,
    status: Status)

  datatype TraceError =
    | EventAfterDone
    | DuplicateBranch(branch: Id)
    | UnknownParent(branch: Id)
    | InvalidTokenIndex(expected: int, got: int)
    | InvalidMergeTarget(branch: Id)
    | UnknownBranch(branch: Id)
    | BranchNotLive(branch: Id)
    | UsageTokenMismatch
    | BranchCountMismatch
    | UnterminatedBranches
    | PrunedCountMismatch
    | MergedCountMismatch
    | BranchTokenCountMismatch
    | FinalScoreBranchMismatch
    | WinnerBranchMismatch
    | InvalidKvReuseRatio
    | WinnerTextMismatch

  datatype State = State(order: seq<Id>, branches: map<Id, RolloutBranch>, tokenCount: int, done: bool)

  type Result = Outcome<State, TraceError>

  function Fresh(): State {
    State([], map[], 0, false)
  }

  // ---------------------------------------------------------------------------
  // Parsing: what the event models insist on
  // ---------------------------------------------------------------------------

  predicate AtLeast(x: Float, low: real) {
    x.Finite? && x.value >= low
  }

  /** The policies the client knows of. */
  predicate KnownPolicy(policy: string) {
    policy == "beam" || policy == "best_first" || policy == "mcts"
  }

  /** Unknown policies and fields the client has no name for are refused. */
  predicate SummaryParses(t: Summary<Option<Float>>) {
    && KnownPolicy(t.policy) && t.valueEstimates.None? && t.prunedAtTokens.None?
    && t.branchCount >= 1 && t.prunedCount >= 0 && t.mergedCount >= 0
    && (forall id :: id in t.tokensPerBranch ==> t.tokensPerBranch[id] >= 0)
    && (forall id :: id in t.finalScores ==> t.finalScores[id].Finite?)
    && (t.ratio.Some? ==> AtLeast(t.ratio.value, 1.0))
    && t.finalScores.Keys == t.tokensPerBranch.Keys
    && |t.tokensPerBranch| == t.branchCount
    && t.winner in t.tokensPerBranch
  }

  predicate Parses(e: Received) {
    match e
    case BranchStarted(_, _) => true
    case Token(_, index, _, tokenId, logprob) => index >= 0 && (tokenId.Some? ==> tokenId.value >= 0) && logprob.Finite?
    case Pruned(_, reason) => reason != ""
    case Merged(_, _) => true
    case Done(_, _, usage, c, tree) =>
      && usage.promptTokens >= 0 && usage.completionTokens >= 0
      && c.logical >= 0 && c.physical >= 0 && c.useful >= 0
      && AtLeast(c.elapsed, 0.0) && c.elapsed.value > 0.0 && AtLeast(c.ttft, 0.0)
      && tree.Some? && SummaryParses(tree.value)
  }

  // ---------------------------------------------------------------------------
  // Assembling
  // ---------------------------------------------------------------------------

  ghost predicate Ok(s: State) {
    && Lists(s.order, s.branches)
    && forall id :: id in s.branches ==> forall k :: 0 <= k < |s.branches[id].path| ==> s.branches[id].path[k] in s.branches
  }

  function Texts(s: State): map<Id, seq<string>> {
    map id | id in s.branches :: s.branches[id].tokens
  }

  function KnownLive(s: State, id: Id): Option<TraceError> {
    if id !in s.branches then Some(UnknownBranch(id))
    else if s.branches[id].status != Live then Some(BranchNotLive(id))
    else None
  }

  function WithStatus(s: State, id: Id, status: Status): State
    requires id in s.branches
  {
    s.(branches := s.branches[id := s.branches[id].(status := status)])
  }

  function Start(s: State, id: Id, parent: Option<Id>): Result {
    if id in s.branches then Rejected(DuplicateBranch(id))
    else if parent.Some? && parent.value !in s.branches then Rejected(UnknownParent(id))
    else
      var path := if parent.None? then [id] else s.branches[parent.value].path + [id];
      Accepted(s.(order := s.order + [id], branches := s.branches[id := RolloutBranch(parent, path, [], [], Live)]))
  }

  function AddToken(s: State, id: Id, index: int, token: string): Result {
    if KnownLive(s, id).Some? then Rejected(KnownLive(s, id).value)
    else
      var b := s.branches[id];
      if index != |b.tokenIndices| then Rejected(InvalidTokenIndex(|b.tokenIndices|, index))
      else Accepted(s.(branches := s.branches[id := b.(tokens := b.tokens + [token], tokenIndices := b.tokenIndices + [index])],
                       tokenCount := s.tokenCount + 1))
  }

  function Merge(s: State, id: Id, into: Id): Result {
    if KnownLive(s, id).Some? then Rejected(KnownLive(s, id).value)
    else if into == id then Rejected(InvalidMergeTarget(id))
    else if KnownLive(s, into).Some? then Rejected(KnownLive(s, into).value)
    else Accepted(WithStatus(s, id, WasMerged))
  }

  function Prune(s: State, id: Id): Result {
    if KnownLive(s, id).Some? then Rejected(KnownLive(s, id).value)
    else Accepted(WithStatus(s, id, WasPruned))
  }

  /** How many of the listed branches have the status. */
  function CountStatus(order: seq<Id>, branches: map<Id, RolloutBranch>, status: Status): nat {
    if order == [] then 0
    else
      CountStatus(order[..|order| - 1], branches, status)
      + if order[|order| - 1] in branches && branches[order[|order| - 1]].status == status then 1 else 0
  }

  predicate OtherLive(s: State, winner: Id) {
    exists id :: id in s.branches && s.branches[id].status == Live && id != winner
  }

  function SummaryError(s: State, e: Received, tree: Summary<Option<Float>>): Option<TraceError>
    requires e.Done?
  {
    if e.usage.completionTokens != s.tokenCount then Some(UsageTokenMismatch)
    else if tree.branchCount != |s.branches| then Some(BranchCountMismatch)
    else if KnownLive(s, e.branch).Some? then KnownLive(s, e.branch)
    else if OtherLive(s, e.branch) then Some(UnterminatedBranches)
    else if tree.prunedCount != CountStatus(s.order, s.branches, WasPruned) then Some(PrunedCountMismatch)
    else if tree.mergedCount != CountStatus(s.order, s.branches, WasMerged) then Some(MergedCountMismatch)
    else if tree.tokensPerBranch != map id | id in s.branches :: |s.branches[id].tokens| then Some(BranchTokenCountMismatch)
    else if tree.finalScores.Keys != s.branches.Keys then Some(FinalScoreBranchMismatch)
    else if tree.winner != e.branch then Some(WinnerBranchMismatch)
    else if e.counters.physical <= 0 then Some(InvalidKvReuseRatio)
    else if tree.ratio.Some? && !RatioMatches(tree.ratio.value, e.counters) then Some(InvalidKvReuseRatio)
    else None
  }

  predicate RatioMatches(ratio: Float, c: Counters)
    requires c.physical > 0
  {
    ratio.Finite? && IsClose(ratio.value, c.logical as real / c.physical as real)
  }

  /** An event without a tree summary never reaches the assembler: it does not parse. */
  function Complete(s: State, e: Received): Result
    requires Ok(s) && e.Done? && e.tree.Some?
  {
    if SummaryError(s, e, e.tree.value).Some? then Rejected(SummaryError(s, e, e.tree.value).value)
    else if e.text != PathText(s.branches[e.branch].path, Texts(s)) then Rejected(WinnerTextMismatch)
    else Accepted(WithStatus(s, e.branch, Completed).(done := true))
  }

  function Add(s: State, e: Received): Result
    requires Ok(s) && Parses(e)
  {
    if s.done then Rejected(EventAfterDone)
    else
      match e
      case BranchStarted(id, parent) => Start(s, id, parent)
      case Token(id, index, token, _, _) => AddToken(s, id, index, token)
      case Pruned(id, _) => Prune(s, id)
      case Merged(id, into) => Merge(s, id, into)
      case Done(_, _, _, _, _) => Complete(s, e)
  }

  lemma AddKeepsOk(s: State, e: Received)
    requires Ok(s) && Parses(e) && Add(s, e).Accepted?
    ensures Ok(Add(s, e).state)
  {
    if e.BranchStarted? { PutLast(s.order, e.branch); }
  }

  /** All events of a stream parse and are accepted, and finish() finds a done event. */
  predicate AcceptsStream(s: State, events: seq<Received>)
    requires Ok(s)
    decreases |events|
  {
    if events == [] then s.done
    else
      && Parses(events[0])
      && Add(s, events[0]).Accepted?
      && (AddKeepsOk(s, events[0]); AcceptsStream(Add(s, events[0]).state, events[1..]))
  }

  class TraceAssembler {
    var order: seq<Id>
    var branches: map<Id, RolloutBranch>
    var tokenCount: int
    var done: bool

    function Model(): State
      reads this
    {
      State(order, branches, tokenCount, done)
    }

    ghost predicate Valid()
      reads this
    {
      Ok(Model())
    }

    constructor ()
      ensures Valid() && Model() == Fresh()
    {
      order, branches, tokenCount, done := [], map[], 0, false;
    }

    /** None is acceptance; a rejected event changes nothing. */
    method AddEvent(e: Received) returns (error: Option<TraceError>)
      requires Valid() && Parses(e)
      modifies this
      ensures match Add(old(Model()), e)
              case Accepted(s) => error == None && Model() == s
              case Rejected(x) => error == Some(x) && Model() == old(Model())
      ensures Valid()
    {
      hide Ok, Complete, AddToken, Parses;
      if Add(Model(), e).Accepted? { AddKeepsOk(Model(), e); }
      if done { return Some(EventAfterDone); }
      match e {
        case BranchStarted(id, parent) =>
          if id in branches { return Some(DuplicateBranch(id)); }
          var path := [id];
          if parent.Some? {
            if parent.value !in branches { return Some(UnknownParent(id)); }
            path := branches[parent.value].path + [id];
          }
          order := order + [id];
          branches := branches[id := RolloutBranch(parent, path, [], [], Live)];
          error := None;
        case Token(id, index, token, _, _) =>
          error := RecordToken(id, index, token);
        case Pruned(id, _) =>
          error := KnownLive(Model(), id);
          if error.Some? { return; }
          branches := branches[id := branches[id].(status := WasPruned)];
        case Merged(id, into) =>
          error := KnownLive(Model(), id);
          if error.Some? { return; }
          if into == id { return Some(InvalidMergeTarget(id)); }
          error := KnownLive(Model(), into);
          if error.Some? { return; }
          branches := branches[id := branches[id].(status := WasMerged)];
        case Done(_, _, _, _, _) =>
          DoneHasSummary(e);
          error := CompleteTrace(e);
      }
    }

    method RecordToken(id: Id, index: int, token: string) returns (error: Option<TraceError>)
      modifies this
      ensures match AddToken(old(Model()), id, index, token)
              case Accepted(s) => error == None && Model() == s
              case Rejected(x) => error == Some(x) && Model() == old(Model())
    {
      error := KnownLive(Model(), id);
      if error.Some? { return; }
      var branch := branches[id];
      var expected := |branch.tokenIndices|;
      if index != expected { return Some(InvalidTokenIndex(expected, index)); }
      branches := branches[id := branch.(tokenIndices := branch.tokenIndices + [index], tokens := branch.tokens + [token])];
      tokenCount := tokenCount + 1;
    }

    method CompleteTrace(e: Received) returns (error: Option<TraceError>)
      requires Valid() && e.Done? && e.tree.Some?
      modifies this
      ensures match Complete(old(Model()), e)
              case Accepted(s) => error == None && Model() == s
              case Rejected(x) => error == Some(x) && Model() == old(Model())
    {
      hide Lists, PathText, CountStatus, OtherLive, RatioMatches;
      error := SummaryError(Model(), e, e.tree.value);
      if error.Some? { return; }
      var winner := branches[e.branch];
      if e.text != PathText(winner.path, Texts(Model())) { return Some(WinnerTextMismatch); }
      branches := branches[e.branch := winner.(status := Completed)];
      done := true;
    }
  }

  lemma DoneHasSummary(e: Received)
    requires e.Done? && Parses(e)
    ensures e.tree.Some?
  {
  }
}
