/** The server's check of its engine's event stream (serve/autotree_serve/app.py, EventAccumulator). */
module Accumulator {
  import opened Common
  import opened Events

  datatype ContractError =
    | EventAfterDone
    | StartedMoreThanOnce(branch: Id)
    | UnknownParent(branch: Id)
    | TokenForUnknownBranch(branch: Id)
    | TokenAfterTermination(branch: Id)
    | WrongTokenIndex(expected: int, got: int)
    | NonFiniteLogprob
    | EmptyPruneReason
    | MergeIntoItself
    | UnknownMergeTarget
    | TerminatedMergeTarget
    | TerminalForUnknownBranch(branch: Id)
    | TerminatedMoreThanOnce(branch: Id)
    | BranchesWithoutTerminal
    | CompletionTokensMismatch
    | InvalidCounters
    | InvalidReuseRatio
    | BranchCountMismatch
    | PrunedCountMismatch
    | MergedCountMismatch
    | TokensPerBranchMismatch
    | ScoreKeysMismatch
    | NonFiniteScore
    | WinnerMismatch
    | TextMismatch

  /** The accumulator's fields; `order` is the insertion order of its dictionaries. */
  datatype State = State(
    order: seq<Id>,
    started: set<Id>,
    terminal: set<Id>,
    parents: map<Id, Option<Id>>,
    tokens: map<Id, seq<string>>,
    nextTokenIndex: map<Id, int>,
    tokenCount: int,
    prunedCount: int,
    mergedCount: int,
    finished: bool)

  type Result = Outcome<State, ContractError>

  function Fresh(): State {
    State([], {}, {}, map[], map[], map[], 0, 0, 0, false)
  }

  ghost predicate Ok(s: State) {
    && ParentsFirst(s.order, s.parents)
    && s.parents.Keys == s.tokens.Keys == s.nextTokenIndex.Keys == s.started
    && s.terminal <= s.started
  }

  function Start(s: State, id: Id, parent: Option<Id>): Result {
    if id in s.started then Rejected(StartedMoreThanOnce(id))
    else if parent.Some? && parent.value !in s.started then Rejected(UnknownParent(id))
    else Accepted(s.(order := s.order + [id], started := s.started + {id}, parents := s.parents[id := parent],
                     tokens := s.tokens[id := []], nextTokenIndex := s.nextTokenIndex[id := 0]))
  }

  function AddToken(s: State, id: Id, index: int, token: string, logprob: Float): Result
    requires Ok(s)
  {
    if id !in s.started then Rejected(TokenForUnknownBranch(id))
    else if id in s.terminal then Rejected(TokenAfterTermination(id))
    else if index != s.nextTokenIndex[id] then Rejected(WrongTokenIndex(s.nextTokenIndex[id], index))
    else if logprob.NonFinite? then Rejected(NonFiniteLogprob)
    else Accepted(s.(tokens := s.tokens[id := s.tokens[id] + [token]],
                     nextTokenIndex := s.nextTokenIndex[id := s.nextTokenIndex[id] + 1],
                     tokenCount := s.tokenCount + 1))
  }

  function Terminate(s: State, id: Id): Result {
    if id !in s.started then Rejected(TerminalForUnknownBranch(id))
    else if id in s.terminal then Rejected(TerminatedMoreThanOnce(id))
    else Accepted(s.(terminal := s.terminal + {id}))
  }

  function Merge(s: State, id: Id, into: Id): Result {
    if into == id then Rejected(MergeIntoItself)
    else if into !in s.started then Rejected(UnknownMergeTarget)
    else if into in s.terminal then Rejected(TerminatedMergeTarget)
    else
      match Terminate(s, id)
      case Rejected(error) => Rejected(error)
      case Accepted(t) => Accepted(t.(mergedCount := t.mergedCount + 1))
  }

  function Prune(s: State, id: Id, reason: string): Result {
    if reason == "" then Rejected(EmptyPruneReason)
    else
      match Terminate(s, id)
      case Rejected(error) => Rejected(error)
      case Accepted(t) => Accepted(t.(prunedCount := t.prunedCount + 1))
  }

  predicate CountersValid(usage: Usage, c: Counters) {
    && usage.promptTokens >= 0
    && c.logical >= 0 && c.physical >= 0 && c.useful >= 0
    && c.elapsed.Finite? && c.elapsed.value > 0.0
    && c.ttft.Finite? && c.ttft.value >= 0.0
  }

  /** The ratio of logical to physical tokens; an empty physical side counts as infinite, which no finite
      ratio is close to. */
  predicate RatioValid(ratio: Float, c: Counters) {
    && ratio.Finite?
    && ratio.value >= 1.0
    && c.physical > 0
    && IsClose(ratio.value, c.logical as real / c.physical as real)
  }

  function SummaryError(s: State, winner: Id, c: Counters, tree: Summary<Float>): Option<ContractError> {
    if !RatioValid(tree.ratio, c) then Some(InvalidReuseRatio)
    else if tree.branchCount != |s.started| then Some(BranchCountMismatch)
    else if tree.prunedCount != s.prunedCount then Some(PrunedCountMismatch)
    else if tree.mergedCount != s.mergedCount then Some(MergedCountMismatch)
    else if tree.tokensPerBranch != map id | id in s.tokens :: |s.tokens[id]| then Some(TokensPerBranchMismatch)
    else if tree.finalScores.Keys != s.started then Some(ScoreKeysMismatch)
    else if exists id :: id in tree.finalScores && tree.finalScores[id].NonFinite? then Some(NonFiniteScore)
    else if tree.winner != winner then Some(WinnerMismatch)
    else None
  }

  function Complete(s: State, e: Emitted): Result
    requires Ok(s) && e.Done?
  {
    match Terminate(s, e.branch)
    case Rejected(error) => Rejected(error)
    case Accepted(t) =>
      if t.started != t.terminal then Rejected(BranchesWithoutTerminal)
      else if e.usage.completionTokens != t.tokenCount then Rejected(CompletionTokensMismatch)
      else if !CountersValid(e.usage, e.counters) then Rejected(InvalidCounters)
      else if e.tree.Some? && SummaryError(t, e.branch, e.counters, e.tree.value).Some? then
        Rejected(SummaryError(t, e.branch, e.counters, e.tree.value).value)
      else if PathText(Walk(t.order, t.parents, e.branch), t.tokens) != e.text then Rejected(TextMismatch)
      else Accepted(t.(finished := true))
  }

  function Accept(s: State, e: Emitted): Result
    requires Ok(s)
  {
    if s.finished then Rejected(EventAfterDone)
    else
      match e
      case BranchStarted(id, parent) => Start(s, id, parent)
      case Token(id, index, token, _, logprob) => AddToken(s, id, index, token, logprob)
      case Merged(id, into) => Merge(s, id, into)
      case Pruned(id, reason) => Prune(s, id, reason)
      case Done(_, _, _, _, _) => Complete(s, e)
  }

  lemma AcceptKeepsOk(s: State, e: Emitted)
    requires Ok(s) && Accept(s, e).Accepted?
    ensures Ok(Accept(s, e).state)
  {
    hide ParentsFirst;
    if e.BranchStarted? {
      StartKeepsParentsFirst(s.order, s.parents, e.branch, e.parent);
    }
  }

  /** All events of a stream are accepted, and the last one completes it. */
  predicate AcceptsStream(s: State, events: seq<Emitted>)
    requires Ok(s)
    decreases |events|
  {
    if events == [] then s.finished
    else
      && Accept(s, events[0]).Accepted?
      && (AcceptKeepsOk(s, events[0]); AcceptsStream(Accept(s, events[0]).state, events[1..]))
  }

  class EventAccumulator {
    ghost var order: seq<Id>
    var started: set<Id>
    var terminal: set<Id>
    var parents: map<Id, Option<Id>>
    var tokens: map<Id, seq<string>>
    var nextTokenIndex: map<Id, int>
    var tokenCount: int
    var prunedCount: int
    var mergedCount: int
    var finished: bool

    ghost function Model(): State
      reads this
    {
      State(order, started, terminal, parents, tokens, nextTokenIndex, tokenCount, prunedCount, mergedCount, finished)
    }

    ghost predicate Valid()
      reads this
    {
      Ok(Model())
    }

    constructor ()
      ensures Valid() && Model() == Fresh()
    {
      order := [];
      started, terminal := {}, {};
      parents, tokens, nextTokenIndex := map[], map[], map[];
      tokenCount, prunedCount, mergedCount := 0, 0, 0;
      finished := false;
    }

    /** None is acceptance. A rejected event changes nothing, but that a done event may have ended its branch. */
    method AcceptEvent(e: Emitted) returns (error: Option<ContractError>)
      requires Valid()
      modifies this
      ensures match Accept(old(Model()), e)
              case Accepted(s) => error == None && Model() == s && Valid()
              case Rejected(x) =>
                && error == Some(x)
                && (Model() == old(Model()) || (e.Done? && Model() == old(Model()).(terminal := old(terminal) + {e.branch})))
    {
      hide Ok, Complete, AddToken;
      if Accept(Model(), e).Accepted? { AcceptKeepsOk(Model(), e); }
      if finished { return Some(EventAfterDone); }
      match e {
        case BranchStarted(id, parent) =>
          if id in started { return Some(StartedMoreThanOnce(id)); }
          if parent.Some? && parent.value !in started { return Some(UnknownParent(id)); }
          order := order + [id];
          started := started + {id};
          parents := parents[id := parent];
          tokens := tokens[id := []];
          nextTokenIndex := nextTokenIndex[id := 0];
          error := None;
        case Token(id, index, token, _, logprob) =>
          error := AcceptToken(id, index, token, logprob);
        case Merged(id, into) =>
          if into == id { return Some(MergeIntoItself); }
          if into !in started { return Some(UnknownMergeTarget); }
          if into in terminal { return Some(TerminatedMergeTarget); }
          error := TerminateBranch(id);
          if error.Some? { return; }
          mergedCount := mergedCount + 1;
        case Pruned(id, reason) =>
          if reason == "" { return Some(EmptyPruneReason); }
          error := TerminateBranch(id);
          if error.Some? { return; }
          prunedCount := prunedCount + 1;
        case Done(_, _, _, _, _) =>
          error := AcceptDone(e);
      }
    }

    method AcceptToken(id: Id, index: int, token: string, logprob: Float) returns (error: Option<ContractError>)
      requires Valid()
      modifies this
      ensures match AddToken(old(Model()), id, index, token, logprob)
              case Accepted(s) => error == None && Model() == s
              case Rejected(x) => error == Some(x) && Model() == old(Model())
    {
      hide ParentsFirst;
      if id !in started { return Some(TokenForUnknownBranch(id)); }
      if id in terminal { return Some(TokenAfterTermination(id)); }
      var expected := nextTokenIndex[id];
      if index != expected { return Some(WrongTokenIndex(expected, index)); }
      if logprob.NonFinite? { return Some(NonFiniteLogprob); }
      tokens := tokens[id := tokens[id] + [token]];
      nextTokenIndex := nextTokenIndex[id := nextTokenIndex[id] + 1];
      tokenCount := tokenCount + 1;
      error := None;
    }

    method TerminateBranch(id: Id) returns (error: Option<ContractError>)
      modifies this`terminal
      ensures match Terminate(old(Model()), id)
              case Accepted(s) => error == None && Model() == s
              case Rejected(x) => error == Some(x) && Model() == old(Model())
    {
      if id !in started { return Some(TerminalForUnknownBranch(id)); }
      if id in terminal { return Some(TerminatedMoreThanOnce(id)); }
      terminal := terminal + {id};
      error := None;
    }

    method AcceptDone(e: Emitted) returns (error: Option<ContractError>)
      requires Valid() && e.Done?
      modifies this
      ensures match Complete(old(Model()), e)
              case Accepted(s) => error == None && Model() == s
              case Rejected(x) =>
                && error == Some(x)
                && (Model() == old(Model()) || Model() == old(Model()).(terminal := old(terminal) + {e.branch}))
    {
      hide ParentsFirst, PathText, SummaryError, CountersValid;
      error := TerminateBranch(e.branch);
      if error.Some? { return; }
      if started != terminal { return Some(BranchesWithoutTerminal); }
      if e.usage.completionTokens != tokenCount { return Some(CompletionTokensMismatch); }
      if !CountersValid(e.usage, e.counters) { return Some(InvalidCounters); }
      if e.tree.Some? {
        var wrong := CheckSummary(e.branch, e.counters, e.tree.value);
        if wrong.Some? { return wrong; }
      }
      var path := BranchPath(e.branch);
      if PathText(path, tokens) != e.text { return Some(TextMismatch); }
      finished := true;
    }

    method CheckSummary(winner: Id, c: Counters, tree: Summary<Float>) returns (error: Option<ContractError>)
      ensures error == SummaryError(Model(), winner, c, tree)
    {
      if !RatioValid(tree.ratio, c) { return Some(InvalidReuseRatio); }
      if tree.branchCount != |started| { return Some(BranchCountMismatch); }
      if tree.prunedCount != prunedCount { return Some(PrunedCountMismatch); }
      if tree.mergedCount != mergedCount { return Some(MergedCountMismatch); }
      if tree.tokensPerBranch != map id | id in tokens :: |tokens[id]| { return Some(TokensPerBranchMismatch); }
      if tree.finalScores.Keys != started { return Some(ScoreKeysMismatch); }
      if exists id :: id in tree.finalScores && tree.finalScores[id].NonFinite? { return Some(NonFiniteScore); }
      if tree.winner != winner { return Some(WinnerMismatch); }
      error := None;
    }

    /** Collects the branch and its ancestors, each ahead of its child. */
    method BranchPath(id: Id) returns (path: seq<Id>)
      requires Valid() && id in parents
      ensures path == Walk(order, parents, id)
    {
      hide ParentsFirst, Walk, WalkTo;
      path := [];
      var current := Some(id);
      assert WalkTo(order, parents, Some(id)) + [] == WalkTo(order, parents, Some(id));
      while current.Some?
        invariant current.Some? ==> current.value in parents && current.value in order
        invariant WalkTo(order, parents, Some(id)) == WalkTo(order, parents, current) + path
        decreases if current.Some? then IndexOf(order, current.value) + 1 else 0
      {
        WalkStep(order, parents, current.value, path);
        path := [current.value] + path;
        current := parents[current.value];
      }
      WalkEnds(order, parents, id, path);
    }
  }

  lemma WalkEnds(order: seq<Id>, parents: map<Id, Option<Id>>, id: Id, path: seq<Id>)
    requires ParentsFirst(order, parents) && id in parents
    requires WalkTo(order, parents, Some(id)) == WalkTo(order, parents, None) + path
    ensures path == Walk(order, parents, id)
  {
    assert [] + path == path;
  }
}
