/** What an accepted event does to its branch, in the nodes' own numbers (scheduler/src/scheduler.rs, process_event). */
module Samples {
  import opened Common
  import opened Arena
  import opened Commands
  import opened Lifecycle
  import opened Adaptive
  import opened Scheduler
  import Lockstep

  // ---------------------------------------------------------------------------
  // The opening checks
  // ---------------------------------------------------------------------------

  /** An event gets past the opening checks exactly if its entropy is a non-negative number, its branch is active, or at
      least live for a score, and, for a token whose score comes from outside, no score of the branch is awaited. */
  lemma CheckedExactly(c: Config, s: State, e: EngineEvent)
    requires WellFormed(s.tree)
    ensures CheckEvent(c, s, e).Ok? <==>
              && (e.TokenSampled? && e.entropy.Some? ==> e.entropy.value.Finite? && e.entropy.value.value >= 0.0)
              && e.branch < |s.tree.nodes|
              && (if e.ValueScored? then s.tree.nodes[e.branch].state in {Active, Expanded} else s.tree.nodes[e.branch].state == Active)
              && (e.TokenSampled? && c.scorer.None? ==> e.branch !in s.pending)
    ensures CheckEvent(c, s, e).Err? ==>
              CheckEvent(c, s, e).error ==
                if e.TokenSampled? && e.entropy.Some? && (e.entropy.value == NonFinite || e.entropy.value.value < 0.0) then InvalidNumber
                else if e.branch >= |s.tree.nodes| then UnknownBranch(e.branch)
                else if e.branch in s.pending && s.tree.nodes[e.branch].state == Active then ValueScorePending(e.branch)
                else BranchNotActive(e.branch)
  {
    if e.branch < |s.tree.nodes| { assert NodeOk(s.tree, e.branch); }
  }

  // ---------------------------------------------------------------------------
  // A token
  // ---------------------------------------------------------------------------

  /** The node with the token. */
  function Grown(n: BranchNode, logprob: real): BranchNode {
    n.(tokens := n.tokens + 1, logprob := n.logprob + logprob)
  }

  /** The value the node ends up with: the scheduler's own score of the grown node, or none yet when the score is awaited
      from outside; a last token awaits none. */
  function Scored(c: Config, n: BranchNode, eos: bool): BranchNode
    requires c.scorer.Some? ==> c.scorer.value(n).Finite?
  {
    if c.scorer.Some? then n.(value := c.scorer.value(n).value, hasValue := true)
    else if eos then n
    else n.(hasValue := false)
  }

  /** Nothing stands in the way of the token. */
  ghost predicate Recordable(c: Config, s: State, e: EngineEvent)
    requires e.TokenSampled?
  {
    && e.logprob.Finite?
    && s.tree.ActiveAt(e.branch)
    && s.tree.nodes[e.branch].tokens < U64_MAX
    && (c.scorer.Some? ==> c.scorer.value(Grown(s.tree.nodes[e.branch], e.logprob.value)).Finite?)
    && (c.scorer.None? && !e.eos ==> s.accepted + 1 + c.maxPendingEvents <= U64_MAX)
    && s.budget.consumed < s.budget.totalLimit && s.budget.consumed < U64_MAX
    && s.tree.nodes[e.branch].tokens < s.budget.branchLimit
  }

  /** One node grown and scored, one token spent, the deadline noted, the branch's Continue used up; nothing else. */
  ghost predicate Recorded(c: Config, s: State, e: EngineEvent, r: State, outcome: BudgetOutcome)
    requires e.TokenSampled? && Recordable(c, s, e)
  {
    var b, n := e.branch, s.tree.nodes[e.branch];
    && r == s.(tree := r.tree, budget := r.budget, pending := r.pending, outstanding := s.outstanding - {b}, queue := r.queue)
    && r.tree.cap == s.tree.cap
    && r.tree.nodes == s.tree.nodes[b := Scored(c, Grown(n, e.logprob.value), e.eos)]
    && r.budget == s.budget.(consumed := s.budget.consumed + 1)
    && r.pending == (if c.scorer.None? && !e.eos then s.pending[b := s.accepted + 1 + c.maxPendingEvents] else s.pending)
    && (forall x :: x in r.queue <==> x in s.queue && x != Continue(b))
    && outcome.branchExhausted == (n.tokens + 1 == s.budget.branchLimit)
    && outcome.treeExhausted == (s.budget.consumed + 1 == s.budget.totalLimit)
  }

  /** A token is recorded exactly if nothing stands in its way. The node then has one more token, its logprob has grown
      by the token's, and with an own scorer its value is the scorer's answer on that node; every other node is unchanged. */
  lemma TokenIsRecorded(c: Config, s: State, e: EngineEvent)
    requires WellFormed(s.tree) && e.TokenSampled?
    ensures RecordSample(c, s, e).Ok? <==> Recordable(c, s, e)
    ensures Recordable(c, s, e) ==> Recorded(c, s, e, RecordSample(c, s, e).value.0, RecordSample(c, s, e).value.1)
  {
    if e.branch < |s.tree.nodes| { assert NodeOk(s.tree, e.branch); }
    hide WellFormed, DropContinue;
    if Recordable(c, s, e) {
      var n := Grown(s.tree.nodes[e.branch], e.logprob.value);
      assert ProjectedAfterToken(s.tree, e.branch, e.logprob) == Ok(n);
      var r := RecordSample(c, s, e).value.0;
      assert r.tree.nodes == s.tree.nodes[e.branch := Scored(c, n, e.eos)];
    }
  }

  /** A token that is refused is refused for what stands in its way. */
  lemma RefusedTokenNamesTheFault(c: Config, s: State, e: EngineEvent)
    requires WellFormed(s.tree) && e.TokenSampled? && RecordSample(c, s, e).Err?
    ensures match RecordSample(c, s, e).error
            case InvalidNumber =>
              || e.logprob == NonFinite
              || (e.branch < |s.tree.nodes| && c.scorer.Some?
                  && c.scorer.value(Grown(s.tree.nodes[e.branch], e.logprob.value)) == NonFinite)
            case UnknownBranch(x) => x == e.branch >= |s.tree.nodes|
            case BranchNotActive(x) => x == e.branch < |s.tree.nodes| && s.tree.nodes[x].state != Active
            case BudgetAlreadyExhausted(x) =>
              x == e.branch < |s.tree.nodes|
              && (s.budget.consumed >= s.budget.totalLimit || s.tree.nodes[x].tokens >= s.budget.branchLimit)
            case CounterOverflow =>
              || (e.branch < |s.tree.nodes| && s.tree.nodes[e.branch].tokens >= U64_MAX)
              || s.accepted + 1 + c.maxPendingEvents > U64_MAX || s.budget.consumed >= U64_MAX
            case _ => false
  {
    if e.branch < |s.tree.nodes| { assert NodeOk(s.tree, e.branch); }
    hide WellFormed, DropContinue;
  }

  // ---------------------------------------------------------------------------
  // What becomes of the branch
  // ---------------------------------------------------------------------------

  /** The last token of a branch finalizes it; a limit finalizes it too, or defers its end to the awaited score; a spent
      tree ends at once unless its end is deferred. */
  lemma TokenOutcome(c: Config, s: State, e: EngineEvent)
    requires WellFormed(s.tree) && e.TokenSampled? && ApplyToken(c, s, e).Ok?
    ensures Recordable(c, s, e)
    ensures var ph := ApplyToken(c, s, e).value; var b, n := e.branch, s.tree.nodes[e.branch];
            var branchSpent, treeSpent := n.tokens + 1 == s.budget.branchLimit, s.budget.consumed + 1 == s.budget.totalLimit;
            var external := c.scorer.None? && !e.eos;
            && b < |ph.s.tree.nodes|
            && ph.s.tree.nodes[b].state == (if e.eos || (branchSpent && !treeSpent && !external) then Finalized else Active)
            && (ph.s.tree.nodes[b].state == Active ==> ph.emitted == [])
            && (ph.s.tree.nodes[b].state == Finalized ==> ph.emitted != [] && ph.emitted[0] == FinalizeBranch(b))
            && ph.exhausted == (treeSpent && !external)
            && ph.s.terminals == (if external && treeSpent then s.terminals[b := TreeTerminal]
                                  else if external && branchSpent then s.terminals[b := BranchTerminal] else s.terminals)
            && ph.s.adaptivePending == (if external && e.entropy.Some? && c.adaptive.Some? then s.adaptivePending + {b}
                                        else s.adaptivePending)
  {
    TokenIsRecorded(c, s, e);
    hide WellFormed, RecordSample, FinalizeAndReclaim;
    var s1 := RecordSample(c, s, e).value.0;
    var s2 := if c.scorer.None? && !e.eos && e.entropy.Some? && c.adaptive.Some?
      then s1.(adaptivePending := s1.adaptivePending + {e.branch}) else s1;
    if FinalizeAndReclaim(s2, e.branch).Ok? { EndsFinalized(s2, e.branch); }
  }

  lemma EndsFinalized(s: State, b: nat)
    requires WellFormed(s.tree) && FinalizeAndReclaim(s, b).Ok?
    ensures var ph := FinalizeAndReclaim(s, b).value;
            && b < |ph.s.tree.nodes| && ph.s.tree.nodes[b].state == Finalized
            && ph.emitted != [] && ph.emitted[0] == FinalizeBranch(b)
            && ph.s == s.(tree := ph.s.tree) && !ph.exhausted
  {
    FinalizeKeepsWellFormed(s.tree, b);
    ReclaimSpec(Finalize(s.tree, b).value, b);
  }

  /** An exhausted branch is finalized, and everything noted about it is forgotten. */
  lemma ExhaustedIsFinalized(s: State, b: nat)
    requires WellFormed(s.tree)
    ensures ApplyExhausted(s, b).Ok? <==> s.tree.ActiveAt(b)
    ensures ApplyExhausted(s, b).Ok? ==>
              var ph := ApplyExhausted(s, b).value;
              && ph.s.tree.TerminalAt(b) && ph.s.tree.nodes[b].state == Finalized && !ph.exhausted
              && ph.emitted != [] && ph.emitted[0] == FinalizeBranch(b)
              && b !in ph.s.pending && b !in ph.s.terminals && b !in ph.s.adaptivePending && b !in ph.s.outstanding
              && Continue(b) !in ph.s.queue
              && ph.s == s.(tree := ph.s.tree, pending := s.pending - {b}, terminals := s.terminals - {b},
                            adaptivePending := s.adaptivePending - {b}, outstanding := s.outstanding - {b}, queue := ph.s.queue)
  {
    if b < |s.tree.nodes| { assert NodeOk(s.tree, b); }
    hide FinalizeAndReclaim;
    var s1 := RemoveQueuedContinue(s, b);
    var s2 := s1.(pending := s1.pending - {b}, terminals := s1.terminals - {b}, adaptivePending := s1.adaptivePending - {b});
    FinalizesExactly(s2, b);
    if FinalizeAndReclaim(s2, b).Ok? { EndsFinalized(s2, b); }
  }

  lemma FinalizesExactly(s: State, b: nat)
    requires WellFormed(s.tree)
    ensures FinalizeAndReclaim(s, b).Ok? <==> s.tree.ActiveAt(b)
  {
    if b < |s.tree.nodes| { assert NodeOk(s.tree, b); }
  }

  /** A score that is refused was not awaited, is no number, or finds its branch ended or not active. */
  lemma RefusedScoreNamesTheFault(c: Config, s: State, b: nat, score: Float)
    requires WellFormed(s.tree) && ApplyScore(c, s, b, score).Err?
    ensures match ApplyScore(c, s, b, score).error
            case UnexpectedValueScore(x) => x == b && (c.scorer.Some? || b !in s.pending)
            case InvalidNumber => score == NonFinite
            case UnknownBranch(x) => x == b >= |s.tree.nodes|
            case BranchNotActive(x) => x == b < |s.tree.nodes| && s.tree.nodes[b].state != Active
            case _ => false
  {
    if b < |s.tree.nodes| { assert NodeOk(s.tree, b); }
    if c.scorer.None? && b in s.pending && RecordValue(s.tree, b, score).Ok? {
      SameStructureWellFormed(s.tree, RecordValue(s.tree, b, score).value);
    }
  }

  /** A score is taken exactly if it is a number, comes from outside and is awaited by a live branch. It becomes the
      branch's value, is awaited no longer, and carries out the end that was deferred to it. */
  lemma ScoreIsTaken(c: Config, s: State, b: nat, score: Float)
    requires WellFormed(s.tree)
    ensures ApplyScore(c, s, b, score).Ok? <==>
              && c.scorer.None? && b in s.pending && score.Finite? && s.tree.LiveAt(b)
              && (b in s.terminals && s.terminals[b] == BranchTerminal ==> s.tree.ActiveAt(b))
    ensures ApplyScore(c, s, b, score).Ok? ==>
              var ph := ApplyScore(c, s, b, score).value;
              && |ph.s.tree.nodes| == |s.tree.nodes|
              && ph.s.tree.nodes[b].hasValue && ph.s.tree.nodes[b].value == score.value
              && ph.s.pending == s.pending - {b} && ph.s.terminals == s.terminals - {b}
              && ph.exhausted == (b in s.terminals && s.terminals[b] == TreeTerminal)
              && ph.s.tree.nodes[b].state ==
                   (if b in s.terminals && s.terminals[b] == BranchTerminal then Finalized else s.tree.nodes[b].state)
              && (forall i: nat :: i < |s.tree.nodes| && i != b ==>
                    && ph.s.tree.nodes[i].value == s.tree.nodes[i].value && ph.s.tree.nodes[i].hasValue == s.tree.nodes[i].hasValue)
  {
    if b < |s.tree.nodes| { assert NodeOk(s.tree, b); }
    if c.scorer.None? && b in s.pending && RecordValue(s.tree, b, score).Ok? {
      var valued := RecordValue(s.tree, b, score).value;
      SameStructureWellFormed(s.tree, valued);
      var s1 := s.(tree := valued, pending := s.pending - {b}, terminals := s.terminals - {b});
      FinalizesExactly(s1, b);
      hide WellFormed, FinalizeAndReclaim;
      if FinalizeAndReclaim(s1, b).Ok? {
        EndsFinalized(s1, b);
        Lockstep.FinalizeAndReclaimSpec(s1, b);
      }
    }
  }
}
