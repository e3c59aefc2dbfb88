/** Entropy-triggered forking (scheduler/src/adaptive.rs) and the token budgets (scheduler/src/budget.rs). */
module Adaptive {
  import opened Common
  import opened Arena

  datatype AdaptiveForkConfig = AdaptiveForkConfig(
    entropyThreshold: real,
    minTokensBetweenForks: nat,
    maxTotalBranches: nat,
    maxDepth: nat,
    minForkWidth: nat,
    maxForkWidth: nat,
    entropyPerExtraBranch: real)

  predicate AdaptiveConfigOk(c: AdaptiveForkConfig) {
    && c.entropyThreshold >= 0.0
    && c.minTokensBetweenForks > 0
    && c.maxTotalBranches >= 2
    && c.maxDepth > 0
    && 2 <= c.minForkWidth <= c.maxForkWidth <= MAX_BRANCH_WIDTH
    && c.entropyPerExtraBranch > 0.0
  }

  function SaturatingSub(a: nat, b: nat): nat {
    if a < b then 0 else a - b
  }

  function WidthForEntropy(c: AdaptiveForkConfig, entropy: real): (w: nat)
    requires AdaptiveConfigOk(c)
  {
    var excess := if entropy - c.entropyThreshold < 0.0 then 0.0 else entropy - c.entropyThreshold;
    var extra := (excess / c.entropyPerExtraBranch).Floor;
    assert extra >= 0;
    var capped := if extra >= U32_MAX then U32_MAX else extra;
    Min(Min(c.minForkWidth + capped, U32_MAX), c.maxForkWidth)
  }

  /** The width is the documented closed formula, always within the configured bounds. */
  lemma WidthFormula(c: AdaptiveForkConfig, entropy: real)
    requires AdaptiveConfigOk(c) && entropy >= c.entropyThreshold
    ensures c.minForkWidth <= WidthForEntropy(c, entropy) <= c.maxForkWidth
    ensures WidthForEntropy(c, entropy) ==
            Min(c.maxForkWidth, c.minForkWidth + ((entropy - c.entropyThreshold) / c.entropyPerExtraBranch).Floor)
  {
    var q := (entropy - c.entropyThreshold) / c.entropyPerExtraBranch;
    assert q >= 0.0;
  }

  /** More entropy never forks narrower. */
  lemma WidthMonotone(c: AdaptiveForkConfig, low: real, high: real)
    requires AdaptiveConfigOk(c) && c.entropyThreshold <= low <= high
    ensures WidthForEntropy(c, low) <= WidthForEntropy(c, high)
  {
    var a := (low - c.entropyThreshold) / c.entropyPerExtraBranch;
    var b := (high - c.entropyThreshold) / c.entropyPerExtraBranch;
    assert b - a == (high - low) / c.entropyPerExtraBranch >= 0.0;
    WidthFormula(c, low);
    WidthFormula(c, high);
  }

  /** The value of a `BudgetController`. */
  datatype Budget = Budget(totalLimit: nat, branchLimit: nat, consumed: nat) {
    function Remaining(): nat {
      SaturatingSub(totalLimit, consumed)
    }
  }

  datatype BudgetOutcome = BudgetOutcome(branchExhausted: bool, treeExhausted: bool)

  function Consume(g: Budget, b: nat, tokensBefore: nat): Result<(Budget, BudgetOutcome)> {
    if g.consumed >= g.totalLimit || tokensBefore >= g.branchLimit then Err(BudgetAlreadyExhausted(b))
    else if g.consumed + 1 > U64_MAX then Err(CounterOverflow)
    else if tokensBefore + 1 > U64_MAX then Err(CounterOverflow)
    else Ok((g.(consumed := g.consumed + 1),
             BudgetOutcome(tokensBefore + 1 == g.branchLimit, g.consumed + 1 == g.totalLimit)))
  }

  function PlannedWidth(c: AdaptiveForkConfig, lastFork: map<nat, nat>, b: nat, entropy: real,
                        t: Tree, g: Budget, reserved: nat): Result<Option<nat>>
    requires AdaptiveConfigOk(c)
  {
    if entropy < c.entropyThreshold then Ok(None)
    else if !t.Has(b) then Err(UnknownBranch(b))
    else if t.nodes[b].depth >= c.maxDepth then Ok(None)
    else if b in lastFork && SaturatingSub(t.nodes[b].tokens, lastFork[b]) < c.minTokensBetweenForks then Ok(None)
    else
      var width := WidthForEntropy(c, entropy);
      if |t.nodes| + width > U64_MAX || |t.nodes| + width > c.maxTotalBranches then Ok(None)
      else if SaturatingSub(g.Remaining(), reserved) < width || t.nodes[b].tokens >= g.branchLimit then Ok(None)
      else Ok(Some(width))
  }

  /** A fork is planned exactly when the entropy reaches the threshold, the branch lies above the depth limit and below
      its token limit, it has sampled enough tokens since the fork it came from, and the children fit the arena and what
      is left of the budget after the reservations. */
  lemma PlannedExactly(c: AdaptiveForkConfig, lastFork: map<nat, nat>, b: nat, entropy: real, t: Tree, g: Budget, reserved: nat)
    requires AdaptiveConfigOk(c) && WellFormed(t) && b < |t.nodes|
    ensures var w := WidthForEntropy(c, entropy);
            PlannedWidth(c, lastFork, b, entropy, t, g, reserved) ==
              Ok(if && entropy >= c.entropyThreshold
                    && t.nodes[b].depth < c.maxDepth
                    && t.nodes[b].tokens < g.branchLimit
                    && (b in lastFork ==> lastFork[b] + c.minTokensBetweenForks <= t.nodes[b].tokens)
                    && |t.nodes| + w <= Min(c.maxTotalBranches, U64_MAX)
                    && (g.consumed + reserved + w <= g.totalLimit)
                 then Some(w) else None)
  {
    assert NodeOk(t, b);
    if entropy >= c.entropyThreshold { WidthFormula(c, entropy); }
  }

  /** A planned fork is deep enough below its limits that every child can decode one token on top of
      what is already reserved. */
  lemma PlannedForkIsFunded(c: AdaptiveForkConfig, lastFork: map<nat, nat>, b: nat, entropy: real,
                            t: Tree, g: Budget, reserved: nat)
    requires AdaptiveConfigOk(c) && PlannedWidth(c, lastFork, b, entropy, t, g, reserved).Ok?
    requires PlannedWidth(c, lastFork, b, entropy, t, g, reserved).value.Some?
    ensures var w := PlannedWidth(c, lastFork, b, entropy, t, g, reserved).value.value;
            && c.minForkWidth <= w <= c.maxForkWidth
            && reserved + w <= g.Remaining()
            && t.nodes[b].tokens < g.branchLimit
            && |t.nodes| + w <= c.maxTotalBranches
  {
    WidthFormula(c, entropy);
  }
}
