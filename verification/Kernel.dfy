/** The fused decode kernel's page loop with a running maximum (core/autotree_core/kernels/triton_kernel.py)
    against the one-shot reference (core/autotree_core/kernels/reference.py). */
module Kernel {
  import opened Common
  import opened PageMath
  import opened KvPool
  import opened KvStore
  import opened KvForest
  import opened Attention
  import TS = KvTreeState

  // ---------------------------------------------------------------------------
  // The reference
  // ---------------------------------------------------------------------------

  /** What the reference insists on for one branch. */
  predicate RowAccepted(numPages: nat, size: nat, row: Row, contextLen: int)
    requires size > 0
  {
    contextLen > 0 && RowCovers(numPages, size, row, contextLen)
  }

  ghost predicate Pool(pages: seq<Page>, size: nat) {
    size > 0 && |pages| > 0 && forall p :: 0 <= p < |pages| ==> |pages[p]| == size
  }

  /** Every query head of one branch attends to the gathered path; None is the raised error. */
  function ReferenceBranch(m: Model, pages: seq<Page>, size: nat, row: Row, contextLen: int, q: seq<Vector>): Option<seq<Vector>>
    requires ModelOk(m) && Pool(pages, size) && QueriesOk(m, q)
  {
    if !RowAccepted(|pages|, size, row, contextLen) then None
    else
      ExponentialsOk(m);
      var tokens := RowTokens(pages, size, row, contextLen);
      Some(seq(|q|, h requires 0 <= h < |q| => Attend(m, q[h], h / m.queriesPerKv, tokens)))
  }

  ghost predicate QueriesOk(m: Model, q: seq<Vector>) {
    |q| == m.numKvHeads * m.queriesPerKv && forall h :: 0 <= h < |q| ==> |q[h]| == m.dim
  }

  /** Every query head gets the softmax average over the path, each group of heads with its own KV head. */
  ghost predicate PathIsSoftmax(m: Model, q: seq<Vector>, tokens: seq<Token>, out: seq<Option<Vector>>)
    requires ModelOk(m) && QueriesOk(m, q)
  {
    && |out| == |q|
    && forall h :: 0 <= h < |q| ==> out[h].Some? && IsSoftmax(m, q[h], h / m.queriesPerKv, tokens, out[h].value)
  }

  /** The softmax averages over the path of an accepted row, and NaN for any other. */
  ghost predicate RowIsSoftmax(m: Model, pages: seq<Page>, size: nat, row: Row, contextLen: int, q: seq<Vector>, out: seq<Option<Vector>>)
    requires ModelOk(m) && Pool(pages, size) && QueriesOk(m, q)
  {
    if RowAccepted(|pages|, size, row, contextLen) then PathIsSoftmax(m, q, RowTokens(pages, size, row, contextLen), out)
    else |out| == |q| && forall h :: 0 <= h < |q| ==> out[h] == None
  }

  lemma HeadIsSoftmax(m: Model, q: Vector, kvHead: nat, tokens: seq<Token>)
    requires ModelOk(m) && |q| == m.dim && tokens != []
    ensures (forall x: real :: m.exp(x) > 0.0) && IsSoftmax(m, q, kvHead, tokens, Attend(m, q, kvHead, tokens))
  {
    ExponentialsOk(m);
    AttendIsSoftmax(m, q, kvHead, tokens);
  }

  // ---------------------------------------------------------------------------
  // Tensor expressions over one page
  // ---------------------------------------------------------------------------

  /** Minus infinity is None. */
  function Larger(a: Option<real>, b: Option<real>): Option<real> {
    if a.None? then b else if b.None? then a else if a.value < b.value then b else a
  }

  function MaxOf(scores: seq<Option<real>>): Option<real> {
    if scores == [] then None else Larger(MaxOf(scores[..|scores| - 1]), scores[|scores| - 1])
  }

  /** exp2(score - base), which is 0 for a masked score. */
  function Weights(exp2: real -> real, scores: seq<Option<real>>, base: real): (r: seq<real>)
    ensures |r| == |scores|
  {
    seq(|scores|, t requires 0 <= t < |scores| => if scores[t].Some? then exp2(scores[t].value - base) else 0.0)
  }

  function Sum(xs: seq<real>): real {
    if xs == [] then 0.0 else Sum(xs[..|xs| - 1]) + xs[|xs| - 1]
  }

  function Column(weights: seq<real>, values: seq<Vector>, d: nat): real
    requires |values| == |weights| && forall t :: 0 <= t < |values| ==> d < |values[t]|
  {
    var n := |weights|;
    if n == 0 then 0.0 else Column(weights[..n - 1], values[..n - 1], d) + weights[n - 1] * values[n - 1][d]
  }

  /** The scores of a block of token offsets, the first `visible` of them unmasked. */
  function BlockScores(m: Model, q: Vector, kvHead: nat, page: Page, block: nat, visible: nat): (r: seq<Option<real>>)
    requires ModelOk(m) && |q| == m.dim && visible <= |page| <= block
    ensures |r| == block
  {
    seq(block, t requires 0 <= t < block =>
      if t < visible then Some(Logit(m, q, kvHead, page[t]) * LOG2E) else None)
  }

  function BlockValues(m: Model, kvHead: nat, page: Page, block: nat, visible: nat): (r: seq<Vector>)
    requires ModelOk(m) && visible <= |page| <= block
    ensures |r| == block && forall t :: 0 <= t < block ==> |r[t]| == m.dim
  {
    seq(block, t requires 0 <= t < block => if t < visible then m.value(page[t], kvHead) else seq(m.dim, _ => 0.0))
  }

  /** Masked offsets add nothing to the sums of a block. */
  lemma {:induction false} BlockSums(exp2: real -> real, scores: seq<Option<real>>, values: seq<Vector>,
                                     seen: seq<real>, seenValues: seq<Vector>, base: real, d: nat)
    requires |seen| == |seenValues| <= |scores| == |values|
    requires forall t :: 0 <= t < |scores| ==> scores[t] == if t < |seen| then Some(seen[t]) else None
    requires forall t :: 0 <= t < |values| ==> d < |values[t]| && (t < |seen| ==> values[t] == seenValues[t])
    ensures Sum(Weights(exp2, scores, base)) == Mass(exp2, seen, base)
    ensures Column(Weights(exp2, scores, base), values, d) == Pull(exp2, seen, seenValues, base, d)
  {
    var n := |scores|;
    if n > 0 {
      assert Weights(exp2, scores, base)[..n - 1] == Weights(exp2, scores[..n - 1], base);
      if |seen| == n {
        BlockSums(exp2, scores[..n - 1], values[..n - 1], seen[..n - 1], seenValues[..n - 1], base, d);
      } else {
        BlockSums(exp2, scores[..n - 1], values[..n - 1], seen, seenValues, base, d);
      }
    }
  }

  ghost predicate IsMax(scores: seq<real>, max: Option<real>) {
    match max
    case None => scores == []
    case Some(x) => x in scores && forall i :: 0 <= i < |scores| ==> scores[i] <= x
  }

  lemma {:induction false} BlockMax(scores: seq<Option<real>>, seen: seq<real>)
    requires |seen| <= |scores|
    requires forall t :: 0 <= t < |scores| ==> scores[t] == if t < |seen| then Some(seen[t]) else None
    ensures IsMax(seen, MaxOf(scores))
  {
    var n := |scores|;
    if n > 0 {
      if |seen| == n {
        BlockMax(scores[..n - 1], seen[..n - 1]);
        assert seen == seen[..n - 1] + [seen[n - 1]];
      } else {
        BlockMax(scores[..n - 1], seen);
      }
    }
  }

  lemma LargerIsMax(a: seq<real>, b: seq<real>, x: Option<real>, y: Option<real>)
    requires IsMax(a, x) && IsMax(b, y)
    ensures IsMax(a + b, Larger(x, y))
  {
    assert forall i :: 0 <= i < |a + b| ==> (a + b)[i] == if i < |a| then a[i] else b[i - |a|];
  }

  // ---------------------------------------------------------------------------
  // The running state
  // ---------------------------------------------------------------------------

  /** What maximum, sum and accumulator amount to after the tokens `seen`: the greatest score, and the
      sums relative to it. So no exponential of the loop ever has a positive argument. */
  ghost predicate Running(m: Model, q: Vector, kvHead: nat, seen: seq<Token>, max: Option<real>, sum: real, acc: Vector)
    requires ModelOk(m) && |q| == m.dim
  {
    var scores, values := Base2(Logits(m, q, kvHead, seen)), Values(m, kvHead, seen);
    && |acc| == m.dim
    && IsMax(scores, max)
    && sum == (if max.None? then 0.0 else Mass(m.exp2, scores, max.value))
    && forall d :: 0 <= d < m.dim ==> acc[d] == if max.None? then 0.0 else Pull(m.exp2, scores, values, max.value, d)
  }

  function Correction(exp2: real -> real, max: Option<real>, next: real): real {
    if max.None? then 0.0 else exp2(max.value - next)
  }

  /** An old sum brought to the new maximum, plus the page's part. */
  function Rescaled(correction: real, was: real, page: real): real {
    was * correction + page
  }

  /** One coordinate and the sum after a page: the old sums are rescaled to the new maximum. */
  lemma SumsAfterPage(exp2: real -> real, seen: seq<real>, seenValues: seq<Vector>, chunk: seq<real>, chunkValues: seq<Vector>,
                      max: Option<real>, next: real, sum: real, pull: real, d: nat)
    requires IsExponential(exp2) && |seenValues| == |seen| && |chunkValues| == |chunk| && IsMax(seen, max)
    requires (forall i :: 0 <= i < |seenValues| ==> d < |seenValues[i]|) && (forall i :: 0 <= i < |chunkValues| ==> d < |chunkValues[i]|)
    requires sum == if max.None? then 0.0 else Mass(exp2, seen, max.value)
    requires pull == if max.None? then 0.0 else Pull(exp2, seen, seenValues, max.value, d)
    ensures Rescaled(Correction(exp2, max, next), sum, Mass(exp2, chunk, next)) == Mass(exp2, seen + chunk, next)
    ensures Rescaled(Correction(exp2, max, next), pull, Pull(exp2, chunk, chunkValues, next, d))
         == Pull(exp2, seen + chunk, seenValues + chunkValues, next, d)
  {
    hide IsExponential, Mass, Pull, Rescaled;
    MassConcat(exp2, seen, chunk, next);
    PullConcat(exp2, seen, chunk, seenValues, chunkValues, next, d);
    if max.Some? {
      Rebase(exp2, seen, seenValues, max.value, next, d);
      RescaledFrom(exp2, max.value, next, sum, Mass(exp2, chunk, next));
      RescaledFrom(exp2, max.value, next, pull, Pull(exp2, chunk, chunkValues, next, d));
    } else {
      NothingSeen(exp2, seen, seenValues, next, d);
      RescaledNothing(exp2, next, Mass(exp2, chunk, next));
      RescaledNothing(exp2, next, Pull(exp2, chunk, chunkValues, next, d));
    }
  }

  lemma RescaledFrom(exp2: real -> real, max: real, next: real, was: real, page: real)
    ensures Rescaled(Correction(exp2, Some(max), next), was, page) == was * exp2(max - next) + page
  {
  }

  lemma RescaledNothing(exp2: real -> real, next: real, page: real)
    ensures Rescaled(Correction(exp2, None, next), 0.0, page) == page
  {
  }

  lemma NothingSeen(exp2: real -> real, seen: seq<real>, values: seq<Vector>, base: real, d: nat)
    requires seen == [] && values == []
    ensures Mass(exp2, seen, base) == 0.0 && Pull(exp2, seen, values, base, d) == 0.0
  {
  }

  lemma LogitsConcat(m: Model, q: Vector, kvHead: nat, seen: seq<Token>, chunk: seq<Token>)
    requires ModelOk(m) && |q| == m.dim
    ensures Base2(Logits(m, q, kvHead, seen + chunk)) == Base2(Logits(m, q, kvHead, seen)) + Base2(Logits(m, q, kvHead, chunk))
    ensures Values(m, kvHead, seen + chunk) == Values(m, kvHead, seen) + Values(m, kvHead, chunk)
  {
  }

  /** A page's contribution, as the loop body computes it. */
  lemma PageStep(m: Model, q: Vector, kvHead: nat, seen: seq<Token>, chunk: seq<Token>, max: Option<real>, sum: real, acc: Vector,
                 chunkMax: Option<real>, sum': real, acc': Vector)
    requires ModelOk(m) && |q| == m.dim && Running(m, q, kvHead, seen, max, sum, acc) && chunk != []
    requires IsMax(Base2(Logits(m, q, kvHead, chunk)), chunkMax)
    requires var next := Larger(max, chunkMax);
             && next.Some?
             && sum' == Rescaled(Correction(m.exp2, max, next.value), sum, Mass(m.exp2, Base2(Logits(m, q, kvHead, chunk)), next.value))
             && |acc'| == m.dim
             && forall d :: 0 <= d < m.dim ==>
                  acc'[d] == Rescaled(Correction(m.exp2, max, next.value), acc[d],
                                      Pull(m.exp2, Base2(Logits(m, q, kvHead, chunk)), Values(m, kvHead, chunk), next.value, d))
    ensures Running(m, q, kvHead, seen + chunk, Larger(max, chunkMax), sum', acc')
  {
    hide IsExponential, Rescaled, Mass, Pull, Base2, Logits;
    ExponentialsOk(m);
    var a, b := Base2(Logits(m, q, kvHead, seen)), Base2(Logits(m, q, kvHead, chunk));
    var u, v := Values(m, kvHead, seen), Values(m, kvHead, chunk);
    LogitsConcat(m, q, kvHead, seen, chunk);
    LargerIsMax(a, b, max, chunkMax);
    var next := Larger(max, chunkMax).value;
    MassAfterPage(m.exp2, a, b, max, next, sum);
    forall d: nat | d < m.dim
      ensures acc'[d] == Pull(m.exp2, a + b, u + v, next, d)
    {
      SumsAfterPage(m.exp2, a, u, b, v, max, next, sum, acc[d], d);
    }
  }

  lemma MassAfterPage(exp2: real -> real, seen: seq<real>, chunk: seq<real>, max: Option<real>, next: real, sum: real)
    requires IsExponential(exp2) && IsMax(seen, max)
    requires sum == if max.None? then 0.0 else Mass(exp2, seen, max.value)
    ensures Rescaled(Correction(exp2, max, next), sum, Mass(exp2, chunk, next)) == Mass(exp2, seen + chunk, next)
  {
    hide IsExponential, Rescaled, Mass, Pull;
    var none: seq<Vector> := seq(|seen|, _ => [0.0]);
    var also: seq<Vector> := seq(|chunk|, _ => [0.0]);
    SumsAfterPage(exp2, seen, none, chunk, also, max, next, sum,
                  if max.None? then 0.0 else Pull(exp2, seen, none, max.value, 0), 0);
  }

  // ---------------------------------------------------------------------------
  // The page loop
  // ---------------------------------------------------------------------------

  /** How many tokens lie before page `slot`. */
  function SeenAt(contextLen: int, size: nat, slot: nat): (n: int)
    ensures contextLen > 0 ==> 0 <= n <= contextLen
  {
    MulMonotone(0, slot, size);
    Min(contextLen, slot * size)
  }

  /** What the loop has checked of the metadata after `slot` pages. */
  ghost predicate CheckedSoFar(numPages: nat, size: nat, row: Row, contextLen: int, slot: nat) {
    && 0 < contextLen <= |row| * size
    && forall i: nat :: i < slot && i < |row| && i * size < contextLen ==> 0 <= row[i] < numPages
  }

  /** After the last page the loop has checked exactly what the reference insists on. */
  lemma CheckedIsAccepted(numPages: nat, size: nat, row: Row, contextLen: int)
    requires size > 0
    ensures CheckedSoFar(numPages, size, row, contextLen, |row|) <==> RowAccepted(numPages, size, row, contextLen)
  {
    if contextLen > 0 {
      CeilDivSpec(contextLen, size);
      var needed := CeilDiv(contextLen, size);
      if needed <= |row| {
        MulMonotone(needed, |row|, size);
      } else {
        MulMonotone(|row|, needed - 1, size);
      }
      forall i: nat
        ensures i < needed <==> i * size < contextLen
      {
        if i < needed { MulMonotone(i, needed - 1, size); } else { MulMonotone(needed, i, size); }
      }
    }
  }

  lemma AcceptedIsChecked(numPages: nat, size: nat, row: Row, contextLen: int, slot: nat)
    requires size > 0 && RowAccepted(numPages, size, row, contextLen) && slot <= |row|
    ensures CheckedSoFar(numPages, size, row, contextLen, slot)
  {
    CheckedIsAccepted(numPages, size, row, contextLen);
  }

  /** The unmasked part of page `slot` is the next stretch of the path. */
  lemma PageTokens(pages: seq<Page>, size: nat, row: Row, contextLen: nat, slot: nat)
    requires Pool(pages, size) && RowCovers(|pages|, size, row, contextLen) && slot < |row| && slot * size < contextLen
    ensures 0 <= row[slot] < |pages|
    ensures var visible := Min(size, contextLen - slot * size);
            && 0 < visible <= size
            && SeenAt(contextLen, size, slot + 1) == slot * size + visible <= contextLen
            && RowTokens(pages, size, row, contextLen)[slot * size..slot * size + visible] == pages[row[slot]][..visible]
  {
    var visible := Min(size, contextLen - slot * size);
    assert (slot + 1) * size == slot * size + size;
    SlotInTable(slot * size, contextLen, size);
    DivUnique(slot, 0, size);
    var tokens := RowTokens(pages, size, row, contextLen);
    forall t: nat | t < visible
      ensures tokens[slot * size + t] == pages[row[slot]][t]
    {
      DivUnique(slot, t, size);
      assert tokens[slot * size + t] == RowToken(pages, size, row, contextLen, slot * size + t);
    }
  }

  /** The block expressions of a page, in terms of the tokens it shows. */
  lemma BlockOfPage(m: Model, q: Vector, kvHead: nat, page: Page, block: nat, visible: nat, base: real)
    requires ModelOk(m) && |q| == m.dim && visible <= |page| <= block
    ensures var chunk := page[..visible];
            var scores, values := BlockScores(m, q, kvHead, page, block, visible), BlockValues(m, kvHead, page, block, visible);
            && IsMax(Base2(Logits(m, q, kvHead, chunk)), MaxOf(scores))
            && Sum(Weights(m.exp2, scores, base)) == Mass(m.exp2, Base2(Logits(m, q, kvHead, chunk)), base)
            && forall d :: 0 <= d < m.dim ==>
                 Column(Weights(m.exp2, scores, base), values, d)
                 == Pull(m.exp2, Base2(Logits(m, q, kvHead, chunk)), Values(m, kvHead, chunk), base, d)
  {
    var chunk := page[..visible];
    var scores, values := BlockScores(m, q, kvHead, page, block, visible), BlockValues(m, kvHead, page, block, visible);
    var seen, seenValues := Base2(Logits(m, q, kvHead, chunk)), Values(m, kvHead, chunk);
    BlockMax(scores, seen);
    var none: seq<Vector> := seq(block, _ => [0.0]);
    BlockSums(m.exp2, scores, none, seen, none[..visible], base, 0);
    forall d: nat | d < m.dim
      ensures Column(Weights(m.exp2, scores, base), values, d) == Pull(m.exp2, seen, seenValues, base, d)
    {
      BlockSums(m.exp2, scores, values, seen, seenValues, base, d);
    }
  }

  /** A page beyond the context leaves the running state as it is. */
  lemma NothingVisible(m: Model, q: Vector, kvHead: nat, page: Page, block: nat, base: real, was: real, d: nat)
    requires ModelOk(m) && |q| == m.dim && |page| <= block
    ensures Rescaled(1.0, was, Sum(Weights(m.exp2, BlockScores(m, q, kvHead, page, block, 0), base))) == was
    ensures d < m.dim ==>
              Rescaled(1.0, was, Column(Weights(m.exp2, BlockScores(m, q, kvHead, page, block, 0), base),
                                        BlockValues(m, kvHead, page, block, 0), d)) == was
  {
    BlockOfPage(m, q, kvHead, page, block, 0, base);
    assert page[..0] == [];
  }

  /** The body of the page loop. */
  method KernelPage(m: Model, q: Vector, kvHead: nat, page: Page, block: nat, visible: nat, active: bool,
                    runningMax: Option<real>, runningSum: real, accumulator: Vector, ghost seen: seq<Token>)
    returns (max: Option<real>, sum: real, acc: Vector)
    requires ModelOk(m) && |q| == m.dim && visible <= |page| <= block && (active <==> visible > 0) && |accumulator| == m.dim
    ensures |acc| == m.dim
    ensures active && Running(m, q, kvHead, seen, runningMax, runningSum, accumulator) ==>
              Running(m, q, kvHead, seen + page[..visible], max, sum, acc)
    ensures !active ==> max == runningMax && sum == runningSum && acc == accumulator
  {
    var scores := BlockScores(m, q, kvHead, page, block, visible);
    var values := BlockValues(m, kvHead, page, block, visible);
    var pageMax := MaxOf(scores);
    var nextMax := Larger(runningMax, pageMax);
    var base := if nextMax.Some? then nextMax.value else 0.0;
    var correction := if active then Correction(m.exp2, runningMax, base) else 1.0;
    var weights := Weights(m.exp2, scores, base);
    acc := seq(m.dim, d requires 0 <= d < m.dim => Rescaled(correction, accumulator[d], Column(weights, values, d)));
    sum := Rescaled(correction, runningSum, Sum(weights));
    max := if active then nextMax else runningMax;
    BlockOfPage(m, q, kvHead, page, block, visible, base);
    hide ModelOk, Rescaled, Weights, Column, Sum, Running, BlockScores, BlockValues, MaxOf, Correction;
    if active {
      assert page[..visible] != [];
      assert Base2(Logits(m, q, kvHead, page[..visible])) != [];
      if Running(m, q, kvHead, seen, runningMax, runningSum, accumulator) {
        PageStep(m, q, kvHead, seen, page[..visible], runningMax, runningSum, accumulator, pageMax, sum, acc);
      }
    } else {
      NothingVisible(m, q, kvHead, page, block, base, runningSum, 0);
      forall d: nat | d < m.dim
        ensures acc[d] == accumulator[d]
      {
        NothingVisible(m, q, kvHead, page, block, base, accumulator[d], d);
      }
    }
  }

  /** At the end of the path the quotient is the softmax average. */
  lemma LaneEnds(m: Model, q: Vector, kvHead: nat, tokens: seq<Token>, max: Option<real>, sum: real, acc: Vector)
    requires ModelOk(m) && |q| == m.dim && tokens != [] && Running(m, q, kvHead, tokens, max, sum, acc)
    ensures sum > 0.0
    ensures (forall x: real :: m.exp(x) > 0.0)
    ensures seq(m.dim, d requires 0 <= d < m.dim => acc[d] / sum) == Attend(m, q, kvHead, tokens)
  {
    ExponentialsOk(m);
    hide IsExponential, Attend;
    SumIsPositive(m, q, kvHead, tokens, max, sum, acc);
    forall d: nat | d < m.dim
      ensures acc[d] / sum == Attend(m, q, kvHead, tokens)[d]
    {
      LaneEndsAt(m, q, kvHead, tokens, max, sum, acc, d);
    }
  }

  lemma SumIsPositive(m: Model, q: Vector, kvHead: nat, tokens: seq<Token>, max: Option<real>, sum: real, acc: Vector)
    requires ModelOk(m) && |q| == m.dim && tokens != [] && Running(m, q, kvHead, tokens, max, sum, acc)
    ensures sum > 0.0
  {
    ExponentialsOk(m);
    hide IsExponential, Mass, Pull, Mixed, Total;
    var logits := Logits(m, q, kvHead, tokens);
    assert Base2(logits) != [];
    var ones: seq<Vector> := seq(|tokens|, _ => [0.0]);
    QuotientIsSoftmax(m, logits, ones, max.value, 0);
  }

  lemma LaneEndsAt(m: Model, q: Vector, kvHead: nat, tokens: seq<Token>, max: Option<real>, sum: real, acc: Vector, d: nat)
    requires ModelOk(m) && |q| == m.dim && tokens != [] && Running(m, q, kvHead, tokens, max, sum, acc) && d < m.dim
    ensures sum > 0.0 && forall x: real :: m.exp(x) > 0.0
    ensures acc[d] / sum == Attend(m, q, kvHead, tokens)[d]
  {
    ExponentialsOk(m);
    hide IsExponential, Mass, Pull, Mixed, Total;
    var logits := Logits(m, q, kvHead, tokens);
    assert Base2(logits) != [];
    QuotientIsSoftmax(m, logits, Values(m, kvHead, tokens), max.value, d);
  }

  /** One query head of one program of the kernel. None is the NaN it writes for bad metadata. */
  method KernelLane(m: Model, pages: seq<Page>, size: nat, row: Row, contextLen: int, q: Vector, kvHead: nat, block: nat)
    returns (out: Option<Vector>)
    requires ModelOk(m) && Pool(pages, size) && |q| == m.dim && size <= block
    ensures out.Some? <==> RowAccepted(|pages|, size, row, contextLen)
    ensures out.Some? ==> (forall x: real :: m.exp(x) > 0.0) && out.value == Attend(m, q, kvHead, RowTokens(pages, size, row, contextLen))
    ensures out.Some? ==> IsSoftmax(m, q, kvHead, RowTokens(pages, size, row, contextLen), out.value)
  {
    hide ModelOk, Running, RowCovers, RowTokens, Attend, IsSoftmax;
    var metadataValid := contextLen > 0 && contextLen <= |row| * size;
    var runningMax: Option<real> := None;
    var runningSum := 0.0;
    var accumulator: Vector := seq(m.dim, _ => 0.0);
    ghost var accepted := RowAccepted(|pages|, size, row, contextLen);
    ghost var tokens := if accepted then RowTokens(pages, size, row, contextLen) else [];
    NothingRunning(m, q, kvHead, accumulator);
    for pageSlot := 0 to |row|
      invariant metadataValid <==> CheckedSoFar(|pages|, size, row, contextLen, pageSlot)
      invariant |accumulator| == m.dim
      invariant accepted ==> Running(m, q, kvHead, tokens[..SeenAt(contextLen, size, pageSlot)], runningMax, runningSum, accumulator)
    {
      var pageActive := pageSlot * size < contextLen;
      var pageId := if pageActive then row[pageSlot] else 0;
      var pageIdValid := 0 <= pageId < |pages|;
      CheckOneMore(|pages|, size, row, contextLen, pageSlot);
      metadataValid := metadataValid && (!pageActive || pageIdValid);
      var validPageActive := pageActive && metadataValid;
      var safePageId := if pageIdValid then pageId else 0;
      var visible := if validPageActive then Min(size, contextLen - pageSlot * size) else 0;
      ghost var seen := if accepted then tokens[..SeenAt(contextLen, size, pageSlot)] else [];
      runningMax, runningSum, accumulator :=
        KernelPage(m, q, kvHead, pages[safePageId], block, visible, validPageActive, runningMax, runningSum, accumulator, seen);
      if accepted {
        SeenGrows(pages, size, row, contextLen, pageSlot, tokens);
      }
    }
    CheckedIsAccepted(|pages|, size, row, contextLen);
    if !metadataValid { return None; }
    SeenAll(contextLen, size, |row|);
    assert tokens[..|tokens|] == tokens;
    LaneEnds(m, q, kvHead, tokens, runningMax, runningSum, accumulator);
    HeadIsSoftmax(m, q, kvHead, tokens);
    var denominator := if runningSum > 0.0 then runningSum else 1.0;
    out := Some(seq(m.dim, d requires 0 <= d < m.dim => accumulator[d] / denominator));
  }

  lemma NothingRunning(m: Model, q: Vector, kvHead: nat, acc: Vector)
    requires ModelOk(m) && |q| == m.dim && |acc| == m.dim && forall d :: 0 <= d < m.dim ==> acc[d] == 0.0
    ensures Running(m, q, kvHead, [], None, 0.0, acc)
  {
  }

  lemma CheckOneMore(numPages: nat, size: nat, row: Row, contextLen: int, slot: nat)
    requires slot < |row|
    ensures CheckedSoFar(numPages, size, row, contextLen, slot + 1)
       <==> CheckedSoFar(numPages, size, row, contextLen, slot) && (slot * size < contextLen ==> 0 <= row[slot] < numPages)
  {
  }

  /** The path seen after one more page. */
  lemma SeenGrows(pages: seq<Page>, size: nat, row: Row, contextLen: int, slot: nat, tokens: seq<Token>)
    requires Pool(pages, size) && RowAccepted(|pages|, size, row, contextLen) && slot < |row|
    requires tokens == RowTokens(pages, size, row, contextLen)
    ensures CheckedSoFar(|pages|, size, row, contextLen, slot + 1)
    ensures slot * size >= contextLen ==> SeenAt(contextLen, size, slot + 1) == SeenAt(contextLen, size, slot)
    ensures slot * size < contextLen ==>
              && 0 <= row[slot] < |pages|
              && tokens[..SeenAt(contextLen, size, slot + 1)]
                 == tokens[..SeenAt(contextLen, size, slot)] + pages[row[slot]][..Min(size, contextLen - slot * size)]
  {
    AcceptedIsChecked(|pages|, size, row, contextLen, slot + 1);
    assert (slot + 1) * size == slot * size + size;
    if slot * size < contextLen {
      PageTokens(pages, size, row, contextLen, slot);
      var lo, hi := slot * size, slot * size + Min(size, contextLen - slot * size);
      assert tokens[..hi] == tokens[..lo] + tokens[lo..hi];
    }
  }

  lemma SeenAll(contextLen: int, size: nat, slots: nat)
    requires 0 < contextLen <= slots * size
    ensures SeenAt(contextLen, size, slots) == contextLen
  {
  }

  // ---------------------------------------------------------------------------
  // Whole batches
  // ---------------------------------------------------------------------------

  ghost predicate BatchOk(m: Model, tables: seq<Row>, contextLens: seq<int>, qs: seq<seq<Vector>>) {
    && |tables| == |contextLens| == |qs|
    && forall b :: 0 <= b < |qs| ==> QueriesOk(m, qs[b])
  }

  /** Outputs without a NaN. */
  function Shown(heads: seq<Vector>): (r: seq<Option<Vector>>)
    ensures |r| == |heads|
  {
    seq(|heads|, h requires 0 <= h < |heads| => Some(heads[h]))
  }

  lemma ReferenceIsSoftmax(m: Model, pages: seq<Page>, size: nat, row: Row, contextLen: int, q: seq<Vector>)
    requires ModelOk(m) && Pool(pages, size) && QueriesOk(m, q)
    ensures var output := ReferenceBranch(m, pages, size, row, contextLen, q);
            && (output.Some? <==> RowAccepted(|pages|, size, row, contextLen))
            && (output.Some? ==> RowIsSoftmax(m, pages, size, row, contextLen, q, Shown(output.value)))
  {
    hide IsExponential, IsSoftmax, Attend, RowTokens, RowCovers;
    if RowAccepted(|pages|, size, row, contextLen) {
      var tokens := RowTokens(pages, size, row, contextLen);
      forall h: nat | h < |q|
        ensures (forall x: real :: m.exp(x) > 0.0) && IsSoftmax(m, q[h], h / m.queriesPerKv, tokens, Attend(m, q[h], h / m.queriesPerKv, tokens))
      {
        HeadIsSoftmax(m, q[h], h / m.queriesPerKv, tokens);
      }
    }
  }

  /** The reference computes branch after branch and stops at the first it cannot accept. */
  method ReferenceDecode(m: Model, pages: seq<Page>, size: nat, tables: seq<Row>, contextLens: seq<int>, qs: seq<seq<Vector>>)
    returns (outputs: Option<seq<seq<Vector>>>)
    requires ModelOk(m) && Pool(pages, size) && BatchOk(m, tables, contextLens, qs)
    ensures outputs.Some? <==> forall b :: 0 <= b < |qs| ==> RowAccepted(|pages|, size, tables[b], contextLens[b])
    ensures outputs.Some? ==>
              && |outputs.value| == |qs|
              && forall b :: 0 <= b < |qs| ==>
                   ReferenceBranch(m, pages, size, tables[b], contextLens[b], qs[b]) == Some(outputs.value[b])
    ensures outputs.Some? ==>
              forall b :: 0 <= b < |qs| ==>
                RowIsSoftmax(m, pages, size, tables[b], contextLens[b], qs[b], Shown(outputs.value[b]))
  {
    hide ReferenceBranch, RowIsSoftmax, ModelOk;
    var branchOutputs: seq<seq<Vector>> := [];
    for b := 0 to |qs|
      invariant |branchOutputs| == b
      invariant forall i :: 0 <= i < b ==>
                  && RowAccepted(|pages|, size, tables[i], contextLens[i])
                  && ReferenceBranch(m, pages, size, tables[i], contextLens[i], qs[i]) == Some(branchOutputs[i])
                  && RowIsSoftmax(m, pages, size, tables[i], contextLens[i], qs[i], Shown(branchOutputs[i]))
    {
      var output := ReferenceBranch(m, pages, size, tables[b], contextLens[b], qs[b]);
      ReferenceIsSoftmax(m, pages, size, tables[b], contextLens[b], qs[b]);
      if output.None? { return None; }
      branchOutputs := branchOutputs + [output.value];
    }
    outputs := Some(branchOutputs);
  }

  /** What the kernel writes for query head h: NaN for a branch the reference rejects, else its output. */
  ghost predicate HeadAgrees(reference: Option<seq<Vector>>, h: nat, out: Option<Vector>) {
    match reference
    case None => out == None
    case Some(heads) => h < |heads| && out == Some(heads[h])
  }

  lemma HeadIndex(m: Model, kvHead: nat, offset: nat)
    requires offset < m.queriesPerKv && kvHead < m.numKvHeads
    ensures (kvHead * m.queriesPerKv + offset) / m.queriesPerKv == kvHead
    ensures kvHead * m.queriesPerKv + offset < m.numKvHeads * m.queriesPerKv
    ensures (kvHead + 1) * m.queriesPerKv == kvHead * m.queriesPerKv + m.queriesPerKv
  {
    DivUnique(kvHead, offset, m.queriesPerKv);
    MulStep(kvHead, m.numKvHeads, m.queriesPerKv);
  }

  lemma LaneAgrees(m: Model, pages: seq<Page>, size: nat, row: Row, contextLen: int, q: seq<Vector>, h: nat, kvHead: nat,
                   out: Option<Vector>)
    requires ModelOk(m) && Pool(pages, size) && QueriesOk(m, q) && h < |q| && h / m.queriesPerKv == kvHead
    requires out.Some? <==> RowAccepted(|pages|, size, row, contextLen)
    requires out.Some? ==>
               && (forall x: real :: m.exp(x) > 0.0)
               && out.value == Attend(m, q[h], kvHead, RowTokens(pages, size, row, contextLen))
    ensures HeadAgrees(ReferenceBranch(m, pages, size, row, contextLen, q), h, out)
  {
    hide Attend, RowTokens, RowCovers;
  }

  /** The programs of one branch: every KV head with its group of query heads. */
  method KernelBranch(m: Model, pages: seq<Page>, size: nat, row: Row, contextLen: int, q: seq<Vector>, block: nat)
    returns (out: seq<Option<Vector>>)
    requires ModelOk(m) && Pool(pages, size) && QueriesOk(m, q) && size <= block
    ensures |out| == |q|
    ensures forall h :: 0 <= h < |q| ==> HeadAgrees(ReferenceBranch(m, pages, size, row, contextLen, q), h, out[h])
  {
    hide HeadAgrees, ReferenceBranch, ModelOk, Attend;
    out := [];
    for kvHead := 0 to m.numKvHeads
      invariant |out| == kvHead * m.queriesPerKv
      invariant forall h :: 0 <= h < |out| ==> h < |q| && HeadAgrees(ReferenceBranch(m, pages, size, row, contextLen, q), h, out[h])
    {
      for offset := 0 to m.queriesPerKv
        invariant |out| == kvHead * m.queriesPerKv + offset
        invariant forall h :: 0 <= h < |out| ==> h < |q| && HeadAgrees(ReferenceBranch(m, pages, size, row, contextLen, q), h, out[h])
      {
        HeadIndex(m, kvHead, offset);
        var lane := KernelLane(m, pages, size, row, contextLen, q[|out|], kvHead, block);
        LaneAgrees(m, pages, size, row, contextLen, q, |out|, kvHead, lane);
        out := out + [lane];
      }
      NextHead(m, kvHead);
    }
  }

  lemma NextHead(m: Model, kvHead: nat)
    ensures (kvHead + 1) * m.queriesPerKv == kvHead * m.queriesPerKv + m.queriesPerKv
  {
  }

  /** The whole launch. Branch by branch the kernel writes what the reference computes for that branch
      alone, and NaN exactly where the reference rejects the branch's metadata. */
  method KernelDecode(m: Model, pages: seq<Page>, size: nat, tables: seq<Row>, contextLens: seq<int>, qs: seq<seq<Vector>>, block: nat)
    returns (out: seq<seq<Option<Vector>>>)
    requires ModelOk(m) && Pool(pages, size) && BatchOk(m, tables, contextLens, qs) && size <= block
    ensures |out| == |qs|
    ensures forall b :: 0 <= b < |qs| ==> BranchAgrees(m, pages, size, tables[b], contextLens[b], qs[b], out[b])
    ensures forall b :: 0 <= b < |qs| ==> RowIsSoftmax(m, pages, size, tables[b], contextLens[b], qs[b], out[b])
  {
    hide HeadAgrees, ReferenceBranch, ModelOk, RowIsSoftmax;
    out := [];
    for b := 0 to |qs|
      invariant |out| == b
      invariant forall i :: 0 <= i < b ==> BranchAgrees(m, pages, size, tables[i], contextLens[i], qs[i], out[i])
      invariant forall i :: 0 <= i < b ==> RowIsSoftmax(m, pages, size, tables[i], contextLens[i], qs[i], out[i])
    {
      var heads := KernelBranch(m, pages, size, tables[b], contextLens[b], qs[b], block);
      assert BranchAgrees(m, pages, size, tables[b], contextLens[b], qs[b], heads);
      AgreeingIsSoftmax(m, pages, size, tables[b], contextLens[b], qs[b], heads);
      out := out + [heads];
    }
  }

  lemma AgreeingIsSoftmax(m: Model, pages: seq<Page>, size: nat, row: Row, contextLen: int, q: seq<Vector>, out: seq<Option<Vector>>)
    requires ModelOk(m) && Pool(pages, size) && QueriesOk(m, q) && BranchAgrees(m, pages, size, row, contextLen, q, out)
    ensures RowIsSoftmax(m, pages, size, row, contextLen, q, out)
  {
    hide ModelOk, IsSoftmax, ReferenceBranch, RowTokens, RowCovers;
    ReferenceIsSoftmax(m, pages, size, row, contextLen, q);
    var output := ReferenceBranch(m, pages, size, row, contextLen, q);
    if output.Some? { assert out == Shown(output.value); }
  }

  ghost predicate BranchAgrees(m: Model, pages: seq<Page>, size: nat, row: Row, contextLen: int, q: seq<Vector>, out: seq<Option<Vector>>)
    requires ModelOk(m) && Pool(pages, size) && QueriesOk(m, q)
  {
    && |out| == |q|
    && forall h :: 0 <= h < |q| ==> HeadAgrees(ReferenceBranch(m, pages, size, row, contextLen, q), h, out[h])
  }

  // ---------------------------------------------------------------------------
  // On the branch store
  // ---------------------------------------------------------------------------

  /** Attention over the branches as they stand: NaN for a branch without tokens, and otherwise each query
      head attends to exactly the branch's token path. */
  method StoreAttention(tree: TS.TreeState, m: Model, ids: seq<nat>, qs: seq<seq<Vector>>, block: nat)
    returns (out: seq<seq<Option<Vector>>>)
    requires tree.Valid() && |ids| == |qs| && forall k :: 0 <= k < |ids| ==> ids[k] in tree.branches
    requires ModelOk(m) && (forall k :: 0 <= k < |qs| ==> QueriesOk(m, qs[k]))
    requires tree.pool.pageSize <= block && tree.pool.cache.Length > 0
    ensures |out| == |ids|
    ensures forall k :: 0 <= k < |ids| ==> AttendsOrNaN(m, qs[k], tree.Contents()[ids[k]], out[k])
    ensures forall k :: 0 <= k < |ids| && tree.Contents()[ids[k]] != [] ==> PathIsSoftmax(m, qs[k], tree.Contents()[ids[k]], out[k])
  {
    hide ModelOk, BranchAgrees, ReadsBranch, AttendsOrNaN, StoreInv, PathIsSoftmax;
    var tables, contextLens := AttentionMetadata(tree, ids);
    StorePages(tree.Snapshot());
    out := KernelDecode(m, tree.pool.cache[..], tree.pool.pageSize, tables, contextLens, qs, block);
    forall k | 0 <= k < |ids|
      ensures AttendsOrNaN(m, qs[k], tree.Contents()[ids[k]], out[k])
    {
      BranchAttends(tree.Snapshot(), m, ids[k], tables[k], contextLens[k], qs[k], out[k]);
    }
    forall k | 0 <= k < |ids| && tree.Contents()[ids[k]] != []
      ensures PathIsSoftmax(m, qs[k], tree.Contents()[ids[k]], out[k])
    {
      SomeAttended(m, qs[k], tree.Contents()[ids[k]], out[k]);
      AttendingIsSoftmax(m, qs[k], tree.Contents()[ids[k]], out[k]);
    }
  }

  lemma SomeAttended(m: Model, q: seq<Vector>, tokens: seq<Token>, out: seq<Option<Vector>>)
    requires ModelOk(m) && QueriesOk(m, q) && tokens != [] && AttendsOrNaN(m, q, tokens, out)
    ensures AttendsTo(m, q, tokens, out)
  {
  }

  lemma AttendingIsSoftmax(m: Model, q: seq<Vector>, tokens: seq<Token>, out: seq<Option<Vector>>)
    requires ModelOk(m) && QueriesOk(m, q) && tokens != [] && AttendsTo(m, q, tokens, out)
    ensures PathIsSoftmax(m, q, tokens, out)
  {
    hide IsExponential, IsSoftmax, Attend;
    forall h: nat | h < |q|
      ensures out[h].Some? && IsSoftmax(m, q[h], h / m.queriesPerKv, tokens, out[h].value)
    {
      HeadIsSoftmax(m, q[h], h / m.queriesPerKv, tokens);
    }
  }

  ghost predicate AttendsOrNaN(m: Model, q: seq<Vector>, tokens: seq<Token>, out: seq<Option<Vector>>)
    requires ModelOk(m) && QueriesOk(m, q)
  {
    if tokens == [] then |out| == |q| && forall h :: 0 <= h < |q| ==> out[h] == None
    else AttendsTo(m, q, tokens, out)
  }

  lemma StorePages(s: Store)
    requires StoreInv(s, 0) && |s.pool.pages| > 0
    ensures Pool(s.pool.pages, s.pool.pageSize)
  {
  }

  lemma BranchAttends(s: Store, m: Model, b: nat, row: Row, contextLen: nat, q: seq<Vector>, out: seq<Option<Vector>>)
    requires StoreInv(s, 0) && ReadsBranch(s, b, row, contextLen) && Pool(s.pool.pages, s.pool.pageSize)
    requires ModelOk(m) && QueriesOk(m, q) && BranchAgrees(m, s.pool.pages, s.pool.pageSize, row, contextLen, q, out)
    ensures AttendsOrNaN(m, q, View(s)[b], out)
  {
    hide ModelOk, Attend;
    var tokens := RowTokens(s.pool.pages, s.pool.pageSize, row, contextLen);
    assert |tokens| == contextLen && tokens == View(s)[b];
    assert RowAccepted(|s.pool.pages|, s.pool.pageSize, row, contextLen) <==> contextLen > 0;
  }

  /** A decode step over a batch of branches: each query head attends to the branch's whole token path and
      the new token, with no NaN, although the tokens are not in the store yet. */
  method ForestAttention(tree: TS.TreeState, m: Model, ids: seq<nat>, newTokens: seq<Token>, qs: seq<seq<Vector>>, block: nat)
    returns (out: seq<seq<Option<Vector>>>)
    requires tree.Valid() && |newTokens| == |ids| == |qs| && forall k :: 0 <= k < |ids| ==> ids[k] in tree.branches
    requires ModelOk(m) && (forall k :: 0 <= k < |qs| ==> QueriesOk(m, qs[k])) && tree.pool.pageSize <= block
    ensures |out| == |ids|
    ensures forall k :: 0 <= k < |ids| ==> AttendsTo(m, qs[k], tree.Contents()[ids[k]] + [newTokens[k]], out[k])
    ensures forall k :: 0 <= k < |ids| ==> PathIsSoftmax(m, qs[k], tree.Contents()[ids[k]] + [newTokens[k]], out[k])
  {
    hide ModelOk, BranchAgrees, ReadsAsAppended, AttendsTo, StoreInv, PathIsSoftmax;
    var tables, contextLens, temps := ForestStep(tree, ids, newTokens);
    var pages := tree.pool.cache[..] + temps;
    if |ids| == 0 { return []; }
    StepPages(tree.Snapshot(), ids[0], newTokens[0], pages, tables[0], contextLens[0], temps);
    out := KernelDecode(m, pages, tree.pool.pageSize, tables, contextLens, qs, block);
    forall k | 0 <= k < |ids|
      ensures AttendsTo(m, qs[k], tree.Contents()[ids[k]] + [newTokens[k]], out[k])
      ensures PathIsSoftmax(m, qs[k], tree.Contents()[ids[k]] + [newTokens[k]], out[k])
    {
      StepAttends(tree.Snapshot(), m, ids[k], newTokens[k], pages, tables[k], contextLens[k], qs[k], out[k]);
      AttendingIsSoftmax(m, qs[k], tree.Contents()[ids[k]] + [newTokens[k]], out[k]);
    }
  }

  ghost predicate AttendsTo(m: Model, q: seq<Vector>, tokens: seq<Token>, out: seq<Option<Vector>>)
    requires ModelOk(m) && QueriesOk(m, q) && tokens != []
  {
    ExponentialsOk(m);
    && |out| == |q|
    && forall h :: 0 <= h < |q| ==> out[h] == Some(Attend(m, q[h], h / m.queriesPerKv, tokens))
  }

  lemma StepPages(s: Store, b: nat, token: Token, pages: seq<Page>, row: Row, contextLen: nat, temps: seq<Page>)
    requires StoreInv(s, 0) && b in s.branches && ReadsAsAppended(s, b, token, pages, row, contextLen)
    requires temps != [] && pages == s.pool.pages + temps
    ensures Pool(pages, s.pool.pageSize)
  {
  }

  lemma StepAttends(s: Store, m: Model, b: nat, token: Token, pages: seq<Page>, row: Row, contextLen: nat, q: seq<Vector>,
                    out: seq<Option<Vector>>)
    requires StoreInv(s, 0) && b in s.branches && ReadsAsAppended(s, b, token, pages, row, contextLen)
    requires ModelOk(m) && QueriesOk(m, q) && Pool(pages, s.pool.pageSize)
    requires BranchAgrees(m, pages, s.pool.pageSize, row, contextLen, q, out)
    ensures AttendsTo(m, q, View(s)[b] + [token], out)
  {
    hide ModelOk, Attend;
    var tokens := RowTokens(pages, s.pool.pageSize, row, contextLen);
    assert |tokens| == contextLen && tokens == View(s)[b] + [token];
    assert RowAccepted(|pages|, s.pool.pageSize, row, contextLen);
  }
}
