/** Decode attention over a token path: the one-shot softmax (core/autotree_core/kernels/reference.py) and the
    algebra that lets it be computed page by page. */
module Attention {
  import opened KvPool

  type Vector = seq<real>

  /** log2(e), as the kernel writes it. */
  const LOG2E: real := 1.4426950408889634

  /** Shapes, scale and the opaque parts of the network: what a token's key and value are for a KV head,
      and the two exponentials. */
  datatype Model = Model(
    dim: nat,
    queriesPerKv: nat,
    numKvHeads: nat,
    scale: real,
    key: (Token, nat) -> Vector,
    value: (Token, nat) -> Vector,
    exp2: real -> real,
    exp: real -> real)

  /** A positive function that turns sums into products. */
  ghost predicate IsExponential(f: real -> real) {
    && (forall x: real :: f(x) > 0.0)
    && (forall x: real, y: real :: f(x + y) == f(x) * f(y))
  }

  ghost predicate ModelOk(m: Model) {
    && m.queriesPerKv > 0
    && m.numKvHeads > 0
    && (forall t: Token, h: nat :: |m.key(t, h)| == m.dim && |m.value(t, h)| == m.dim)
    && IsExponential(m.exp2)
    && (forall x: real :: m.exp(x) == m.exp2(x * LOG2E))
  }

  function Dot(a: Vector, b: Vector): real
    requires |a| == |b|
  {
    if a == [] then 0.0 else Dot(a[..|a| - 1], b[..|b| - 1]) + a[|a| - 1] * b[|b| - 1]
  }

  /** The scaled score of one token. */
  function Logit(m: Model, q: Vector, kvHead: nat, token: Token): real
    requires |q| == m.dim && |m.key(token, kvHead)| == m.dim
  {
    Dot(q, m.key(token, kvHead)) * m.scale
  }

  function Logits(m: Model, q: Vector, kvHead: nat, tokens: seq<Token>): (r: seq<real>)
    requires |q| == m.dim && forall t: Token :: |m.key(t, kvHead)| == m.dim
    ensures |r| == |tokens|
  {
    seq(|tokens|, i requires 0 <= i < |tokens| => Logit(m, q, kvHead, tokens[i]))
  }

  function Values(m: Model, kvHead: nat, tokens: seq<Token>): (r: seq<Vector>)
    ensures |r| == |tokens|
  {
    seq(|tokens|, i requires 0 <= i < |tokens| => m.value(tokens[i], kvHead))
  }

  /** The sum of f over the scores. */
  function Total(f: real -> real, scores: seq<real>): real {
    if scores == [] then 0.0 else Total(f, scores[..|scores| - 1]) + f(scores[|scores| - 1])
  }

  /** The probability-weighted sum of one coordinate of the values. */
  function Mixed(f: real -> real, total: real, scores: seq<real>, values: seq<Vector>, d: nat): real
    requires |values| == |scores| && total != 0.0 && forall i :: 0 <= i < |values| ==> d < |values[i]|
  {
    var n := |scores|;
    if n == 0 then 0.0
    else Mixed(f, total, scores[..n - 1], values[..n - 1], d) + f(scores[n - 1]) / total * values[n - 1][d]
  }

  lemma {:induction false} TotalPositive(f: real -> real, scores: seq<real>)
    requires forall x: real :: f(x) > 0.0
    ensures Total(f, scores) >= 0.0
    ensures scores != [] ==> Total(f, scores) > 0.0
  {
    if scores != [] { TotalPositive(f, scores[..|scores| - 1]); }
  }

  /** Attention over the whole path: softmax first, then the weighted sum, one coordinate at a time. */
  function Attend(m: Model, q: Vector, kvHead: nat, tokens: seq<Token>): (r: Vector)
    requires |q| == m.dim && tokens != [] && (forall x: real :: m.exp(x) > 0.0)
    requires forall t: Token :: |m.key(t, kvHead)| == m.dim && |m.value(t, kvHead)| == m.dim
    ensures |r| == m.dim
  {
    var logits := Logits(m, q, kvHead, tokens);
    TotalPositive(m.exp, logits);
    seq(m.dim, d requires 0 <= d < m.dim => Mixed(m.exp, Total(m.exp, logits), logits, Values(m, kvHead, tokens), d))
  }

  // ---------------------------------------------------------------------------
  // The result in indexed sums
  // ---------------------------------------------------------------------------

  /** The sum of q[d] * k[d] over the first n coordinates. */
  ghost function Product(q: Vector, k: Vector, n: nat): real
    requires n <= |q| && n <= |k|
  {
    if n == 0 then 0.0 else Product(q, k, n - 1) + q[n - 1] * k[n - 1]
  }

  /** The product of the query and a token's key, times the scale. */
  ghost function Score(m: Model, q: Vector, kvHead: nat, token: Token): real
    requires |q| == m.dim && |m.key(token, kvHead)| == m.dim
  {
    Product(q, m.key(token, kvHead), m.dim) * m.scale
  }

  /** What a token weighs before normalising. */
  ghost function Weight(m: Model, q: Vector, kvHead: nat, token: Token): real
    requires |q| == m.dim && |m.key(token, kvHead)| == m.dim
  {
    m.exp(Score(m, q, kvHead, token))
  }

  ghost function WeightSum(m: Model, q: Vector, kvHead: nat, tokens: seq<Token>, n: nat): real
    requires |q| == m.dim && n <= |tokens| && forall t: Token :: |m.key(t, kvHead)| == m.dim
  {
    if n == 0 then 0.0 else WeightSum(m, q, kvHead, tokens, n - 1) + Weight(m, q, kvHead, tokens[n - 1])
  }

  ghost function ValueSum(m: Model, q: Vector, kvHead: nat, tokens: seq<Token>, n: nat, d: nat): real
    requires |q| == m.dim && n <= |tokens| && forall t: Token :: |m.key(t, kvHead)| == m.dim && d < |m.value(t, kvHead)|
  {
    if n == 0 then 0.0
    else ValueSum(m, q, kvHead, tokens, n - 1, d) + Weight(m, q, kvHead, tokens[n - 1]) * m.value(tokens[n - 1], kvHead)[d]
  }

  /** Each coordinate is the weighted average of the tokens' values, the weight of a token being the exponential of its
      scaled product with the query. */
  ghost predicate IsSoftmax(m: Model, q: Vector, kvHead: nat, tokens: seq<Token>, out: Vector)
    requires |q| == m.dim && forall t: Token :: |m.key(t, kvHead)| == m.dim && |m.value(t, kvHead)| == m.dim
  {
    && |out| == m.dim
    && WeightSum(m, q, kvHead, tokens, |tokens|) > 0.0
    && forall d :: 0 <= d < m.dim ==>
         out[d] * WeightSum(m, q, kvHead, tokens, |tokens|) == ValueSum(m, q, kvHead, tokens, |tokens|, d)
  }

  lemma {:induction false} ProductIsDot(q: Vector, k: Vector, n: nat)
    requires n <= |q| && n <= |k|
    ensures Product(q, k, n) == Dot(q[..n], k[..n])
  {
    if n > 0 {
      ProductIsDot(q, k, n - 1);
      assert q[..n][..n - 1] == q[..n - 1] && k[..n][..n - 1] == k[..n - 1];
    }
  }

  lemma ScoreIsLogit(m: Model, q: Vector, kvHead: nat, token: Token)
    requires |q| == m.dim && |m.key(token, kvHead)| == m.dim
    ensures Score(m, q, kvHead, token) == Logit(m, q, kvHead, token)
  {
    var k := m.key(token, kvHead);
    ProductIsDot(q, k, m.dim);
    assert q[..m.dim] == q && k[..m.dim] == k;
  }

  lemma WeightIsExp(m: Model, q: Vector, kvHead: nat, token: Token)
    requires |q| == m.dim && |m.key(token, kvHead)| == m.dim
    ensures Weight(m, q, kvHead, token) == m.exp(Logit(m, q, kvHead, token))
  {
    hide Score, Logit;
    ScoreIsLogit(m, q, kvHead, token);
  }

  lemma {:induction false} WeightSumIsTotal(m: Model, q: Vector, kvHead: nat, tokens: seq<Token>, n: nat)
    requires |q| == m.dim && n <= |tokens| && forall t: Token :: |m.key(t, kvHead)| == m.dim
    ensures WeightSum(m, q, kvHead, tokens, n) == Total(m.exp, Logits(m, q, kvHead, tokens)[..n])
  {
    hide Logit, Weight;
    if n > 0 {
      WeightSumIsTotal(m, q, kvHead, tokens, n - 1);
      WeightIsExp(m, q, kvHead, tokens[n - 1]);
      var scores := Logits(m, q, kvHead, tokens);
      assert scores[..n][..n - 1] == scores[..n - 1];
    }
  }

  lemma ScaledUp(a: real, w: real, v: real, total: real)
    requires total > 0.0
    ensures (a + w / total * v) * total == a * total + w * v
  {
    var x := w / total;
    assert x * total == w;
    assert (a + x * v) * total == a * total + x * total * v;
  }

  lemma {:induction false} MixedIsValueSum(m: Model, q: Vector, kvHead: nat, tokens: seq<Token>, n: nat, total: real, d: nat)
    requires |q| == m.dim && n <= |tokens| && total > 0.0
    requires forall t: Token :: |m.key(t, kvHead)| == m.dim && d < |m.value(t, kvHead)|
    ensures Mixed(m.exp, total, Logits(m, q, kvHead, tokens)[..n], Values(m, kvHead, tokens)[..n], d) * total
         == ValueSum(m, q, kvHead, tokens, n, d)
  {
    hide Logit, Weight;
    if n > 0 {
      MixedIsValueSum(m, q, kvHead, tokens, n - 1, total, d);
      WeightIsExp(m, q, kvHead, tokens[n - 1]);
      var scores, values := Logits(m, q, kvHead, tokens), Values(m, kvHead, tokens);
      assert scores[..n][..n - 1] == scores[..n - 1] && values[..n][..n - 1] == values[..n - 1];
      ScaledUp(Mixed(m.exp, total, scores[..n - 1], values[..n - 1], d), m.exp(scores[n - 1]), values[n - 1][d], total);
    }
  }

  lemma AttendIsSoftmax(m: Model, q: Vector, kvHead: nat, tokens: seq<Token>)
    requires |q| == m.dim && tokens != [] && (forall x: real :: m.exp(x) > 0.0)
    requires forall t: Token :: |m.key(t, kvHead)| == m.dim && |m.value(t, kvHead)| == m.dim
    ensures IsSoftmax(m, q, kvHead, tokens, Attend(m, q, kvHead, tokens))
  {
    hide Logit, Total, Mixed;
    var n := |tokens|;
    var scores, values := Logits(m, q, kvHead, tokens), Values(m, kvHead, tokens);
    assert scores[..n] == scores && values[..n] == values;
    TotalPositive(m.exp, scores);
    WeightSumIsTotal(m, q, kvHead, tokens, n);
    forall d: nat | d < m.dim
      ensures Attend(m, q, kvHead, tokens)[d] * WeightSum(m, q, kvHead, tokens, n) == ValueSum(m, q, kvHead, tokens, n, d)
    {
      MixedIsValueSum(m, q, kvHead, tokens, n, Total(m.exp, scores), d);
    }
  }

  lemma ExpAt(m: Model, x: real, a: real)
    requires ModelOk(m) && a == x * LOG2E
    ensures m.exp(x) == m.exp2(a) > 0.0
  {
  }

  lemma ProductOfExps(f: real -> real, a: real, b: real, c: real)
    requires IsExponential(f) && c == a + b
    ensures f(c) == f(a) * f(b)
  {
  }

  lemma DivideOut(a: real, b: real, r: real)
    requires b > 0.0 && a == r * b
    ensures a / b == r
  {
  }

  lemma RatioOfExps(m: Model, x: real, y: real, z: real)
    requires ModelOk(m) && z == x - y
    ensures m.exp(y) > 0.0 && m.exp(x) / m.exp(y) == m.exp(z)
  {
    ExpAt(m, x, x * LOG2E);
    ExpAt(m, y, y * LOG2E);
    ExpAt(m, z, z * LOG2E);
    ExponentialsOk(m);
    hide ModelOk, IsExponential;
    ProductOfExps(m.exp2, z * LOG2E, y * LOG2E, x * LOG2E);
    DivideOut(m.exp(x), m.exp(y), m.exp(z));
  }

  /** Two tokens weigh as the exponential of the scaled difference of their products with the query. */
  lemma WeightRatio(m: Model, q: Vector, kvHead: nat, a: Token, b: Token, difference: real)
    requires ModelOk(m) && |q| == m.dim && |m.key(a, kvHead)| == m.dim && |m.key(b, kvHead)| == m.dim
    requires difference == Product(q, m.key(a, kvHead), m.dim) - Product(q, m.key(b, kvHead), m.dim)
    ensures Weight(m, q, kvHead, b) > 0.0
    ensures Weight(m, q, kvHead, a) / Weight(m, q, kvHead, b) == m.exp(difference * m.scale)
  {
    ScoresDiffer(m, q, kvHead, a, b, difference);
    hide Product, ModelOk, Score;
    RatioOfExps(m, Score(m, q, kvHead, a), Score(m, q, kvHead, b), difference * m.scale);
  }

  lemma ScoresDiffer(m: Model, q: Vector, kvHead: nat, a: Token, b: Token, difference: real)
    requires |q| == m.dim && |m.key(a, kvHead)| == m.dim && |m.key(b, kvHead)| == m.dim
    requires difference == Product(q, m.key(a, kvHead), m.dim) - Product(q, m.key(b, kvHead), m.dim)
    ensures difference * m.scale == Score(m, q, kvHead, a) - Score(m, q, kvHead, b)
  {
    Distributes(Product(q, m.key(a, kvHead), m.dim), Product(q, m.key(b, kvHead), m.dim), m.scale);
  }

  lemma Distributes(p: real, r: real, s: real)
    ensures (p - r) * s == p * s - r * s
  {
  }

  // ---------------------------------------------------------------------------
  // Sums relative to a maximum
  // ---------------------------------------------------------------------------

  /** The exponential mass of the scores relative to `base`. */
  function Mass(exp2: real -> real, scores: seq<real>, base: real): real {
    if scores == [] then 0.0 else Mass(exp2, scores[..|scores| - 1], base) + exp2(scores[|scores| - 1] - base)
  }

  /** One coordinate of the values, weighted by the exponentials relative to `base`. */
  function Pull(exp2: real -> real, scores: seq<real>, values: seq<Vector>, base: real, d: nat): real
    requires |values| == |scores| && forall i :: 0 <= i < |values| ==> d < |values[i]|
  {
    var n := |scores|;
    if n == 0 then 0.0
    else Pull(exp2, scores[..n - 1], values[..n - 1], base, d) + exp2(scores[n - 1] - base) * values[n - 1][d]
  }

  /** exp2(x - next) factors through exp2(x - base). */
  lemma Shifted(exp2: real -> real, x: real, base: real, next: real)
    requires IsExponential(exp2)
    ensures exp2(x - next) == exp2(x - base) * exp2(base - next)
  {
    var a, b := x - base, base - next;
    assert a + b == x - next;
    assert exp2(a + b) == exp2(a) * exp2(b);
  }

  lemma Positive(exp2: real -> real, x: real)
    requires IsExponential(exp2)
    ensures exp2(x) > 0.0
  {
  }

  lemma FactorOut(a: real, b: real, v: real, shift: real)
    ensures a * shift + b * shift == (a + b) * shift
    ensures a * shift + b * shift * v == (a + b * v) * shift
  {
  }

  lemma {:induction false} Rebase(exp2: real -> real, scores: seq<real>, values: seq<Vector>, base: real, next: real, d: nat)
    requires IsExponential(exp2) && |values| == |scores| && forall i :: 0 <= i < |values| ==> d < |values[i]|
    ensures Mass(exp2, scores, next) == Mass(exp2, scores, base) * exp2(base - next)
    ensures Pull(exp2, scores, values, next, d) == Pull(exp2, scores, values, base, d) * exp2(base - next)
  {
    hide IsExponential;
    var n := |scores|;
    if n > 0 {
      Rebase(exp2, scores[..n - 1], values[..n - 1], base, next, d);
      Shifted(exp2, scores[n - 1], base, next);
      var b, v, shift := exp2(scores[n - 1] - base), values[n - 1][d], exp2(base - next);
      FactorOut(Mass(exp2, scores[..n - 1], base), b, v, shift);
      FactorOut(Pull(exp2, scores[..n - 1], values[..n - 1], base, d), b, v, shift);
    }
  }

  lemma {:induction false} MassConcat(exp2: real -> real, a: seq<real>, b: seq<real>, base: real)
    ensures Mass(exp2, a + b, base) == Mass(exp2, a, base) + Mass(exp2, b, base)
  {
    if b == [] {
      assert a + b == a;
    } else {
      assert (a + b)[..|a + b| - 1] == a + b[..|b| - 1];
      MassConcat(exp2, a, b[..|b| - 1], base);
    }
  }

  lemma {:induction false} PullConcat(exp2: real -> real, a: seq<real>, b: seq<real>, u: seq<Vector>, v: seq<Vector>, base: real, d: nat)
    requires |u| == |a| && |v| == |b|
    requires (forall i :: 0 <= i < |u| ==> d < |u[i]|) && (forall i :: 0 <= i < |v| ==> d < |v[i]|)
    ensures Pull(exp2, a + b, u + v, base, d) == Pull(exp2, a, u, base, d) + Pull(exp2, b, v, base, d)
  {
    if b == [] {
      assert a + b == a && u + v == u;
    } else {
      assert (a + b)[..|a + b| - 1] == a + b[..|b| - 1];
      assert (u + v)[..|u + v| - 1] == u + v[..|v| - 1];
      PullConcat(exp2, a, b[..|b| - 1], u, v[..|v| - 1], base, d);
    }
  }

  /** The scores a base-2 kernel works with. */
  function Base2(logits: seq<real>): (r: seq<real>)
    ensures |r| == |logits|
  {
    seq(|logits|, i requires 0 <= i < |logits| => logits[i] * LOG2E)
  }

  lemma NaturalIsBase2(m: Model, x: real)
    requires ModelOk(m)
    ensures m.exp(x) == m.exp2(x * LOG2E) && m.exp(x) > 0.0
  {
  }

  lemma {:induction false} MassIsTotal(m: Model, logits: seq<real>)
    requires ModelOk(m)
    ensures Mass(m.exp2, Base2(logits), 0.0) == Total(m.exp, logits)
  {
    hide ModelOk;
    var n := |logits|;
    if n > 0 {
      MassIsTotal(m, logits[..n - 1]);
      assert Base2(logits)[..n - 1] == Base2(logits[..n - 1]);
      NaturalIsBase2(m, logits[n - 1]);
      assert Base2(logits)[n - 1] - 0.0 == logits[n - 1] * LOG2E;
    }
  }

  lemma DivideSum(a: real, b: real, v: real, total: real)
    requires total > 0.0
    ensures (a + b * v) / total == a / total + b / total * v
  {
    var x, y := a / total, b / total;
    assert x * total == a && y * total == b;
    assert (x + y * v) * total == x * total + y * total * v;
  }

  lemma {:induction false} PullIsMixed(m: Model, logits: seq<real>, values: seq<Vector>, total: real, d: nat)
    requires ModelOk(m) && |values| == |logits| && total > 0.0 && forall i :: 0 <= i < |values| ==> d < |values[i]|
    ensures Pull(m.exp2, Base2(logits), values, 0.0, d) / total == Mixed(m.exp, total, logits, values, d)
  {
    hide ModelOk;
    var n := |logits|;
    if n > 0 {
      PullIsMixed(m, logits[..n - 1], values[..n - 1], total, d);
      assert Base2(logits)[..n - 1] == Base2(logits[..n - 1]);
      NaturalIsBase2(m, logits[n - 1]);
      assert Base2(logits)[n - 1] - 0.0 == logits[n - 1] * LOG2E;
      DivideSum(Pull(m.exp2, Base2(logits[..n - 1]), values[..n - 1], 0.0, d), m.exp(logits[n - 1]), values[n - 1][d], total);
    }
  }

  /** Changing the base leaves the quotient of the relative sums alone. */
  lemma QuotientIgnoresBase(exp2: real -> real, scores: seq<real>, values: seq<Vector>, base: real, d: nat)
    requires IsExponential(exp2) && |values| == |scores| && forall i :: 0 <= i < |values| ==> d < |values[i]|
    requires Mass(exp2, scores, 0.0) > 0.0
    ensures Mass(exp2, scores, base) > 0.0
    ensures Pull(exp2, scores, values, base, d) / Mass(exp2, scores, base)
         == Pull(exp2, scores, values, 0.0, d) / Mass(exp2, scores, 0.0)
  {
    hide *;
    Rebase(exp2, scores, values, 0.0, base, d);
    Positive(exp2, 0.0 - base);
    SameQuotient(Pull(exp2, scores, values, 0.0, d), Mass(exp2, scores, 0.0), exp2(0.0 - base),
                 Pull(exp2, scores, values, base, d), Mass(exp2, scores, base));
  }

  /** Whatever the base, the quotient of the relative sums is the softmax average. */
  lemma QuotientIsSoftmax(m: Model, logits: seq<real>, values: seq<Vector>, base: real, d: nat)
    requires ModelOk(m) && |values| == |logits| > 0 && forall i :: 0 <= i < |values| ==> d < |values[i]|
    ensures Mass(m.exp2, Base2(logits), base) > 0.0 && Total(m.exp, logits) > 0.0
    ensures Pull(m.exp2, Base2(logits), values, base, d) / Mass(m.exp2, Base2(logits), base)
         == Mixed(m.exp, Total(m.exp, logits), logits, values, d)
  {
    hide *;
    ExponentialsOk(m);
    TotalPositive(m.exp, logits);
    MassIsTotal(m, logits);
    PullIsMixed(m, logits, values, Total(m.exp, logits), d);
    QuotientIgnoresBase(m.exp2, Base2(logits), values, base, d);
  }

  lemma ExponentialsOk(m: Model)
    requires ModelOk(m)
    ensures IsExponential(m.exp2) && forall x: real :: m.exp(x) > 0.0
  {
  }

  lemma SameQuotient(a: real, b: real, c: real, p: real, q: real)
    requires b > 0.0 && c > 0.0 && p == a * c && q == b * c
    ensures q > 0.0 && p / q == a / b
  {
    var x := a / b;
    assert a == x * b;
    assert p == x * q;
  }
}
