/** The ceiling-division arithmetic of block tables. */
module PageMath {
  import opened Common

  function CeilDiv(n: nat, size: nat): (q: nat)
    requires size > 0
  {
    (n + size - 1) / size
  }

  lemma MulStep(a: int, b: int, k: nat)
    requires a < b
    ensures a * k + k <= b * k
  {
    MulMonotone(a + 1, b, k);
    assert (a + 1) * k == a * k + k;
  }

  lemma MulMonotone(a: int, b: int, k: nat)
    requires a <= b
    ensures a * k <= b * k
  {
  }

  lemma DivIsNat(i: nat, size: nat)
    requires size > 0
    ensures i / size >= 0 && 0 <= i % size < size
  {
  }

  lemma DivUnique(q: nat, r: nat, size: nat)
    requires r < size
    ensures (q * size + r) / size == q && (q * size + r) % size == r
  {
    var x := q * size + r;
    var a, b := x / size, x % size;
    assert x == a * size + b;
    if a < q {
      MulStep(a, q, size);
    } else if q < a {
      MulStep(q, a, size);
    }
  }

  lemma CeilDivCases(n: nat, size: nat)
    requires size > 0
    ensures CeilDiv(n, size) == n / size + if n % size == 0 then 0 else 1
    ensures n == (n / size) * size + n % size
  {
    var q, r := n / size, n % size;
    assert n == q * size + r;
    if r == 0 {
      DivUnique(q, size - 1, size);
    } else {
      assert (q + 1) * size == q * size + size;
      DivUnique(q + 1, r - 1, size);
    }
  }

  /** The pages cover the tokens, and one page fewer would not. */
  lemma CeilDivSpec(n: nat, size: nat)
    requires size > 0
    ensures CeilDiv(n, size) * size >= n
    ensures n > 0 ==> CeilDiv(n, size) > 0 && (CeilDiv(n, size) - 1) * size < n
    ensures n == 0 ==> CeilDiv(n, size) == 0
    ensures n <= CeilDiv(n, size) * size < n + size
  {
    CeilDivCases(n, size);
    var q, r := n / size, n % size;
    assert (q + 1) * size == q * size + size;
    assert (q - 1) * size == q * size - size;
    if n > 0 && q == 0 { assert r == n; }
  }

  /** Token i of a branch lies on page i / size, which its table has. */
  lemma SlotInTable(i: nat, n: nat, size: nat)
    requires size > 0 && i < n
    ensures i / size < CeilDiv(n, size)
    ensures i % size < size && i == (i / size) * size + i % size
  {
    CeilDivSpec(n, size);
    var q := CeilDiv(n, size);
    assert i == (i / size) * size + i % size;
    if q <= i / size {
      MulMonotone(q, i / size, size);
    }
  }

  lemma MulSplit(len: nat, size: nat)
    requires len > 0
    ensures len * size == (len - 1) * size + size && (len - 1) * size >= 0
  {
  }

  /** Which of `len` consecutive blocks position i falls into. */
  lemma LastBlock(i: nat, len: nat, size: nat)
    requires size > 0 && len > 0 && i < len * size
    ensures len * size == (len - 1) * size + size
    ensures i / size < len
    ensures i >= (len - 1) * size ==> i / size == len - 1 && i % size == i - (len - 1) * size
    ensures i < (len - 1) * size ==> i / size < len - 1
  {
    assert i == (i / size) * size + i % size;
    if len <= i / size { MulMonotone(len, i / size, size); }
    if i >= (len - 1) * size { DivUnique(len - 1, i - (len - 1) * size, size); }
    if len - 1 <= i / size { MulMonotone(len - 1, i / size, size); }
  }

  /** How many tokens page `index` of a branch of n tokens holds. */
  function Fill(n: nat, size: nat, index: nat): int {
    Min(size, n - index * size)
  }

  /** Every page but the last is full, and the last holds the remainder. */
  lemma FillSpec(n: nat, size: nat, index: nat)
    requires size > 0 && index < CeilDiv(n, size)
    ensures index < CeilDiv(n, size) - 1 ==> Fill(n, size, index) == size
    ensures index == CeilDiv(n, size) - 1 ==> Fill(n, size, index) == if n % size == 0 then size else n % size
    ensures 0 < Fill(n, size, index) <= size
  {
    CeilDivSpec(n, size);
    CeilDivCases(n, size);
    var q := CeilDiv(n, size);
    if index < q - 1 {
      MulStep(index, q - 1, size);
    } else {
      assert (q - 1) * size == q * size - size;
      assert n / size >= 1 ==> (n / size - 1) * size == (n / size) * size - size;
    }
  }

  /** What appending up to the end of the last page does to the page count and to the fills. */
  lemma GrowWithinPage(n: nat, k: nat, size: nat)
    requires size > 0 && n % size != 0 && n % size + k <= size
    ensures CeilDiv(n + k, size) == CeilDiv(n, size) > 0
    ensures n / size == CeilDiv(n, size) - 1
    ensures Fill(n + k, size, CeilDiv(n, size) - 1) == n % size + k
  {
    CeilDivCases(n, size);
    var q, r := n / size, n % size;
    assert n + k == q * size + (r + k);
    if r + k < size {
      DivUnique(q, r + k, size);
    } else {
      assert (q + 1) * size == q * size + size;
      DivUnique(q + 1, 0, size);
    }
    CeilDivCases(n + k, size);
  }

  lemma GrowOntoNewPage(n: nat, k: nat, size: nat)
    requires size > 0 && n % size == 0 && 0 < k <= size
    ensures CeilDiv(n + k, size) == CeilDiv(n, size) + 1
    ensures CeilDiv(n, size) == n / size && n == CeilDiv(n, size) * size
    ensures Fill(n + k, size, CeilDiv(n, size)) == k
  {
    CeilDivCases(n, size);
    var q := n / size;
    if k < size {
      DivUnique(q, k, size);
    } else {
      assert (q + 1) * size == q * size + size;
      DivUnique(q + 1, 0, size);
    }
    CeilDivCases(n + k, size);
  }

  lemma CeilDivMonotone(n: nat, m: nat, size: nat)
    requires size > 0 && n <= m
    ensures CeilDiv(n, size) <= CeilDiv(m, size)
  {
    CeilDivSpec(n, size);
    CeilDivSpec(m, size);
    if CeilDiv(m, size) < CeilDiv(n, size) {
      MulMonotone(CeilDiv(m, size), CeilDiv(n, size) - 1, size);
    }
  }
}
