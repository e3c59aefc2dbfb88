/** Small datatypes shared by the models. */
module Common {

  const U32_MAX: nat := 0xFFFF_FFFF
  const U64_MAX: nat := 0xFFFF_FFFF_FFFF_FFFF

  datatype Option<+T> = None | Some(value: T)

  /** An f64 as far as the sources look at it: a finite number, or NaN or an infinity. */
  datatype Float = Finite(value: real) | NonFinite

  /** Every id from lo up to lo + n, in ascending order. */
  function IdsFrom(lo: nat, n: nat): (ids: seq<nat>)
    ensures |ids| == n
    ensures forall k :: 0 <= k < n ==> ids[k] == lo + k
    ensures forall x: nat :: x in ids <==> lo <= x < lo + n
  {
    if n == 0 then [] else IdsFrom(lo, n - 1) + [lo + n - 1]
  }

  function Min(a: int, b: int): int {
    if a <= b then a else b
  }

  function Abs(x: real): real { if x < 0.0 then -x else x }

  function MaxReal(x: real, y: real): real { if x < y then y else x }

  ghost predicate Distinct<T>(ids: seq<T>) {
    forall i, j :: 0 <= i < j < |ids| ==> ids[i] != ids[j]
  }

  lemma FirstIsIn(ids: seq<nat>)
    ensures ids != [] ==> ids[0] in ids
  {
  }

  ghost function Elements<T>(a: seq<T>): set<T> {
    set x | x in a
  }

  lemma {:induction false} DistinctCount<T>(a: seq<T>)
    requires Distinct(a)
    ensures |Elements(a)| == |a|
  {
    var elements := Elements(a);
    if a == [] {
      assert elements == {};
    } else {
      var last := a[|a| - 1];
      var init := a[..|a| - 1];
      var before := Elements(init);
      DistinctCount(init);
      assert forall k :: 0 <= k < |init| ==> init[k] == a[k];
      assert a == init + [last];
      assert elements == before + {last};
      assert last !in before;
    }
  }
}
