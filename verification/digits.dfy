/** Signed binary digit sequences, least significant digit first.

    A digit sequence `ds` stands for the integer `ds[0] + 2*ds[1] + 4*ds[2] + ...`.
    The loop constant of the Miller loop and the output of the NAF encoder are
    such sequences, with digits drawn from {-1, 0, 1}. */
module Digits {

  predicate IsDigit(d: int) {
    -1 <= d <= 1
  }

  predicate AllDigits(ds: seq<int>) {
    forall i :: 0 <= i < |ds| ==> IsDigit(ds[i])
  }

  /** No two neighbouring digits are both non-zero. */
  predicate NonAdjacent(ds: seq<int>) {
    forall i :: 0 < i < |ds| ==> ds[i - 1] == 0 || ds[i] == 0
  }

  /** A non-adjacent form: signed digits, no neighbouring non-zeros, and no
      leading (most significant) zero digit. */
  predicate IsNaf(ds: seq<int>) {
    && AllDigits(ds)
    && NonAdjacent(ds)
    && (|ds| > 0 ==> ds[|ds| - 1] != 0)
  }

  function Pow2(k: nat): (r: nat)
    ensures r >= 1
  {
    if k == 0 then 1 else 2 * Pow2(k - 1)
  }

  /** The integer a digit sequence denotes: sum of ds[i] * 2^i. */
  function Value(ds: seq<int>): int {
    if |ds| == 0 then 0 else ds[0] + 2 * Value(ds[1..])
  }

  function NonZeroCount(ds: seq<int>): nat {
    if |ds| == 0 then 0 else (if ds[0] != 0 then 1 else 0) + NonZeroCount(ds[1..])
  }

  lemma {:induction false} ValueAppend(a: seq<int>, b: seq<int>)
    ensures Value(a + b) == Value(a) + Pow2(|a|) * Value(b)
    decreases |a|
  {
    if |a| == 0 {
      assert a + b == b;
    } else {
      assert (a + b)[1..] == a[1..] + b;
      ValueAppend(a[1..], b);
    }
  }

  lemma {:induction false} NonZeroCountAppend(a: seq<int>, b: seq<int>)
    ensures NonZeroCount(a + b) == NonZeroCount(a) + NonZeroCount(b)
    decreases |a|
  {
    if |a| == 0 {
      assert a + b == b;
    } else {
      assert (a + b)[1..] == a[1..] + b;
      NonZeroCountAppend(a[1..], b);
    }
  }

  /** Signed digits bound the value by the weight of the next position. */
  lemma {:induction false} ValueBound(ds: seq<int>)
    requires AllDigits(ds)
    ensures -(Pow2(|ds|) as int) < Value(ds) < Pow2(|ds|)
    decreases |ds|
  {
    if |ds| > 0 {
      ValueBound(ds[1..]);
    }
  }

  /** A signed-digit sequence whose top digit is non-zero has the sign of its
      top digit; in particular its value is not zero. */
  lemma {:induction false} TopDigitSign(ds: seq<int>)
    requires AllDigits(ds) && |ds| > 0 && ds[|ds| - 1] != 0
    ensures ds[|ds| - 1] == 1 ==> Value(ds) > 0
    ensures ds[|ds| - 1] == -1 ==> Value(ds) < 0
  {
    var n := |ds| - 1;
    assert ds == ds[..n] + [ds[n]];
    ValueAppend(ds[..n], [ds[n]]);
    ValueBound(ds[..n]);
    assert Value([ds[n]]) == ds[n] by {
      assert [ds[n]][1..] == [];
    }
  }

  // Index-based evaluation, used to check the literal tables digit by digit.

  /** Value of the suffix ds[k..], written with an index instead of a slice. */
  function ValueFrom(ds: seq<int>, k: nat): int
    decreases |ds| - k
  {
    if k >= |ds| then 0 else ds[k] + 2 * ValueFrom(ds, k + 1)
  }

  /** Digit range and non-adjacency of the suffix ds[k..], index-based. */
  predicate ShapeFrom(ds: seq<int>, k: nat)
    decreases |ds| - k
  {
    k >= |ds|
    || (&& IsDigit(ds[k])
        && (k + 1 < |ds| ==> ds[k] == 0 || ds[k + 1] == 0)
        && ShapeFrom(ds, k + 1))
  }

  /** Digit range of the suffix ds[k..], index-based. */
  predicate DigitsFrom(ds: seq<int>, k: nat)
    decreases |ds| - k
  {
    k >= |ds| || (IsDigit(ds[k]) && DigitsFrom(ds, k + 1))
  }

  function NonZeroFrom(ds: seq<int>, k: nat): nat
    decreases |ds| - k
  {
    if k >= |ds| then 0 else (if ds[k] != 0 then 1 else 0) + NonZeroFrom(ds, k + 1)
  }

  lemma {:induction false} ValueFromIsValue(ds: seq<int>, k: nat)
    requires k <= |ds|
    ensures ValueFrom(ds, k) == Value(ds[k..])
    decreases |ds| - k
  {
    if k < |ds| {
      assert ds[k..][1..] == ds[k + 1..];
      ValueFromIsValue(ds, k + 1);
    }
  }

  lemma {:induction false} NonZeroFromIsCount(ds: seq<int>, k: nat)
    requires k <= |ds|
    ensures NonZeroFrom(ds, k) == NonZeroCount(ds[k..])
    decreases |ds| - k
  {
    if k < |ds| {
      assert ds[k..][1..] == ds[k + 1..];
      NonZeroFromIsCount(ds, k + 1);
    }
  }

  lemma {:induction false} DigitsFromAll(ds: seq<int>, k: nat)
    requires k <= |ds| && DigitsFrom(ds, k)
    ensures forall i :: k <= i < |ds| ==> IsDigit(ds[i])
    decreases |ds| - k
  {
    if k < |ds| {
      DigitsFromAll(ds, k + 1);
    }
  }

  lemma {:induction false} ShapeFromAll(ds: seq<int>, k: nat)
    requires k <= |ds| && ShapeFrom(ds, k)
    ensures forall i :: k <= i < |ds| ==> IsDigit(ds[i])
    ensures forall i :: k < i < |ds| ==> ds[i - 1] == 0 || ds[i] == 0
    decreases |ds| - k
  {
    if k < |ds| {
      ShapeFromAll(ds, k + 1);
    }
  }
}
