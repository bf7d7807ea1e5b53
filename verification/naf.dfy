/** The non-adjacent-form encoder of the test helpers (`to_naf`).

    `NafOf` is the recursive reference definition; `ToNaf` is the encoder's
    while-loop, proved to produce the same digits.  `NafUnique` shows that
    the encoding is the only non-adjacent form of its input, so any table
    that is a NAF of x is what the encoder prints for x. */
module Naf {
  import opened Digits

  /** Reference definition: emit the lowest digit, then encode what is left
      after subtracting it and halving. */
  function NafOf(x: nat): (r: seq<int>)
    ensures x == 0 <==> r == []
    ensures forall k :: 0 <= k < |r| ==> -1 <= r[k] <= 1
    decreases x
  {
    if x == 0 then []
    else if x % 2 == 0 then [0] + NafOf(x / 2)
    else if x % 4 == 1 then [1] + NafOf((x - 1) / 2)
    else [-1] + NafOf((x + 1) / 2)
  }

  /** The encoding of an even number is empty or starts with a zero digit. */
  lemma NafOfEven(x: nat)
    requires x % 2 == 0
    ensures NafOf(x) == [] || NafOf(x)[0] == 0
  {
  }

  /** The encoding is a NAF of x, and a non-empty one ends in digit 1. */
  lemma {:induction false} NafOfCorrect(x: nat)
    ensures IsNaf(NafOf(x))
    ensures Value(NafOf(x)) == x
    ensures x == 0 <==> NafOf(x) == []
    ensures x > 0 ==> NafOf(x)[|NafOf(x)| - 1] == 1
    decreases x
  {
    if x > 0 {
      var d, y := NafStep(x);
      NafOfCorrect(y);
      if d != 0 {
        NafOfEven(y);
      }
      ConsFacts(d, NafOf(y));
    }
  }

  /** One step of the encoding: the lowest digit d and the rest y, with
      x = d + 2y, y even whenever d is non-zero, and y = 0 only for x = 1. */
  lemma NafStep(x: nat) returns (d: int, y: nat)
    requires x > 0
    ensures NafOf(x) == [d] + NafOf(y)
    ensures IsDigit(d) && x == d + 2 * y && y < x
    ensures d != 0 ==> y % 2 == 0
    ensures y == 0 ==> d == 1
  {
    d, y := DigitStep(x);
    NafOfStep(x, d, y);
  }

  /** The arithmetic of one step: d is x's lowest signed digit and
      y = (x - d) / 2. */
  lemma DigitStep(x: nat) returns (d: int, y: nat)
    requires x > 0
    ensures d == (if x % 2 == 0 then 0 else if x % 4 == 1 then 1 else -1)
    ensures y == (x - d) / 2
    ensures IsDigit(d) && x == d + 2 * y && y < x
    ensures d != 0 ==> y % 2 == 0
    ensures y == 0 ==> d == 1
  {
    if x % 2 == 0 {
      d, y := 0, x / 2;
    } else if x % 4 == 1 {
      OddHalf(x);
      d, y := 1, (x - 1) / 2;
    } else {
      OddHalf(x);
      d, y := -1, (x + 1) / 2;
    }
  }

  /** Moving an odd x to the nearest multiple of 4 leaves an even half. */
  lemma OddHalf(x: nat)
    requires x % 2 == 1
    ensures x % 4 == 1 ==> ((x - 1) / 2) % 2 == 0
    ensures x % 4 != 1 ==> ((x + 1) / 2) % 2 == 0 && (x + 1) / 2 < x
  {
    var q := x / 4;
    var r := x % 4;
    assert x == 4 * q + r;
    if r == 0 {
      EvenOf(x, 2 * q);
      assert false;
    } else if r == 2 {
      EvenOf(x, 2 * q + 1);
      assert false;
    } else if r == 1 {
      HalfOfFour(x - 1, q);
    } else {
      HalfOfFour(x + 1, q + 1);
    }
  }

  lemma EvenOf(x: int, m: int)
    requires x == 2 * m
    ensures x % 2 == 0
  {
  }

  lemma HalfOfFour(y: int, q: int)
    requires y == 4 * q
    ensures y / 2 == 2 * q && (y / 2) % 2 == 0
  {
  }

  /** Shape and value of a digit put in front of a NAF. */
  lemma ConsFacts(d: int, rest: seq<int>)
    requires IsDigit(d) && IsNaf(rest)
    requires d != 0 && |rest| > 0 ==> rest[0] == 0
    requires |rest| == 0 ==> d != 0
    ensures IsNaf([d] + rest)
    ensures Value([d] + rest) == d + 2 * Value(rest)
    ensures ([d] + rest)[|rest|] == (if |rest| == 0 then d else rest[|rest| - 1])
  {
    assert ([d] + rest)[1..] == rest;
  }

  /** Uniqueness: every NAF whose value is a natural number x is NafOf(x). */
  lemma {:induction false} NafUnique(ds: seq<int>, x: nat)
    requires IsNaf(ds) && Value(ds) == x
    ensures ds == NafOf(x)
    decreases |ds|
  {
    if |ds| == 0 {
      assert x == 0;
    } else {
      var v := SplitLowest(ds, x);
      NafUnique(ds[1..], v);
      assert ds == [ds[0]] + ds[1..];
      NafOfStep(x, ds[0], v);
    }
  }

  /** A NAF of x > 0 is its lowest digit d followed by a NAF of a natural
      number v with x = d + 2v, v even when d is non-zero. */
  lemma SplitLowest(ds: seq<int>, x: nat) returns (v: nat)
    requires IsNaf(ds) && Value(ds) == x && |ds| > 0
    ensures IsNaf(ds[1..]) && Value(ds[1..]) == v
    ensures x == ds[0] + 2 * v && IsDigit(ds[0]) && x > 0
    ensures ds[0] != 0 ==> v % 2 == 0
    ensures v == 0 ==> ds[0] == 1
  {
    var tail := ds[1..];
    assert x == ds[0] + 2 * Value(tail);
    TopDigitSign(ds);
    NafTail(ds);
    if |tail| == 0 {
      v := 0;
    } else {
      TopDigitSign(tail);
      v := Value(tail);
      if ds[0] != 0 {
        assert tail[0] == 0;
        assert v == 2 * Value(tail[1..]);
      }
    }
  }

  /** Dropping the lowest digit of a NAF leaves a NAF with the same top
      digit, whose lowest digit is zero when the dropped one was not. */
  lemma NafTail(ds: seq<int>)
    requires IsNaf(ds) && |ds| > 0
    ensures IsNaf(ds[1..])
    ensures |ds| > 1 ==> ds[1..][|ds| - 2] == ds[|ds| - 1]
    ensures |ds| > 1 && ds[0] != 0 ==> ds[1..][0] == 0
  {
    var tail := ds[1..];
    forall i | 0 <= i < |tail|
      ensures IsDigit(tail[i])
    {
      assert tail[i] == ds[i + 1];
    }
    forall i | 0 < i < |tail|
      ensures tail[i - 1] == 0 || tail[i] == 0
    {
      assert tail[i - 1] == ds[i] && tail[i] == ds[i + 1];
    }
    if |ds| > 1 {
      assert ds[0] == 0 || ds[1] == 0;
    }
  }

  /** NafOf peels the lowest digit of x = d + 2v off as d. */
  lemma NafOfStep(x: nat, d: int, v: nat)
    requires x == d + 2 * v && IsDigit(d) && x > 0
    requires d != 0 ==> v % 2 == 0
    ensures NafOf(x) == [d] + NafOf(v)
  {
    if d == 0 {
      assert x % 2 == 0 && x / 2 == v;
    } else {
      var w := v / 2;
      assert v == 2 * w;
      if d == 1 {
        assert x == 4 * w + 1;
        assert x % 4 == 1 && (x - 1) / 2 == v;
      } else {
        assert x == 4 * (w - 1) + 3;
        assert x % 4 == 3 && (x + 1) / 2 == v;
      }
    }
  }

  /** `to_naf` as written: while x > 0, emit 0 for even x, otherwise emit +1
      when x = 1 (mod 4) and -1 when x = 3 (mod 4), move x to the multiple
      of 4 next to it, and halve.  The invariants establish that the output
      is a NAF of the input; `NafUnique` then identifies it with `NafOf`. */
  method ToNaf(x0: nat) returns (z: seq<int>)
    ensures AllDigits(z)
    ensures Value(z) == x0
    ensures NonAdjacent(z)
    ensures x0 == 0 <==> z == []
    ensures x0 > 0 ==> z[|z| - 1] == 1
    ensures z == NafOf(x0)
  {
    var x := x0;
    z := [];
    while x > 0
      invariant AllDigits(z)
      invariant NonAdjacent(z)
      invariant Value(z) + Pow2(|z|) * x == x0
      invariant |z| > 0 && z[|z| - 1] != 0 ==> x % 2 == 0
      invariant x == 0 && x0 > 0 ==> |z| > 0 && z[|z| - 1] == 1
      invariant x0 == 0 ==> z == []
      decreases x
    {
      var zi: int;
      var x' := x;
      if x % 2 == 0 {
        zi := 0;
      } else {
        zi := if x % 4 == 1 then 1 else -1;
        if zi == 1 {
          x' := x - 1;
        } else {
          x' := x + 1;
        }
      }
      ghost var d, y := DigitStep(x);
      assert zi == d && x' / 2 == y;
      EmitDigit(z, x, x0, d, y);
      z := z + [zi];
      x := x' / 2;
    }
    assert IsNaf(z);
    NafUnique(z, x0);
  }

  /** The loop invariant of `ToNaf` survives emitting the lowest digit d of
      x and continuing with y. */
  lemma EmitDigit(z: seq<int>, x: nat, x0: nat, d: int, y: nat)
    requires IsDigit(d) && x == d + 2 * y
    requires d != 0 ==> y % 2 == 0
    requires y == 0 ==> d == 1
    requires AllDigits(z) && NonAdjacent(z)
    requires Value(z) + Pow2(|z|) * x == x0
    requires |z| > 0 && z[|z| - 1] != 0 ==> d == 0
    ensures AllDigits(z + [d]) && NonAdjacent(z + [d])
    ensures Value(z + [d]) + Pow2(|z + [d]|) * y == x0
    ensures (z + [d])[|z|] == d
  {
    AppendDigit(z, d, y);
  }

  /** Appending digit d to z moves weight 2^|z| * (d + 2y) from the
      remaining number to the emitted digits. */
  lemma AppendDigit(z: seq<int>, d: int, y: int)
    ensures Value(z + [d]) + Pow2(|z| + 1) * y == Value(z) + Pow2(|z|) * (d + 2 * y)
    ensures (z + [d])[|z|] == d
  {
    ValueAppend(z, [d]);
    assert Value([d]) == d by {
      assert [d][1..] == [];
    }
    assert Pow2(|z| + 1) == 2 * Pow2(|z|);
    ShiftWeight(Value(z), Value(z + [d]), Pow2(|z|), Pow2(|z| + 1), d, y);
  }

  lemma ShiftWeight(v: int, v': int, p: int, p': int, d: int, y: int)
    requires v' == v + p * d && p' == 2 * p
    ensures v' + p' * y == v + p * (d + 2 * y)
  {
  }
}
