/** The two square-and-multiply loops outside the Miller loop: `exp_by_x`
    of the final exponentiation, and the c / c^-1 loop of the test helpers
    `calc_naf_v` and `calc_naf_f`.  Both are methods with the invariants
    that carry their exponent. */
module Exponentiation {
  import opened Digits
  import opened Tables
  import opened TargetField
  import opened Wrappers
  import opened MillerLoop

  lemma {:induction false} Pow2Add(a: nat, b: nat)
    ensures Pow2(a + b) == Pow2(a) * Pow2(b)
    decreases a
  {
    if a > 0 {
      Pow2Add(a - 1, b);
    }
  }

  /** The u64 constant u fits in 64 bits. */
  lemma BnXFitsIn64Bits()
    ensures BnX < Pow2(64)
  {
    assert Pow2(4) == 16;
    Pow2Add(4, 4);
    assert Pow2(8) == 256;
    Pow2Add(8, 8);
    assert Pow2(16) == 65536;
    Pow2Add(16, 16);
    assert Pow2(32) == 4294967296;
    Pow2Add(32, 32);
    assert Pow2(64) == 18446744073709551616;
  }

  /** `x >> i` on natural numbers: i halvings, rounding down. */
  function Shr(x: nat, i: nat): nat {
    if i == 0 then x else Shr(x, i - 1) / 2
  }

  /** Shifting a number below 2^n right by i leaves one below 2^(n-i). */
  lemma {:induction false} ShrBelow(x: nat, n: nat, i: nat)
    requires x < Pow2(n) && i <= n
    ensures Shr(x, i) < Pow2(n - i)
    decreases i
  {
    if i > 0 {
      ShrBelow(x, n, i - 1);
      assert Pow2(n - (i - 1)) == 2 * Pow2(n - i);
    }
  }

  /** Shifting u right by 64 leaves nothing. */
  lemma ShrBnXTop()
    ensures Shr(BnX, 64) == 0
  {
    BnXFitsIn64Bits();
    ShrBelow(BnX, 64, 64);
  }

  /** One step of left-to-right square-and-multiply: squaring and then
      multiplying by f on bit b turns f^m into f^(2m + b). */
  lemma SquareMultiplyStep(res: Fq12, f: Fq12, m: nat, b: nat)
    requires Same(res, Pow(f, m)) && b <= 1
    ensures Same(if b == 1 then Mul(Square(res), f) else Square(res), Pow(f, 2 * m + b))
  {
    var next := if b == 1 then Mul(Square(res), f) else Square(res);
    forall g
      ensures Exp(next, g) == (2 * m + b) * Exp(f, g)
    {
      if next.Units? && b == 1 {
        assert Exp(next, g) == Exp(Square(res), g) + Exp(f, g);
      }
    }
  }

  /** The value `exp_by_x` holds once bits 63, ..., i of u have been read:
      squared once per bit, and multiplied by f on every set bit. */
  function ExpByXFrom(f: Fq12, i: nat): (r: Fq12)
    requires i <= 64
    ensures f.Units? ==> r.Units?
    decreases 64 - i
  {
    if i == 64 then One()
    else
      var r := Square(ExpByXFrom(f, i + 1));
      if Shr(BnX, i) % 2 == 1 then Mul(r, f) else r
  }

  /** Reading bits 63, ..., i leaves f^(u >> i). */
  lemma {:induction false} ExpByXFromPow(f: Fq12, i: nat)
    requires i <= 64
    ensures Same(ExpByXFrom(f, i), Pow(f, Shr(BnX, i)))
    decreases 64 - i
  {
    if i == 64 {
      ShrBnXTop();
    } else {
      ExpByXFromPow(f, i + 1);
      var a := Shr(BnX, i + 1);
      var b := Shr(BnX, i) % 2;
      assert 2 * a + b == Shr(BnX, i);
      SquareMultiplyStep(ExpByXFrom(f, i + 1), f, a, b);
    }
  }

  /** `exp_by_x`: from one, for bits i = 63 down to 0 of u, square and, on a
      set bit, multiply by f; the result is f^u.  The engine squares with
      `cyclotomic_square`, which is squaring only for f in the cyclotomic
      subgroup (where `final_exponentiation` calls it); the model squares
      with `Square`, so the result holds for such f. */
  method ExpByX(f: Fq12) returns (res: Fq12)
    ensures Same(res, Pow(f, BnX))
    ensures res.Zero? <==> f.Zero?
    ensures forall g :: Exp(res, g) == BnX * Exp(f, g)
  {
    res := One();
    var i := 64;
    while i > 0
      invariant 0 <= i <= 64
      invariant res == ExpByXFrom(f, i)
    {
      i := i - 1;
      res := Square(res);
      if Shr(BnX, i) % 2 == 1 {
        res := Mul(res, f);
      }
    }
    ExpByXFromPow(f, 0);
  }

  /** The exponent of c^-1 the c / c^-1 loop holds when iteration i of
      `naf` is next: the leading 1 it starts from, shifted, plus the digits
      naf[i..n-1] it has read. */
  function NafLoopExponent(naf: seq<int>, i: nat): int
    requires 1 <= |naf| && i <= |naf| - 1
  {
    Pow2(|naf| - 1 - i) + Value(naf[i..|naf| - 1])
  }

  /** Reading digit naf[i-1] doubles the exponent and adds the digit. */
  lemma NafLoopExponentStep(naf: seq<int>, i: nat)
    requires 1 <= i <= |naf| - 1
    ensures NafLoopExponent(naf, i - 1) == 2 * NafLoopExponent(naf, i) + naf[i - 1]
  {
    var n := |naf|;
    assert naf[i - 1..n - 1][1..] == naf[i..n - 1];
    assert Pow2(n - 1 - (i - 1)) == 2 * Pow2(n - 1 - i);
  }

  /** A table whose top digit is 1 leaves exactly its value. */
  lemma NafLoopExponentOfTable(naf: seq<int>)
    requires |naf| >= 1 && naf[|naf| - 1] == 1
    ensures NafLoopExponent(naf, 0) == Value(naf)
  {
    var n := |naf|;
    assert naf == naf[..n - 1] + [1];
    ValueAppend(naf[..n - 1], [1]);
    assert Value([1]) == 1 by {
      assert [1][1..] == [];
    }
    assert naf[0..n - 1] == naf[..n - 1];
  }

  /** One round of the c / c^-1 loop on c^-e: square, then multiply by c^-1
      on digit 1 and by c on digit -1. */
  lemma NafLoopRound(f: Fq12, c: Fq12, cInv: Fq12, d: int, e: int)
    requires c.Units? && Invert(c) == Some(cInv) && IsDigit(d)
    requires f.Units? && forall g :: Exp(f, g) == -e * Exp(c, g)
    ensures var s := Square(f);
            var next := if d == 1 then Mul(s, cInv) else if d == -1 then Mul(s, c) else s;
            next.Units? && forall g :: Exp(next, g) == -(2 * e + d) * Exp(c, g)
  {
    var s := Square(f);
    var next := if d == 1 then Mul(s, cInv) else if d == -1 then Mul(s, c) else s;
    forall g
      ensures Exp(next, g) == -(2 * e + d) * Exp(c, g)
    {
      var ec := Exp(c, g);
      assert Exp(s, g) == 2 * (-e * ec);
      if d == 1 {
        assert Exp(next, g) == Exp(s, g) + Exp(cInv, g);
      } else if d == -1 {
        assert Exp(next, g) == Exp(s, g) + ec;
      }
    }
  }

  /** `calc_naf_v` / `calc_naf_f` on a table: invert c (panicking on zero),
      start from c^-1, and for i = n-1 down to 1 square and multiply by c^-1
      on digit naf[i-1] = 1 and by c on -1.  The result is c to the minus
      (2^(n-1) + the value of the lower digits). */
  method CalcNaf(c: Fq12, naf: seq<int>) returns (r: Result<Fq12>)
    ensures r.Failed? <==> c.Zero?
    ensures r.Failed? ==> r.panic == NoInverse
    ensures r.Ok? ==> r.value.Units?
    ensures r.Ok? && |naf| >= 1 && AllDigits(naf) ==>
              forall g :: Exp(r.value, g) == -NafLoopExponent(naf, 0) * Exp(c, g)
  {
    var inv := Invert(c);
    if inv.None? {
      return Failed(NoInverse);
    }
    var cInv := inv.value;
    var f := cInv;
    var i: nat := if |naf| == 0 then 0 else |naf| - 1;
    while i > 0
      invariant |naf| >= 1 ==> i <= |naf| - 1
      invariant f.Units?
      invariant |naf| >= 1 && AllDigits(naf) ==>
                  forall g :: Exp(f, g) == -NafLoopExponent(naf, i) * Exp(c, g)
    {
      ghost var prev := f;
      f := Square(f);
      var x := naf[i - 1];
      if x == 1 {
        f := Mul(f, cInv);
      } else if x == -1 {
        f := Mul(f, c);
      }
      if AllDigits(naf) {
        NafLoopRound(prev, c, cInv, x, NafLoopExponent(naf, i));
        NafLoopExponentStep(naf, i);
      }
      i := i - 1;
    }
    r := Ok(f);
  }

  /** `calc_naf_v`: c^-(6u + 2). */
  method CalcNafV(c: Fq12) returns (r: Result<Fq12>)
    ensures r.Failed? <==> c.Zero?
    ensures r.Ok? ==> forall g :: Exp(r.value, g) == -(SixUPlus2 as int) * Exp(c, g)
  {
    r := CalcNaf(c, SixUPlus2NafV);
    NafVIsEngineNaf();
    EngineNafShape();
    NafLoopExponentOfTable(SixUPlus2NafV);
  }

  /** `calc_naf_f`: c^-(6u + 2) as well, from the other table. */
  method CalcNafF(c: Fq12) returns (r: Result<Fq12>)
    ensures r.Failed? <==> c.Zero?
    ensures r.Ok? ==> forall g :: Exp(r.value, g) == -(SixUPlus2 as int) * Exp(c, g)
  {
    r := CalcNaf(c, SixUPlus2NafF);
    NafFIsNafOfSixUPlus2();
    NafLoopExponentOfTable(SixUPlus2NafF);
  }
}
