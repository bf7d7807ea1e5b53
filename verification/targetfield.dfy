/** The exponent model of the target field Fq12.

    A non-zero element is written as a formal product of integer powers of
    generators: opaque values (the scaling witnesses c and wi of the
    on-prove check) and line evaluations.  Two values denote the same field
    element when every generator carries the same total exponent (`Same`).
    In this model multiplication adds exponents, squaring doubles them,
    inversion negates them and the k-th Frobenius map, being x -> x^(p^k) in
    characteristic p, multiplies them by p^k.  Zero is kept apart: it has
    no inverse and absorbs every product. */
module TargetField {
  import opened Points
  import opened Wrappers

  /** Generators: an opaque unit, or the line through `coeff` evaluated at
      the G1 point `p`. */
  datatype Gen = Atom(id: nat) | Line(coeff: Coeff, p: G1Affine)

  datatype Factor = Factor(base: Gen, exp: int)

  datatype Fq12 = Zero | Units(factors: seq<Factor>)

  /** The total exponent of g in a list of factors. */
  function ExpIn(fs: seq<Factor>, g: Gen): int {
    if |fs| == 0 then 0
    else (if fs[0].base == g then fs[0].exp else 0) + ExpIn(fs[1..], g)
  }

  /** The exponent of g in a (non-zero) value; zero has none. */
  function Exp(a: Fq12, g: Gen): int {
    if a.Zero? then 0 else ExpIn(a.factors, g)
  }

  /** Equality of field elements in the model. */
  ghost predicate Same(a: Fq12, b: Fq12) {
    a.Zero? == b.Zero? && forall g :: Exp(a, g) == Exp(b, g)
  }

  /** `n^k` on integers (the Frobenius exponent p^k). */
  function IntPow(n: int, k: nat): int {
    if k == 0 then 1 else n * IntPow(n, k - 1)
  }

  /** Every exponent multiplied by k. */
  function Scale(fs: seq<Factor>, k: int): (r: seq<Factor>)
    ensures |r| == |fs|
  {
    if |fs| == 0 then [] else [Factor(fs[0].base, k * fs[0].exp)] + Scale(fs[1..], k)
  }

  lemma {:induction false} ExpInAppend(a: seq<Factor>, b: seq<Factor>, g: Gen)
    ensures ExpIn(a + b, g) == ExpIn(a, g) + ExpIn(b, g)
    decreases |a|
  {
    if |a| == 0 {
      assert a + b == b;
    } else {
      assert (a + b)[1..] == a[1..] + b;
      ExpInAppend(a[1..], b, g);
    }
  }

  lemma {:induction false} ExpInScale(fs: seq<Factor>, k: int, g: Gen)
    ensures ExpIn(Scale(fs, k), g) == k * ExpIn(fs, g)
    decreases |fs|
  {
    if |fs| > 0 {
      var s := Scale(fs, k);
      assert s[1..] == Scale(fs[1..], k);
      ExpInScale(fs[1..], k, g);
      assert ExpIn(s, g) == (if fs[0].base == g then k * fs[0].exp else 0) + k * ExpIn(fs[1..], g);
    }
  }

  lemma {:induction false} ExpInAbsent(fs: seq<Factor>, g: Gen)
    requires forall i :: 0 <= i < |fs| ==> fs[i].base != g
    ensures ExpIn(fs, g) == 0
    decreases |fs|
  {
    if |fs| > 0 {
      ExpInAbsent(fs[1..], g);
    }
  }

  /** The unit element: no factors at all. */
  function One(): (r: Fq12)
    ensures r.Units? && forall g :: Exp(r, g) == 0
  {
    Units([])
  }

  /** A single generator. */
  function Of(g: Gen): (r: Fq12)
    ensures r.Units? && Exp(r, g) == 1
    ensures forall h :: h != g ==> Exp(r, h) == 0
  {
    ExpInSingle(Factor(g, 1));
    Units([Factor(g, 1)])
  }

  lemma ExpInSingle(f: Factor)
    ensures forall h :: ExpIn([f], h) == if f.base == h then f.exp else 0
  {
    assert [f][1..] == [];
  }

  /** Multiplication adds exponents; a zero factor makes the product zero. */
  function Mul(a: Fq12, b: Fq12): (r: Fq12)
    ensures r.Zero? <==> a.Zero? || b.Zero?
    ensures r.Units? ==> forall g :: Exp(r, g) == Exp(a, g) + Exp(b, g)
  {
    if a.Zero? || b.Zero? then Zero
    else
      assert forall g :: ExpIn(a.factors + b.factors, g) == ExpIn(a.factors, g) + ExpIn(b.factors, g) by {
        forall g {
          ExpInAppend(a.factors, b.factors, g);
        }
      }
      Units(a.factors + b.factors)
  }

  /** Squaring doubles every exponent.  The engine's `cyclotomic_square`
      agrees with it only on the cyclotomic subgroup; it is not modelled
      apart from it. */
  function Square(a: Fq12): (r: Fq12)
    ensures r.Zero? <==> a.Zero?
    ensures forall g :: Exp(r, g) == 2 * Exp(a, g)
  {
    Mul(a, a)
  }

  /** A non-zero value raised to an integer power multiplies its exponents. */
  function ZPow(a: Fq12, k: int): (r: Fq12)
    requires a.Units?
    ensures r.Units? && forall g :: Exp(r, g) == k * Exp(a, g)
  {
    assert forall g :: ExpIn(Scale(a.factors, k), g) == k * ExpIn(a.factors, g) by {
      forall g {
        ExpInScale(a.factors, k, g);
      }
    }
    Units(Scale(a.factors, k))
  }

  /** Natural powers, defined on zero as well (0^0 = 1). */
  function Pow(a: Fq12, k: nat): (r: Fq12)
    ensures r.Zero? <==> a.Zero? && k > 0
    ensures forall g :: Exp(r, g) == k * Exp(a, g)
  {
    if a.Zero? then (if k == 0 then One() else Zero) else ZPow(a, k)
  }

  /** `invert`: no inverse for zero, otherwise every exponent negated. */
  function Invert(a: Fq12): (r: Option<Fq12>)
    ensures r.None? <==> a.Zero?
    ensures r.Some? ==> r.value.Units? && forall g :: Exp(r.value, g) == -Exp(a, g)
  {
    if a.Zero? then None else Some(ZPow(a, -1))
  }

  /** `frobenius_map(k)` for the base-field characteristic p: x -> x^(p^k). */
  function Frobenius(a: Fq12, k: nat, p: int): (r: Fq12)
    ensures r.Zero? <==> a.Zero?
    ensures forall g :: Exp(r, g) == IntPow(p, k) * Exp(a, g)
  {
    if a.Zero? then Zero else ZPow(a, IntPow(p, k))
  }

  /** The comparison `f == Fq12::one()`: a non-zero value whose every
      generator has total exponent zero. */
  predicate IsOne(a: Fq12) {
    a.Units? && forall i :: 0 <= i < |a.factors| ==> ExpIn(a.factors, a.factors[i].base) == 0
  }

  /** The executable comparison agrees with equality in the model. */
  lemma IsOneIsSameAsOne(a: Fq12)
    ensures IsOne(a) <==> Same(a, One())
  {
    if IsOne(a) {
      forall g
        ensures Exp(a, g) == 0
      {
        if forall i :: 0 <= i < |a.factors| ==> a.factors[i].base != g {
          ExpInAbsent(a.factors, g);
        }
      }
    }
    if Same(a, One()) {
      forall i | 0 <= i < |a.factors|
        ensures ExpIn(a.factors, a.factors[i].base) == 0
      {
        assert Exp(a, a.factors[i].base) == Exp(One(), a.factors[i].base);
      }
    }
  }

  lemma SameIsEquivalence(a: Fq12, b: Fq12, c: Fq12)
    ensures Same(a, a)
    ensures Same(a, b) ==> Same(b, a)
    ensures Same(a, b) && Same(b, c) ==> Same(a, c)
  {
  }
}
