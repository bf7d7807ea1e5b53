/** The coefficient schedule of the Miller loop and the two G2 preparations.

    Iteration i of the loop (i = n-1 down to 1, n = |naf|) emits a doubling
    step and, when the digit naf[i-1] is 1 or -1, an addition of q or -q;
    after the last iteration come the additions of pi(q) and -pi^2(q).
    `G2Prepared::from_affine` and `G2OnProvePrepared::from_affine` store one
    coefficient per step, in this order. */
module Schedule {
  import opened Digits
  import opened Tables
  import opened Points

  /** The steps of one iteration whose digit is d. */
  function IterationSteps(d: int): seq<Step> {
    if d == 1 then [Doubling, AddQ]
    else if d == -1 then [Doubling, AddNegQ]
    else [Doubling]
  }

  /** The steps of iterations i, i-1, ..., 1, in the order they run. */
  function LoopSteps(naf: seq<int>, i: nat): seq<Step>
    requires i <= |naf|
    decreases i
  {
    if i == 0 then [] else IterationSteps(naf[i - 1]) + LoopSteps(naf, i - 1)
  }

  /** Each iteration runs one or two steps, whatever its digit. */
  lemma {:induction false} LoopStepsBounds(naf: seq<int>, i: nat)
    requires i <= |naf|
    ensures i <= |LoopSteps(naf, i)| <= 2 * i
    decreases i
  {
    if i > 0 {
      LoopStepsBounds(naf, i - 1);
    }
  }

  /** The whole schedule for a loop constant. */
  function ScheduleOf(naf: seq<int>): (r: seq<Step>)
    requires |naf| >= 1
    ensures |naf| + 1 <= |r| <= 2 * |naf|
    ensures r[|r| - 2] == AddFrobQ && r[|r| - 1] == AddNegFrobSquaredQ
  {
    LoopStepsBounds(naf, |naf| - 1);
    LoopSteps(naf, |naf| - 1) + [AddFrobQ, AddNegFrobSquaredQ]
  }

  /** The schedule of the engine's constant. */
  function MillerSchedule(): seq<Step> {
    ScheduleOf(SixUPlus2Naf)
  }

  /** One step per iteration plus one per non-zero digit below i. */
  lemma {:induction false} LoopStepsLength(naf: seq<int>, i: nat)
    requires i <= |naf| && AllDigits(naf)
    ensures |LoopSteps(naf, i)| == i + NonZeroCount(naf[..i])
    decreases i
  {
    if i > 0 {
      LoopStepsLength(naf, i - 1);
      assert naf[..i] == naf[..i - 1] + [naf[i - 1]];
      NonZeroCountAppend(naf[..i - 1], [naf[i - 1]]);
      assert NonZeroCount([naf[i - 1]]) == (if naf[i - 1] != 0 then 1 else 0) by {
        assert [naf[i - 1]][1..] == [];
      }
    }
  }

  /** The schedule has n - 1 doubling entries, one addition entry per
      non-zero digit among naf[0..n-1], and two closing Frobenius
      additions; it starts with a doubling when there is an iteration. */
  lemma ScheduleShape(naf: seq<int>)
    requires |naf| >= 1 && AllDigits(naf)
    ensures |ScheduleOf(naf)| == |naf| - 1 + NonZeroCount(naf[..|naf| - 1]) + 2
    ensures ScheduleOf(naf)[|ScheduleOf(naf)| - 2] == AddFrobQ
    ensures ScheduleOf(naf)[|ScheduleOf(naf)| - 1] == AddNegFrobSquaredQ
    ensures |naf| >= 2 ==> ScheduleOf(naf)[0] == Doubling
  {
    LoopStepsLength(naf, |naf| - 1);
  }

  /** For the engine's constant the schedule has 64 + 25 + 2 = 91 entries. */
  lemma MillerScheduleLength()
    ensures |MillerSchedule()| == 91
    ensures MillerSchedule()[0] == Doubling
  {
    EngineNafShape();
    EngineNafNonZeros();
    ScheduleShape(SixUPlus2Naf);
  }

  /** `G2Prepared`: projective line coefficients and the infinity flag. */
  datatype G2Prepared = G2Prepared(coeffs: seq<Coeff>, infinity: bool)

  /** `G2OnProvePrepared`: affine (slope, bias) coefficients, the infinity
      flag and the point the coefficients were prepared from. */
  datatype G2OnProvePrepared = G2OnProvePrepared(coeffs: seq<Coeff>, infinity: bool, initQ: G2Affine)

  /** The coefficients a preparation of q in the given form stores for a
      list of steps: entry k is the line of step k. */
  function Tokens(form: Form, q: G2Affine, steps: seq<Step>): (r: seq<Coeff>)
    ensures |r| == |steps|
    ensures forall k :: 0 <= k < |r| ==> r[k] == Coeff(form, q, k, steps[k])
  {
    seq(|steps|, k requires 0 <= k < |steps| => Coeff(form, q, k, steps[k]))
  }

  /** `G2Prepared::from_affine` for a loop constant. */
  function Prepare(naf: seq<int>, q: G2Affine): (r: G2Prepared)
    requires |naf| >= 1
    ensures r.infinity <==> q.G2Identity?
    ensures r.infinity ==> r.coeffs == []
    ensures !r.infinity ==> |r.coeffs| == |ScheduleOf(naf)|
    ensures forall k :: 0 <= k < |r.coeffs| ==> r.coeffs[k].step == ScheduleOf(naf)[k]
  {
    if q.G2Identity? then G2Prepared([], true)
    else G2Prepared(Tokens(Projective, q, ScheduleOf(naf)), false)
  }

  /** `G2OnProvePrepared::from_affine` for a loop constant. */
  function PrepareOnProve(naf: seq<int>, q: G2Affine): (r: G2OnProvePrepared)
    requires |naf| >= 1
    ensures r.infinity <==> q.G2Identity?
    ensures r.initQ == q
    ensures r.infinity ==> r.coeffs == []
    ensures !r.infinity ==> |r.coeffs| == |ScheduleOf(naf)|
    ensures forall k :: 0 <= k < |r.coeffs| ==> r.coeffs[k].step == ScheduleOf(naf)[k]
  {
    if q.G2Identity? then G2OnProvePrepared([], true, q)
    else G2OnProvePrepared(Tokens(Affine, q, ScheduleOf(naf)), false, q)
  }

  /** The loop both `from_affine` functions run for a non-identity q: a
      doubling entry per iteration, an entry for q after digit 1 and one for
      -q after digit -1, then the entries for pi(q) and -pi^2(q). */
  method EmitCoefficients(naf: seq<int>, form: Form, q: G2Affine) returns (coeffs: seq<Coeff>)
    requires |naf| >= 1
    ensures coeffs == Tokens(form, q, ScheduleOf(naf))
  {
    coeffs := [];
    ghost var done: seq<Step> := [];
    var i := |naf| - 1;
    while i > 0
      invariant 0 <= i <= |naf| - 1
      invariant done + LoopSteps(naf, i) == LoopSteps(naf, |naf| - 1)
      invariant coeffs == Tokens(form, q, done)
      decreases i
    {
      ghost var before := coeffs;
      var x := naf[i - 1];
      coeffs := coeffs + [Coeff(form, q, |coeffs|, Doubling)];
      if x == 1 {
        coeffs := coeffs + [Coeff(form, q, |coeffs|, AddQ)];
      } else if x == -1 {
        coeffs := coeffs + [Coeff(form, q, |coeffs|, AddNegQ)];
      }
      EmitIteration(form, q, done, x, before, coeffs);
      PeelIteration(naf, i, done);
      done := done + IterationSteps(x);
      i := i - 1;
    }
    ghost var before := coeffs;
    coeffs := coeffs + [Coeff(form, q, |coeffs|, AddFrobQ)];
    coeffs := coeffs + [Coeff(form, q, |coeffs|, AddNegFrobSquaredQ)];
    EmitClosing(form, q, done, before, coeffs);
  }

  /** The tokens one iteration with digit x appends. */
  lemma EmitIteration(form: Form, q: G2Affine, done: seq<Step>, x: int, before: seq<Coeff>, after: seq<Coeff>)
    requires before == Tokens(form, q, done)
    requires after == before + [Coeff(form, q, |before|, Doubling)]
                      + (if x == 1 then [Coeff(form, q, |before| + 1, AddQ)]
                         else if x == -1 then [Coeff(form, q, |before| + 1, AddNegQ)]
                         else [])
    ensures after == Tokens(form, q, done + IterationSteps(x))
  {
    var steps := done + IterationSteps(x);
    assert |after| == |steps|;
    forall k | 0 <= k < |after|
      ensures after[k] == Coeff(form, q, k, steps[k])
    {
      if k < |done| {
        assert after[k] == before[k];
      }
    }
  }

  /** The two Frobenius tokens complete the schedule. */
  lemma EmitClosing(form: Form, q: G2Affine, done: seq<Step>, before: seq<Coeff>, after: seq<Coeff>)
    requires before == Tokens(form, q, done)
    requires after == before + [Coeff(form, q, |before|, AddFrobQ)] + [Coeff(form, q, |before| + 1, AddNegFrobSquaredQ)]
    ensures after == Tokens(form, q, done + [AddFrobQ, AddNegFrobSquaredQ])
  {
    var steps := done + [AddFrobQ, AddNegFrobSquaredQ];
    assert |after| == |steps|;
    forall k | 0 <= k < |after|
      ensures after[k] == Coeff(form, q, k, steps[k])
    {
      if k < |done| {
        assert after[k] == before[k];
      }
    }
  }

  /** Iteration i contributes its steps in front of those of iteration i - 1. */
  lemma PeelIteration(naf: seq<int>, i: nat, done: seq<Step>)
    requires 1 <= i < |naf|
    requires done + LoopSteps(naf, i) == LoopSteps(naf, |naf| - 1)
    ensures (done + IterationSteps(naf[i - 1])) + LoopSteps(naf, i - 1) == LoopSteps(naf, |naf| - 1)
  {
    assert LoopSteps(naf, i) == IterationSteps(naf[i - 1]) + LoopSteps(naf, i - 1);
  }

  /** `G2Prepared::from_affine(q)`: the identity gives no coefficients and
      the infinity flag; any other point the projective coefficients of the
      whole schedule. */
  method FromAffine(naf: seq<int>, q: G2Affine) returns (r: G2Prepared)
    requires |naf| >= 1
    ensures r == Prepare(naf, q)
  {
    if q.G2Identity? {
      return G2Prepared([], true);
    }
    var coeffs := EmitCoefficients(naf, Projective, q);
    r := G2Prepared(coeffs, false);
  }

  /** `G2OnProvePrepared::from_affine(q)`: as `FromAffine` with affine
      coefficients, and the point itself kept as `initQ`. */
  method FromAffineOnProve(naf: seq<int>, q: G2Affine) returns (r: G2OnProvePrepared)
    requires |naf| >= 1
    ensures r == PrepareOnProve(naf, q)
  {
    if q.G2Identity? {
      return G2OnProvePrepared([], true, q);
    }
    var coeffs := EmitCoefficients(naf, Affine, q);
    r := G2OnProvePrepared(coeffs, false, q);
  }

  /** Both preparations of the same point follow the same schedule: they
      differ only in the form of their coefficients. */
  lemma PreparationsShareSchedule(naf: seq<int>, q: G2Affine)
    requires |naf| >= 1
    ensures |Prepare(naf, q).coeffs| == |PrepareOnProve(naf, q).coeffs|
    ensures Prepare(naf, q).infinity == PrepareOnProve(naf, q).infinity
    ensures forall k :: 0 <= k < |Prepare(naf, q).coeffs| ==>
      Prepare(naf, q).coeffs[k].step == PrepareOnProve(naf, q).coeffs[k].step
      && Prepare(naf, q).coeffs[k].position == PrepareOnProve(naf, q).coeffs[k].position
  {
  }
}
