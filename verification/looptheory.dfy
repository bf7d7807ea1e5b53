/** What the Miller loops compute, in the exponent model.

    After a successful run, the exponent of every generator in the
    accumulator is a fixed combination of the lines: the line a pair gives
    at schedule position k is raised to the weight of k, which is 2^(i-1)
    for the coefficients pulled in iteration i (the squarings of the
    iterations after it) and 1 for the two Frobenius coefficients.
    `ClosedExp` is that combination; `PlainLoopClosedForm` proves the plain
    loop equals it and fails exactly when some list does not have the
    schedule's length. */
module LoopTheory {
  import opened Digits
  import opened Points
  import opened TargetField
  import opened Wrappers
  import opened Schedule
  import opened MillerLoop

  /** Exponent of g in the product of every pair's line at position m. */
  function RowExp(pairs: seq<Pair>, m: nat, g: Gen): int
    decreases |pairs|
  {
    if |pairs| == 0 then 0
    else
      (if m < |pairs[0].coeffs| && Line(pairs[0].coeffs[m], pairs[0].p) == g then 1 else 0)
      + RowExp(pairs[1..], m, g)
  }

  /** Exponent of g in the product over k of (row m + k)^(ws[k]). */
  function ClosedExp(pairs: seq<Pair>, m: nat, ws: seq<int>, g: Gen): int
    decreases |ws|
  {
    if |ws| == 0 then 0 else ws[0] * RowExp(pairs, m, g) + ClosedExp(pairs, m + 1, ws[1..], g)
  }

  /** The weights of the coefficients pulled in one iteration with digit d. */
  function IterationWeights(d: int, w: int): seq<int> {
    if d == 1 || d == -1 then [w, w] else [w]
  }

  /** The weights of iterations i, i-1, ..., 1. */
  function LoopWeights(naf: seq<int>, i: nat): seq<int>
    requires i <= |naf|
    decreases i
  {
    if i == 0 then [] else IterationWeights(naf[i - 1], Pow2(i - 1)) + LoopWeights(naf, i - 1)
  }

  /** The weight of every schedule position. */
  function Weights(naf: seq<int>): seq<int>
    requires |naf| >= 1
  {
    LoopWeights(naf, |naf| - 1) + [1, 1]
  }

  lemma {:induction false} LoopWeightsLength(naf: seq<int>, i: nat)
    requires i <= |naf|
    ensures |LoopWeights(naf, i)| == |LoopSteps(naf, i)|
    decreases i
  {
    if i > 0 {
      var d, w := naf[i - 1], Pow2(i - 1);
      LoopWeightsLength(naf, i - 1);
      IterationWeightsLength(d, w);
      assert LoopWeights(naf, i) == IterationWeights(d, w) + LoopWeights(naf, i - 1);
      assert LoopSteps(naf, i) == IterationSteps(d) + LoopSteps(naf, i - 1);
    }
  }

  lemma IterationWeightsLength(d: int, w: int)
    ensures |IterationWeights(d, w)| == |IterationSteps(d)|
  {
  }

  /** Every schedule position has a weight. */
  lemma WeightsLength(naf: seq<int>)
    requires |naf| >= 1
    ensures |Weights(naf)| == |ScheduleOf(naf)|
  {
    LoopWeightsLength(naf, |naf| - 1);
  }

  lemma {:induction false} ClosedExpAppend(pairs: seq<Pair>, m: nat, a: seq<int>, b: seq<int>, g: Gen)
    ensures ClosedExp(pairs, m, a + b, g) == ClosedExp(pairs, m, a, g) + ClosedExp(pairs, m + |a|, b, g)
    decreases |a|
  {
    if |a| == 0 {
      assert a + b == b;
    } else {
      assert (a + b)[1..] == a[1..] + b;
      ClosedExpAppend(pairs, m + 1, a[1..], b, g);
    }
  }

  /** Closed form of a one- or two-coefficient iteration. */
  lemma ClosedExpIteration(pairs: seq<Pair>, m: nat, d: int, w: int, rest: seq<int>, g: Gen)
    ensures ClosedExp(pairs, m, IterationWeights(d, w) + rest, g)
      == w * RowExp(pairs, m, g)
         + (if d == 1 || d == -1 then w * RowExp(pairs, m + 1, g) else 0)
         + ClosedExp(pairs, m + |IterationWeights(d, w)|, rest, g)
  {
    var iw := IterationWeights(d, w);
    ClosedExpAppend(pairs, m, iw, rest, g);
    if d == 1 || d == -1 {
      assert iw[1..][1..] == [];
    } else {
      assert iw[1..] == [];
    }
  }

  /** A pass succeeds when every pair still has a coefficient at m (and, on
      the on-prove loop, each is the expected one); it multiplies in the
      row of lines at m, and keeps zero at zero. */
  lemma {:induction false} PassSucceeds(f: Fq12, pairs: seq<Pair>, m: nat, check: Option<seq<G2Affine>>, step: Step)
    requires forall j :: 0 <= j < |pairs| ==> m < |pairs[j].coeffs|
    requires check.Some? ==> |check.value| >= |pairs|
    requires check.Some? ==> forall j :: 0 <= j < |pairs| ==> pairs[j].coeffs[m] == Expected(check.value[j], m, step)
    ensures Pass(f, pairs, m, check, step).Ok?
    ensures Pass(f, pairs, m, check, step).value.Zero? <==> f.Zero?
    ensures f.Units? ==> forall g :: Exp(Pass(f, pairs, m, check, step).value, g) == Exp(f, g) + RowExp(pairs, m, g)
    decreases |pairs|
  {
    if |pairs| > 0 {
      var f1 := Mul(f, LineAt(pairs[0], m));
      var rest := if check.Some? then Some(check.value[1..]) else None;
      assert f.Units? ==> forall g :: Exp(f1, g) == Exp(f, g) + (if Line(pairs[0].coeffs[m], pairs[0].p) == g then 1 else 0);
      PassSucceeds(f1, pairs[1..], m, rest, step);
    }
  }

  /** Without a check, a pass fails exactly when some pair has run out, and
      then it reports exhaustion. */
  lemma {:induction false} PassExhausts(f: Fq12, pairs: seq<Pair>, m: nat, step: Step)
    ensures Pass(f, pairs, m, None, step).Ok? <==> forall j :: 0 <= j < |pairs| ==> m < |pairs[j].coeffs|
    ensures Pass(f, pairs, m, None, step).Failed? ==> Pass(f, pairs, m, None, step).panic == CoeffsExhausted
    decreases |pairs|
  {
    if |pairs| > 0 && m < |pairs[0].coeffs| {
      PassExhausts(Mul(f, LineAt(pairs[0], m)), pairs[1..], m, step);
      assert forall j :: 1 <= j < |pairs| ==> pairs[j] == pairs[1..][j - 1];
    }
  }

  /** The scaling parameters are well formed: c has the inverse c^-1. */
  predicate ScalingOk(sc: Scaling) {
    sc.Scaled? ==> sc.c.Units? && Invert(sc.c) == Some(sc.cInv)
  }

  /** How often iterations i, ..., 1 square the value they start from. */
  function Squarings(naf: seq<int>, sc: Scaling, i: nat): nat
    requires i < |naf|
  {
    if sc.Plain? && i == |naf| - 1 && i > 0 then i - 1 else i
  }

  /** Minus the exponent of the generator g that iterations i, ..., 1 of a
      scaled loop contribute through c: Value(naf[..i]) times that of c. */
  function CShift(naf: seq<int>, sc: Scaling, i: nat, g: Gen): int
    requires i <= |naf|
  {
    if sc.Scaled? then Value(naf[..i]) * Exp(sc.c, g) else 0
  }

  /** The on-prove check accepts every coefficient a pair still has at
      positions m, m + 1, ... for the given steps. */
  predicate ChecksPass(pairs: seq<Pair>, m: nat, check: Option<seq<G2Affine>>, steps: seq<Step>) {
    check.Some? ==>
      && |check.value| >= |pairs|
      && forall j, k :: 0 <= j < |pairs| && 0 <= k < |steps| && m + k < |pairs[j].coeffs| ==>
           pairs[j].coeffs[m + k] == Expected(check.value[j], m + k, steps[k])
  }

  lemma ChecksPassSplit(pairs: seq<Pair>, m: nat, check: Option<seq<G2Affine>>, a: seq<Step>, b: seq<Step>)
    requires ChecksPass(pairs, m, check, a + b)
    ensures ChecksPass(pairs, m, check, a)
    ensures ChecksPass(pairs, m + |a|, check, b)
  {
    if check.Some? {
      forall j, k | 0 <= j < |pairs| && 0 <= k < |b| && m + |a| + k < |pairs[j].coeffs|
        ensures pairs[j].coeffs[m + |a| + k] == Expected(check.value[j], m + |a| + k, b[k])
      {
        assert (a + b)[|a| + k] == b[k];
      }
      forall j, k | 0 <= j < |pairs| && 0 <= k < |a| && m + k < |pairs[j].coeffs|
        ensures pairs[j].coeffs[m + k] == Expected(check.value[j], m + k, a[k])
      {
        assert (a + b)[k] == a[k];
      }
    }
  }

  /** The single-step form of `ChecksPass`, as `PassSucceeds` needs it. */
  lemma ChecksPassAt(pairs: seq<Pair>, m: nat, check: Option<seq<G2Affine>>, step: Step)
    requires ChecksPass(pairs, m, check, [step])
    requires forall j :: 0 <= j < |pairs| ==> m < |pairs[j].coeffs|
    ensures check.Some? ==> |check.value| >= |pairs|
    ensures check.Some? ==> forall j :: 0 <= j < |pairs| ==> pairs[j].coeffs[m] == Expected(check.value[j], m, step)
  {
    if check.Some? {
      forall j | 0 <= j < |pairs|
        ensures pairs[j].coeffs[m] == Expected(check.value[j], m, step)
      {
        assert pairs[j].coeffs[m + 0] == Expected(check.value[j], m + 0, [step][0]);
      }
    }
  }

  /** The value iteration i starts its lines from: squared (except in the
      first iteration of a plain loop) and, in a scaled loop, times c^-d. */
  lemma AdjustExp(naf: seq<int>, sc: Scaling, i: nat, f: Fq12)
    requires 1 <= i < |naf| && AllDigits(naf) && f.Units? && ScalingOk(sc)
    ensures Adjust(naf, sc, i, f).Units?
    ensures forall g :: Exp(Adjust(naf, sc, i, f), g) == Doubles(naf, sc, i) * Exp(f, g) - naf[i - 1] * CExp(sc, g)
  {
    assert IsDigit(naf[i - 1]);
  }

  lemma IterationAlgebra(w: int, a2: int, e: int, sx: int, r0: int, r1: int, s1: int, c1: int)
    ensures w * (a2 * e - sx + r0 + r1) - s1 + c1 == a2 * w * e - (s1 + w * sx) + (w * r0 + w * r1 + c1)
  {
  }

  lemma ShiftAlgebra(v1: int, x: int, w: int, ec: int)
    ensures (v1 + x * w) * ec == v1 * ec + w * (x * ec)
  {
  }

  /** Value of the digits below iteration i, from those below i - 1. */
  lemma ValueBelow(naf: seq<int>, i: nat)
    requires 1 <= i <= |naf|
    ensures Value(naf[..i]) == Value(naf[..i - 1]) + naf[i - 1] * Pow2(i - 1)
  {
    assert naf[..i] == naf[..i - 1] + [naf[i - 1]];
    ValueAppend(naf[..i - 1], [naf[i - 1]]);
    assert Value([naf[i - 1]]) == naf[i - 1] by {
      assert [naf[i - 1]][1..] == [];
    }
  }

  /** The scaling factor iteration i applies to the exponent of f. */
  function Doubles(naf: seq<int>, sc: Scaling, i: nat): int {
    if sc.Plain? && i == |naf| - 1 then 1 else 2
  }

  /** The exponent of g in c, or 0 for a plain loop. */
  function CExp(sc: Scaling, g: Gen): int {
    if sc.Scaled? then Exp(sc.c, g) else 0
  }

  /** Iteration i in terms of its two passes. */
  lemma IterationUnfold(naf: seq<int>, pairs: seq<Pair>, sc: Scaling, check: Option<seq<G2Affine>>,
                        i: nat, f: Fq12, m: nat, f1: Fq12, f2: Fq12)
    requires 1 <= i < |naf|
    requires Pass(Adjust(naf, sc, i, f), pairs, m, check, Doubling) == Ok(f1)
    requires naf[i - 1] == 1 ==> Pass(f1, pairs, m + 1, check, AddQ) == Ok(f2)
    requires naf[i - 1] == -1 ==> Pass(f1, pairs, m + 1, check, AddNegQ) == Ok(f2)
    requires naf[i - 1] != 1 && naf[i - 1] != -1 ==> f2 == f1
    ensures Iterations(naf, pairs, sc, check, i, f, m)
         == Iterations(naf, pairs, sc, check, i - 1, f2, m + |IterationSteps(naf[i - 1])|)
  {
  }

  /** One iteration i: it succeeds when every pair has its coefficients, and
      hands over to iteration i - 1 the adjusted value times the lines it
      pulled. */
  lemma IterationStep(naf: seq<int>, pairs: seq<Pair>, sc: Scaling, check: Option<seq<G2Affine>>,
                      i: nat, f: Fq12, m: nat) returns (f2: Fq12)
    requires 1 <= i < |naf| && AllDigits(naf) && f.Units? && ScalingOk(sc)
    requires forall j :: 0 <= j < |pairs| ==> m + |IterationSteps(naf[i - 1])| <= |pairs[j].coeffs|
    requires ChecksPass(pairs, m, check, IterationSteps(naf[i - 1]))
    ensures f2.Units?
    ensures Iterations(naf, pairs, sc, check, i, f, m)
         == Iterations(naf, pairs, sc, check, i - 1, f2, m + |IterationSteps(naf[i - 1])|)
    ensures forall g ::
              Exp(f2, g) == Doubles(naf, sc, i) * Exp(f, g) - naf[i - 1] * CExp(sc, g) + RowExp(pairs, m, g)
                            + (if naf[i - 1] == 1 || naf[i - 1] == -1 then RowExp(pairs, m + 1, g) else 0)
  {
    var x := naf[i - 1];
    var steps := IterationSteps(x);
    var f0 := Adjust(naf, sc, i, f);
    AdjustExp(naf, sc, i, f);
    assert steps == [Doubling] + steps[1..];
    ChecksPassSplit(pairs, m, check, [Doubling], steps[1..]);
    ChecksPassAt(pairs, m, check, Doubling);
    PassSucceeds(f0, pairs, m, check, Doubling);
    var f1 := Pass(f0, pairs, m, check, Doubling).value;
    f2 := f1;
    if x == 1 || x == -1 {
      var add := if x == 1 then AddQ else AddNegQ;
      ChecksPassSplit(pairs, m, check, [Doubling], [add]);
      ChecksPassAt(pairs, m + 1, check, add);
      PassSucceeds(f1, pairs, m + 1, check, add);
      f2 := Pass(f1, pairs, m + 1, check, add).value;
    }
    IterationUnfold(naf, pairs, sc, check, i, f, m, f1, f2);
  }

  /** The exponent iterations i, ..., 1 leave in the accumulator for g. */
  function IterationsExp(naf: seq<int>, pairs: seq<Pair>, sc: Scaling, i: nat, f: Fq12, m: nat, g: Gen): int
    requires i < |naf|
  {
    Pow2(Squarings(naf, sc, i)) * Exp(f, g) - CShift(naf, sc, i, g) + ClosedExp(pairs, m, LoopWeights(naf, i), g)
  }

  /** What iterations i, ..., 1 need to run from f at cursor m: a digit
      table, a non-zero start, a well-formed scaling, the coefficients they
      pull, and (on the on-prove loop) a check that accepts them. */
  predicate Ready(naf: seq<int>, pairs: seq<Pair>, sc: Scaling, check: Option<seq<G2Affine>>,
                  i: nat, f: Fq12, m: nat) {
    && i < |naf| && AllDigits(naf) && f.Units? && ScalingOk(sc)
    && (forall j :: 0 <= j < |pairs| ==> m + |LoopSteps(naf, i)| <= |pairs[j].coeffs|)
    && ChecksPass(pairs, m, check, LoopSteps(naf, i))
  }

  /** A run that ended without a panic, at cursor m, on a non-zero value. */
  predicate RanTo(r: Result<(Fq12, nat)>, m: nat) {
    r.Ok? && r.value.1 == m && r.value.0.Units?
  }

  /** Iterations i, ..., 1 succeed when every pair has the coefficients they
      pull (and the on-prove check accepts them); the result squares the
      start value once per squaring, multiplies in c^-Value(naf[..i]) in a
      scaled loop, and multiplies in every pulled line with its weight. */
  lemma IterationsSucceed(naf: seq<int>, pairs: seq<Pair>, sc: Scaling, check: Option<seq<G2Affine>>,
                          i: nat, f: Fq12, m: nat)
    requires i < |naf| && AllDigits(naf) && f.Units? && ScalingOk(sc)
    requires forall j :: 0 <= j < |pairs| ==> m + |LoopSteps(naf, i)| <= |pairs[j].coeffs|
    requires ChecksPass(pairs, m, check, LoopSteps(naf, i))
    ensures Iterations(naf, pairs, sc, check, i, f, m).Ok?
    ensures Iterations(naf, pairs, sc, check, i, f, m).value.1 == m + |LoopSteps(naf, i)|
    ensures Iterations(naf, pairs, sc, check, i, f, m).value.0.Units?
    ensures forall g ::
              Exp(Iterations(naf, pairs, sc, check, i, f, m).value.0, g) == IterationsExp(naf, pairs, sc, i, f, m, g)
  {
    IterationsRun(naf, pairs, sc, check, i, f, m);
  }

  /** The iterations run to the end, leave the cursor after their steps,
      and leave the exponents `IterationsExp` describes. */
  lemma {:induction false} IterationsRun(naf: seq<int>, pairs: seq<Pair>, sc: Scaling, check: Option<seq<G2Affine>>,
                                         i: nat, f: Fq12, m: nat)
    requires Ready(naf, pairs, sc, check, i, f, m)
    ensures RanTo(Iterations(naf, pairs, sc, check, i, f, m), m + |LoopSteps(naf, i)|)
    ensures forall g ::
              Exp(Iterations(naf, pairs, sc, check, i, f, m).value.0, g) == IterationsExp(naf, pairs, sc, i, f, m, g)
    decreases i
  {
    if i == 0 {
      NoIterations(naf, pairs, sc, check, f, m);
    } else {
      var f2, m' := IterationReady(naf, pairs, sc, check, i, f, m);
      IterationsRun(naf, pairs, sc, check, i - 1, f2, m');
      IterationsExpChain(naf, pairs, sc, i, f, f2, m, m', Iterations(naf, pairs, sc, check, i - 1, f2, m').value.0);
    }
  }

  /** Zero iterations leave f and the cursor unchanged. */
  lemma NoIterations(naf: seq<int>, pairs: seq<Pair>, sc: Scaling, check: Option<seq<G2Affine>>, f: Fq12, m: nat)
    requires 0 < |naf|
    ensures Iterations(naf, pairs, sc, check, 0, f, m) == Ok((f, m))
    ensures |LoopSteps(naf, 0)| == 0
    ensures forall g :: IterationsExp(naf, pairs, sc, 0, f, m, g) == Exp(f, g)
  {
    assert naf[..0] == [];
  }

  /** Iteration i runs, and leaves iterations i - 1, ..., 1 with what they
      need: their coefficients are there and the check accepts them. */
  lemma IterationReady(naf: seq<int>, pairs: seq<Pair>, sc: Scaling, check: Option<seq<G2Affine>>,
                       i: nat, f: Fq12, m: nat) returns (f2: Fq12, m': nat)
    requires 1 <= i && Ready(naf, pairs, sc, check, i, f, m)
    ensures m' == m + |IterationSteps(naf[i - 1])|
    ensures m' + |LoopSteps(naf, i - 1)| == m + |LoopSteps(naf, i)|
    ensures Ready(naf, pairs, sc, check, i - 1, f2, m')
    ensures Iterations(naf, pairs, sc, check, i, f, m) == Iterations(naf, pairs, sc, check, i - 1, f2, m')
    ensures forall g ::
              Exp(f2, g) == Doubles(naf, sc, i) * Exp(f, g) - naf[i - 1] * CExp(sc, g) + RowExp(pairs, m, g)
                            + (if naf[i - 1] == 1 || naf[i - 1] == -1 then RowExp(pairs, m + 1, g) else 0)
  {
    var steps := IterationSteps(naf[i - 1]);
    assert LoopSteps(naf, i) == steps + LoopSteps(naf, i - 1);
    ChecksPassSplit(pairs, m, check, steps, LoopSteps(naf, i - 1));
    m' := m + |steps|;
    f2 := IterationStep(naf, pairs, sc, check, i, f, m);
  }

  /** The exponents of iteration i followed by iterations i - 1, ..., 1. */
  lemma IterationsExpChain(naf: seq<int>, pairs: seq<Pair>, sc: Scaling, i: nat, f: Fq12, f2: Fq12, m: nat, m': nat, fr: Fq12)
    requires 1 <= i < |naf|
    requires m' == m + |IterationSteps(naf[i - 1])|
    requires forall g ::
               Exp(f2, g) == Doubles(naf, sc, i) * Exp(f, g) - naf[i - 1] * CExp(sc, g) + RowExp(pairs, m, g)
                             + (if naf[i - 1] == 1 || naf[i - 1] == -1 then RowExp(pairs, m + 1, g) else 0)
    requires forall g :: Exp(fr, g) == IterationsExp(naf, pairs, sc, i - 1, f2, m', g)
    ensures forall g :: Exp(fr, g) == IterationsExp(naf, pairs, sc, i, f, m, g)
  {
    forall g
      ensures Exp(fr, g) == IterationsExp(naf, pairs, sc, i, f, m, g)
    {
      IterationExpStep(naf, pairs, sc, i, f, f2, m, g);
    }
  }

  /** The exponent bookkeeping of one iteration, for one generator. */
  lemma IterationExpStep(naf: seq<int>, pairs: seq<Pair>, sc: Scaling, i: nat, f: Fq12, f2: Fq12, m: nat, g: Gen)
    requires 1 <= i < |naf|
    requires Exp(f2, g) == Doubles(naf, sc, i) * Exp(f, g) - naf[i - 1] * CExp(sc, g) + RowExp(pairs, m, g)
                           + (if naf[i - 1] == 1 || naf[i - 1] == -1 then RowExp(pairs, m + 1, g) else 0)
    ensures IterationsExp(naf, pairs, sc, i - 1, f2, m + |IterationSteps(naf[i - 1])|, g)
         == IterationsExp(naf, pairs, sc, i, f, m, g)
  {
    var x := naf[i - 1];
    var w := Pow2(i - 1);
    var a2 := Doubles(naf, sc, i);
    var e := Exp(f, g);
    var sx := x * CExp(sc, g);
    var r0 := RowExp(pairs, m, g);
    var r1 := if x == 1 || x == -1 then RowExp(pairs, m + 1, g) else 0;
    var m' := m + |IterationSteps(x)|;
    var s1 := CShift(naf, sc, i - 1, g);
    var c1 := ClosedExp(pairs, m', LoopWeights(naf, i - 1), g);
    PowerOfSquarings(naf, sc, i);
    CShiftStep(naf, sc, i, g);
    IterationWeightsLength(x, w);
    assert LoopWeights(naf, i) == IterationWeights(x, w) + LoopWeights(naf, i - 1);
    ClosedExpIteration(pairs, m, x, w, LoopWeights(naf, i - 1), g);
    var c := ClosedExp(pairs, m, LoopWeights(naf, i), g);
    if x == 1 || x == -1 {
      assert c == w * r0 + w * r1 + c1;
    } else {
      assert c == w * r0 + w * 0 + c1;
    }
    assert IterationsExp(naf, pairs, sc, i, f, m, g) == Pow2(Squarings(naf, sc, i)) * e - CShift(naf, sc, i, g) + c;
    assert IterationsExp(naf, pairs, sc, i - 1, f2, m', g) == w * Exp(f2, g) - s1 + c1;
    IterationAlgebra(w, a2, e, sx, r0, r1, s1, c1);
  }

  lemma PowerOfSquarings(naf: seq<int>, sc: Scaling, i: nat)
    requires 1 <= i < |naf|
    ensures Squarings(naf, sc, i - 1) == i - 1
    ensures Pow2(Squarings(naf, sc, i)) == Doubles(naf, sc, i) * Pow2(i - 1)
  {
  }

  lemma CShiftStep(naf: seq<int>, sc: Scaling, i: nat, g: Gen)
    requires 1 <= i <= |naf|
    ensures CShift(naf, sc, i, g) == CShift(naf, sc, i - 1, g) + Pow2(i - 1) * (naf[i - 1] * CExp(sc, g))
  {
    ValueBelow(naf, i);
    ShiftAlgebra(Value(naf[..i - 1]), naf[i - 1], Pow2(i - 1), CExp(sc, g));
  }

  /** Iterations stop with exhaustion as soon as one pair runs out. */
  lemma {:induction false} IterationsExhaust(naf: seq<int>, pairs: seq<Pair>, sc: Scaling, i: nat, f: Fq12, m: nat)
    requires i < |naf|
    requires forall j :: 0 <= j < |pairs| ==> m <= |pairs[j].coeffs|
    requires exists j :: 0 <= j < |pairs| && |pairs[j].coeffs| < m + |LoopSteps(naf, i)|
    ensures Iterations(naf, pairs, sc, None, i, f, m) == Failed(CoeffsExhausted)
    decreases i
  {
    var ok, f2, m' := ExhaustStep(naf, pairs, sc, i, f, m);
    if ok {
      IterationsExhaust(naf, pairs, sc, i - 1, f2, m');
    }
  }

  /** One iteration without a check: it either exhausts some list, or runs
      and leaves every list with at least the cursor after it. */
  lemma ExhaustStep(naf: seq<int>, pairs: seq<Pair>, sc: Scaling, i: nat, f: Fq12, m: nat)
    returns (ok: bool, f2: Fq12, m': nat)
    requires 1 <= i < |naf|
    requires forall j :: 0 <= j < |pairs| ==> m <= |pairs[j].coeffs|
    ensures m' + |LoopSteps(naf, i - 1)| == m + |LoopSteps(naf, i)|
    ensures !ok ==> Iterations(naf, pairs, sc, None, i, f, m) == Failed(CoeffsExhausted)
    ensures ok ==> forall j :: 0 <= j < |pairs| ==> m' <= |pairs[j].coeffs|
    ensures ok ==> Iterations(naf, pairs, sc, None, i, f, m) == Iterations(naf, pairs, sc, None, i - 1, f2, m')
  {
    var x := naf[i - 1];
    assert LoopSteps(naf, i) == IterationSteps(x) + LoopSteps(naf, i - 1);
    m' := m + |IterationSteps(x)|;
    var f0 := Adjust(naf, sc, i, f);
    PassExhausts(f0, pairs, m, Doubling);
    ok, f2 := false, f;
    if Pass(f0, pairs, m, None, Doubling).Ok? {
      var f1 := Pass(f0, pairs, m, None, Doubling).value;
      if x == 1 || x == -1 {
        var add := if x == 1 then AddQ else AddNegQ;
        PassExhausts(f1, pairs, m + 1, add);
        if Pass(f1, pairs, m + 1, None, add).Ok? {
          ok, f2 := true, Pass(f1, pairs, m + 1, None, add).value;
          IterationUnfold(naf, pairs, sc, None, i, f, m, f1, f2);
        }
      } else {
        ok, f2 := true, f1;
        IterationUnfold(naf, pairs, sc, None, i, f, m, f1, f1);
      }
    }
  }

  /** The closing passes succeed when every list has exactly two entries
      left (each accepted by the check); they multiply in both rows. */
  lemma ClosingSucceeds(f: Fq12, pairs: seq<Pair>, m: nat, check: Option<seq<G2Affine>>)
    requires forall j :: 0 <= j < |pairs| ==> |pairs[j].coeffs| == m + 2
    requires ChecksPass(pairs, m, check, [AddFrobQ, AddNegFrobSquaredQ])
    ensures Closing(f, pairs, m, check).Ok?
    ensures Closing(f, pairs, m, check).value.Zero? <==> f.Zero?
    ensures f.Units? ==> forall g :: Exp(Closing(f, pairs, m, check).value, g)
                                     == Exp(f, g) + RowExp(pairs, m, g) + RowExp(pairs, m + 1, g)
  {
    assert [AddFrobQ, AddNegFrobSquaredQ] == [AddFrobQ] + [AddNegFrobSquaredQ];
    ChecksPassSplit(pairs, m, check, [AddFrobQ], [AddNegFrobSquaredQ]);
    ChecksPassAt(pairs, m, check, AddFrobQ);
    ChecksPassAt(pairs, m + 1, check, AddNegFrobSquaredQ);
    PassSucceeds(f, pairs, m, check, AddFrobQ);
    var f1 := Pass(f, pairs, m, check, AddFrobQ).value;
    PassSucceeds(f1, pairs, m + 1, check, AddNegFrobSquaredQ);
  }

  /** Without a check, the closing passes fail when a list does not have
      exactly two entries left: exhaustion when it has fewer, the leftover
      assertion when it has more. */
  lemma ClosingFails(f: Fq12, pairs: seq<Pair>, m: nat)
    requires forall j :: 0 <= j < |pairs| ==> m <= |pairs[j].coeffs|
    requires exists j :: 0 <= j < |pairs| && |pairs[j].coeffs| != m + 2
    ensures Closing(f, pairs, m, None).Failed?
    ensures Closing(f, pairs, m, None).panic == CoeffsExhausted || Closing(f, pairs, m, None).panic == CoeffsLeftOver
    ensures (exists j :: 0 <= j < |pairs| && |pairs[j].coeffs| < m + 2)
            <==> Closing(f, pairs, m, None).panic == CoeffsExhausted
  {
    PassExhausts(f, pairs, m, AddFrobQ);
    if Pass(f, pairs, m, None, AddFrobQ).Ok? {
      var f1 := Pass(f, pairs, m, None, AddFrobQ).value;
      PassExhausts(f1, pairs, m + 1, AddNegFrobSquaredQ);
    }
  }
}
