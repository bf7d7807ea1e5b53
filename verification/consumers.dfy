/** What the plain and scaled loops return, and how they relate.

    `PlainLoopClosedForm` and `ScaledAccumulatorClosedForm` describe a run
    over arbitrary pairs; the remaining lemmas specialise them to the
    engine's entry points: success on lists made by `from_affine`, the empty
    product, multiplicativity over concatenated term lists, and the scaled
    loop as the plain loop times wi * c^-lambda. */
module Consumers {
  import opened Digits
  import opened Tables
  import opened LambdaConstants
  import opened Points
  import opened TargetField
  import opened Wrappers
  import opened Schedule
  import opened MillerLoop
  import opened LoopTheory

  /** Every pair has exactly as many coefficients as the schedule. */
  predicate FitsSchedule(naf: seq<int>, pairs: seq<Pair>)
    requires |naf| >= 1
  {
    forall j :: 0 <= j < |pairs| ==> |pairs[j].coeffs| == |ScheduleOf(naf)|
  }

  /** The closed form splits into the loop part and the two Frobenius rows. */
  lemma WeightsSplit(naf: seq<int>, pairs: seq<Pair>, g: Gen)
    requires |naf| >= 1
    ensures ClosedExp(pairs, 0, Weights(naf), g)
         == ClosedExp(pairs, 0, LoopWeights(naf, |naf| - 1), g)
            + RowExp(pairs, |LoopSteps(naf, |naf| - 1)|, g) + RowExp(pairs, |LoopSteps(naf, |naf| - 1)| + 1, g)
  {
    var lw := LoopWeights(naf, |naf| - 1);
    LoopWeightsLength(naf, |naf| - 1);
    ClosedExpAppend(pairs, 0, lw, [1, 1], g);
    assert [1, 1][1..] == [1];
    assert [1][1..] == [];
  }

  /** Starting from one, only the lines remain. */
  lemma StartFromOne(naf: seq<int>, pairs: seq<Pair>, g: Gen)
    requires |naf| >= 1
    ensures IterationsExp(naf, pairs, Plain, |naf| - 1, One(), 0, g) == ClosedExp(pairs, 0, LoopWeights(naf, |naf| - 1), g)
  {
    var k := Pow2(Squarings(naf, Plain, |naf| - 1));
    assert Exp(One(), g) == 0;
    assert k * 0 == 0;
  }

  /** `PlainLoop` in terms of its iterations. */
  lemma PlainLoopUnfold(naf: seq<int>, pairs: seq<Pair>)
    requires |naf| >= 1
    ensures Iterations(naf, pairs, Plain, None, |naf| - 1, One(), 0).Failed? ==>
              PlainLoop(naf, pairs) == Failed(Iterations(naf, pairs, Plain, None, |naf| - 1, One(), 0).panic)
    ensures Iterations(naf, pairs, Plain, None, |naf| - 1, One(), 0).Ok? ==>
              var r := Iterations(naf, pairs, Plain, None, |naf| - 1, One(), 0).value;
              PlainLoop(naf, pairs) == Closing(r.0, pairs, r.1, None)
  {
  }

  /** When no list is too short for the iterations, the plain loop reaches
      its closing passes with the lines of the iterations multiplied in. */
  lemma PlainIterations(naf: seq<int>, pairs: seq<Pair>) returns (f: Fq12)
    requires |naf| >= 1 && AllDigits(naf)
    requires forall j :: 0 <= j < |pairs| ==> |LoopSteps(naf, |naf| - 1)| <= |pairs[j].coeffs|
    ensures PlainLoop(naf, pairs) == Closing(f, pairs, |LoopSteps(naf, |naf| - 1)|, None)
    ensures f.Units? && forall g :: Exp(f, g) == ClosedExp(pairs, 0, LoopWeights(naf, |naf| - 1), g)
  {
    var n := |naf|;
    PlainLoopUnfold(naf, pairs);
    IterationsSucceed(naf, pairs, Plain, None, n - 1, One(), 0);
    f := Iterations(naf, pairs, Plain, None, n - 1, One(), 0).value.0;
    forall g
      ensures Exp(f, g) == ClosedExp(pairs, 0, LoopWeights(naf, n - 1), g)
    {
      StartFromOne(naf, pairs, g);
    }
  }

  /** A list too short for the iterations makes the plain loop panic. */
  lemma PlainLoopShortList(naf: seq<int>, pairs: seq<Pair>)
    requires |naf| >= 1 && AllDigits(naf)
    requires exists j :: 0 <= j < |pairs| && |pairs[j].coeffs| < |LoopSteps(naf, |naf| - 1)|
    ensures PlainLoop(naf, pairs) == Failed(CoeffsExhausted)
  {
    PlainLoopUnfold(naf, pairs);
    IterationsExhaust(naf, pairs, Plain, |naf| - 1, One(), 0);
  }

  /** Lists long enough for the iterations: the closing passes decide. */
  lemma PlainLoopLongLists(naf: seq<int>, pairs: seq<Pair>)
    requires |naf| >= 1 && AllDigits(naf)
    requires forall j :: 0 <= j < |pairs| ==> |LoopSteps(naf, |naf| - 1)| <= |pairs[j].coeffs|
    ensures PlainLoop(naf, pairs).Ok? <==> FitsSchedule(naf, pairs)
    ensures PlainLoop(naf, pairs).Failed? ==>
              PlainLoop(naf, pairs).panic == CoeffsExhausted || PlainLoop(naf, pairs).panic == CoeffsLeftOver
    ensures PlainLoop(naf, pairs).Ok? ==> PlainLoop(naf, pairs).value.Units?
    ensures PlainLoop(naf, pairs).Ok? ==>
              forall g :: Exp(PlainLoop(naf, pairs).value, g) == ClosedExp(pairs, 0, Weights(naf), g)
  {
    var len := |LoopSteps(naf, |naf| - 1)|;
    assert |ScheduleOf(naf)| == len + 2;
    var f := PlainIterations(naf, pairs);
    if FitsSchedule(naf, pairs) {
      ClosingSucceeds(f, pairs, len, None);
      forall g
        ensures Exp(PlainLoop(naf, pairs).value, g) == ClosedExp(pairs, 0, Weights(naf), g)
      {
        WeightsSplit(naf, pairs, g);
      }
    } else {
      ClosingFails(f, pairs, len);
    }
  }

  /** The plain loop succeeds exactly when every kept list has the
      schedule's length; it then returns the product of all lines, each
      raised to the weight of its position.  It only ever fails on a list
      that is too short or too long. */
  lemma PlainLoopClosedForm(naf: seq<int>, pairs: seq<Pair>)
    requires |naf| >= 1 && AllDigits(naf)
    ensures PlainLoop(naf, pairs).Ok? <==> FitsSchedule(naf, pairs)
    ensures PlainLoop(naf, pairs).Failed? ==>
              PlainLoop(naf, pairs).panic == CoeffsExhausted || PlainLoop(naf, pairs).panic == CoeffsLeftOver
    ensures PlainLoop(naf, pairs).Ok? ==> PlainLoop(naf, pairs).value.Units?
    ensures PlainLoop(naf, pairs).Ok? ==>
              forall g :: Exp(PlainLoop(naf, pairs).value, g) == ClosedExp(pairs, 0, Weights(naf), g)
  {
    var len := |LoopSteps(naf, |naf| - 1)|;
    assert |ScheduleOf(naf)| == len + 2;
    if forall j :: 0 <= j < |pairs| ==> len <= |pairs[j].coeffs| {
      PlainLoopLongLists(naf, pairs);
    } else {
      PlainLoopShortList(naf, pairs);
    }
  }

  /** The total power of c^-1 the scaled loop multiplies in: the start value
      c^-1 squared n - 1 times, the digit corrections, and the three
      Frobenius terms. */
  function CTotal(naf: seq<int>, p: int): int
    requires |naf| >= 1
  {
    Pow2(|naf| - 1) + Value(naf[..|naf| - 1]) + p - p * p + p * p * p
  }

  lemma ScaleAlgebra(e: int, ec: int, ei: int, w: int, v: int, p: int, ew: int, cl: int)
    requires ei == -ec
    requires e == w * ei - v * ec + cl
    ensures e - p * ec + p * p * ec - p * p * p * ec + ew == cl + ew - (w + v + p - p * p + p * p * p) * ec
  {
  }

  /** The Frobenius factor and wi applied to the loop value. */
  lemma ScaleFactorExp(f: Fq12, c: Fq12, cInv: Fq12, wi: Fq12, p: int)
    requires f.Units? && c.Units? && Invert(c) == Some(cInv)
    ensures ScaleFactor(f, c, cInv, wi, p).Zero? <==> wi.Zero?
    ensures wi.Units? ==> forall g :: Exp(ScaleFactor(f, c, cInv, wi, p), g)
                                      == Exp(f, g) - p * Exp(c, g) + p * p * Exp(c, g) - p * p * p * Exp(c, g) + Exp(wi, g)
  {
    assert IntPow(p, 1) == p;
    assert IntPow(p, 2) == p * p;
    assert IntPow(p, 3) == p * (p * p);
  }

  /** `ScaledAccumulator` in terms of its iterations. */
  lemma ScaledAccumulatorUnfold(naf: seq<int>, p: int, c: Fq12, wi: Fq12, pairs: seq<Pair>, check: Option<seq<G2Affine>>)
    requires |naf| >= 1
    ensures c.Zero? ==> ScaledAccumulator(naf, p, c, wi, pairs, check) == Failed(NoInverse)
    ensures c.Units? ==>
              var cInv := Invert(c).value;
              var it := Iterations(naf, pairs, Scaled(c, cInv), check, |naf| - 1, cInv, 0);
              && (it.Failed? ==> ScaledAccumulator(naf, p, c, wi, pairs, check) == Failed(it.panic))
              && (it.Ok? ==> ScaledAccumulator(naf, p, c, wi, pairs, check)
                             == Closing(ScaleFactor(it.value.0, c, cInv, wi, p), pairs, it.value.1, check))
  {
  }

  /** The iterations of a scaled loop leave c^-(2^(n-1) + Value(naf[..n-1]))
      times the weighted lines; the Frobenius terms and wi complete the
      value the closing passes start from. */
  lemma ScaledIterations(naf: seq<int>, p: int, c: Fq12, wi: Fq12, pairs: seq<Pair>, check: Option<seq<G2Affine>>)
    returns (h: Fq12)
    requires |naf| >= 1 && AllDigits(naf) && c.Units?
    requires forall j :: 0 <= j < |pairs| ==> |LoopSteps(naf, |naf| - 1)| <= |pairs[j].coeffs|
    requires ChecksPass(pairs, 0, check, LoopSteps(naf, |naf| - 1))
    ensures ScaledAccumulator(naf, p, c, wi, pairs, check) == Closing(h, pairs, |LoopSteps(naf, |naf| - 1)|, check)
    ensures h.Zero? <==> wi.Zero?
    ensures wi.Units? ==> forall g :: Exp(h, g) == ClosedExp(pairs, 0, LoopWeights(naf, |naf| - 1), g)
                                                   + Exp(wi, g) - CTotal(naf, p) * Exp(c, g)
  {
    var n := |naf|;
    var cInv := Invert(c).value;
    var sc := Scaled(c, cInv);
    ScaledAccumulatorUnfold(naf, p, c, wi, pairs, check);
    IterationsSucceed(naf, pairs, sc, check, n - 1, cInv, 0);
    var f := Iterations(naf, pairs, sc, check, n - 1, cInv, 0).value.0;
    h := ScaleFactor(f, c, cInv, wi, p);
    ScaleFactorExp(f, c, cInv, wi, p);
    if wi.Units? {
      forall g
        ensures Exp(h, g) == ClosedExp(pairs, 0, LoopWeights(naf, n - 1), g) + Exp(wi, g) - CTotal(naf, p) * Exp(c, g)
      {
        ScaledExpAt(naf, p, c, cInv, wi, pairs, f, g);
      }
    }
  }

  /** The exponent bookkeeping of `ScaledIterations`, for one generator. */
  lemma ScaledExpAt(naf: seq<int>, p: int, c: Fq12, cInv: Fq12, wi: Fq12, pairs: seq<Pair>, f: Fq12, g: Gen)
    requires |naf| >= 1 && c.Units? && Invert(c) == Some(cInv) && f.Units? && wi.Units?
    requires Exp(f, g) == IterationsExp(naf, pairs, Scaled(c, cInv), |naf| - 1, cInv, 0, g)
    ensures Exp(ScaleFactor(f, c, cInv, wi, p), g)
            == ClosedExp(pairs, 0, LoopWeights(naf, |naf| - 1), g) + Exp(wi, g) - CTotal(naf, p) * Exp(c, g)
  {
    var n := |naf|;
    var e, ec, ei := Exp(f, g), Exp(c, g), Exp(cInv, g);
    var w, v := Pow2(n - 1), Value(naf[..n - 1]);
    var cl := ClosedExp(pairs, 0, LoopWeights(naf, n - 1), g);
    assert Squarings(naf, Scaled(c, cInv), n - 1) == n - 1;
    assert CShift(naf, Scaled(c, cInv), n - 1, g) == v * ec;
    assert e == w * ei - v * ec + cl;
    ScaleFactorExp(f, c, cInv, wi, p);
    assert Exp(ScaleFactor(f, c, cInv, wi, p), g) == e - p * ec + p * p * ec - p * p * p * ec + Exp(wi, g);
    ScaleAlgebra(e, ec, ei, w, v, p, Exp(wi, g), cl);
  }

  /** A list too short for the iterations makes the scaled loop panic. */
  lemma ScaledShortList(naf: seq<int>, p: int, c: Fq12, wi: Fq12, pairs: seq<Pair>)
    requires |naf| >= 1 && AllDigits(naf) && c.Units?
    requires exists j :: 0 <= j < |pairs| && |pairs[j].coeffs| < |LoopSteps(naf, |naf| - 1)|
    ensures ScaledAccumulator(naf, p, c, wi, pairs, None) == Failed(CoeffsExhausted)
  {
    var cInv := Invert(c).value;
    ScaledAccumulatorUnfold(naf, p, c, wi, pairs, None);
    IterationsExhaust(naf, pairs, Scaled(c, cInv), |naf| - 1, cInv, 0);
  }

  /** The scaled loop over lists that fit the schedule and pass the checks. */
  lemma ScaledFittingLists(naf: seq<int>, p: int, c: Fq12, wi: Fq12, pairs: seq<Pair>, check: Option<seq<G2Affine>>)
    requires |naf| >= 1 && AllDigits(naf) && c.Units?
    requires FitsSchedule(naf, pairs)
    requires ChecksPass(pairs, 0, check, ScheduleOf(naf))
    ensures ScaledAccumulator(naf, p, c, wi, pairs, check).Ok?
    ensures ScaledAccumulator(naf, p, c, wi, pairs, check).value.Zero? <==> wi.Zero?
    ensures wi.Units? ==> forall g :: Exp(ScaledAccumulator(naf, p, c, wi, pairs, check).value, g)
                                      == ClosedExp(pairs, 0, Weights(naf), g) + Exp(wi, g) - CTotal(naf, p) * Exp(c, g)
  {
    var len := FittingSplit(naf, pairs, check);
    var h := ScaledIterations(naf, p, c, wi, pairs, check);
    ClosingSucceeds(h, pairs, len, check);
    if wi.Units? {
      FittingExp(naf, p, c, wi, pairs, len, h, Closing(h, pairs, len, check).value);
    }
  }

  /** The exponents of `ScaledFittingLists`: the closing rows complete the
      loop weights to the schedule's weights. */
  lemma FittingExp(naf: seq<int>, p: int, c: Fq12, wi: Fq12, pairs: seq<Pair>, len: nat, h: Fq12, res: Fq12)
    requires |naf| >= 1 && len == |LoopSteps(naf, |naf| - 1)|
    requires forall g :: Exp(h, g) == ClosedExp(pairs, 0, LoopWeights(naf, |naf| - 1), g)
                                      + Exp(wi, g) - CTotal(naf, p) * Exp(c, g)
    requires forall g :: Exp(res, g) == Exp(h, g) + RowExp(pairs, len, g) + RowExp(pairs, len + 1, g)
    ensures forall g :: Exp(res, g) == ClosedExp(pairs, 0, Weights(naf), g) + Exp(wi, g) - CTotal(naf, p) * Exp(c, g)
  {
    forall g
      ensures Exp(res, g) == ClosedExp(pairs, 0, Weights(naf), g) + Exp(wi, g) - CTotal(naf, p) * Exp(c, g)
    {
      WeightsSplit(naf, pairs, g);
      FittingExpAt(Exp(res, g), Exp(h, g), ClosedExp(pairs, 0, LoopWeights(naf, |naf| - 1), g),
                   RowExp(pairs, len, g), RowExp(pairs, len + 1, g), ClosedExp(pairs, 0, Weights(naf), g),
                   Exp(wi, g) - CTotal(naf, p) * Exp(c, g));
    }
  }

  /** A list that fits the schedule covers the iterations and leaves
      exactly the two Frobenius entries, each passing its check. */
  lemma FittingSplit(naf: seq<int>, pairs: seq<Pair>, check: Option<seq<G2Affine>>) returns (len: nat)
    requires |naf| >= 1
    requires FitsSchedule(naf, pairs)
    requires ChecksPass(pairs, 0, check, ScheduleOf(naf))
    ensures len == |LoopSteps(naf, |naf| - 1)|
    ensures forall j :: 0 <= j < |pairs| ==> len <= |pairs[j].coeffs|
    ensures forall j :: 0 <= j < |pairs| ==> |pairs[j].coeffs| == len + 2
    ensures ChecksPass(pairs, 0, check, LoopSteps(naf, |naf| - 1))
    ensures ChecksPass(pairs, len, check, [AddFrobQ, AddNegFrobSquaredQ])
  {
    len := |LoopSteps(naf, |naf| - 1)|;
    assert |ScheduleOf(naf)| == len + 2;
    ChecksPassSplit(pairs, 0, check, LoopSteps(naf, |naf| - 1), [AddFrobQ, AddNegFrobSquaredQ]);
  }

  lemma FittingExpAt(er: int, eh: int, cl: int, r0: int, r1: int, cw: int, rest: int)
    requires er == eh + r0 + r1 && eh == cl + rest && cw == cl + r0 + r1
    ensures er == cw + rest
  {
  }

  /** Lists long enough for the iterations, with at least one that does not
      fit the schedule: the closing passes panic. */
  lemma ScaledMisfit(naf: seq<int>, p: int, c: Fq12, wi: Fq12, pairs: seq<Pair>)
    requires |naf| >= 1 && AllDigits(naf) && c.Units?
    requires forall j :: 0 <= j < |pairs| ==> |LoopSteps(naf, |naf| - 1)| <= |pairs[j].coeffs|
    requires !FitsSchedule(naf, pairs)
    ensures ScaledAccumulator(naf, p, c, wi, pairs, None).Failed?
    ensures ScaledAccumulator(naf, p, c, wi, pairs, None).panic in {CoeffsExhausted, CoeffsLeftOver}
  {
    var len := |LoopSteps(naf, |naf| - 1)|;
    var h := ScaledIterations(naf, p, c, wi, pairs, None);
    ClosingFails(h, pairs, len);
  }

  /** The scaled loop panics without an inverse of c.  Otherwise it succeeds
      (up to the final check) exactly when every list has the schedule's
      length, and returns the closed form times wi times c^-CTotal. */
  lemma ScaledAccumulatorClosedForm(naf: seq<int>, p: int, c: Fq12, wi: Fq12, pairs: seq<Pair>)
    requires |naf| >= 1 && AllDigits(naf)
    ensures c.Zero? ==> ScaledAccumulator(naf, p, c, wi, pairs, None) == Failed(NoInverse)
    ensures c.Units? ==> (ScaledAccumulator(naf, p, c, wi, pairs, None).Ok? <==> FitsSchedule(naf, pairs))
    ensures c.Units? && ScaledAccumulator(naf, p, c, wi, pairs, None).Failed? ==>
              ScaledAccumulator(naf, p, c, wi, pairs, None).panic in {CoeffsExhausted, CoeffsLeftOver}
    ensures c.Units? && ScaledAccumulator(naf, p, c, wi, pairs, None).Ok? ==>
              (ScaledAccumulator(naf, p, c, wi, pairs, None).value.Zero? <==> wi.Zero?)
    ensures c.Units? && wi.Units? && ScaledAccumulator(naf, p, c, wi, pairs, None).Ok? ==>
              forall g :: Exp(ScaledAccumulator(naf, p, c, wi, pairs, None).value, g)
                          == ClosedExp(pairs, 0, Weights(naf), g) + Exp(wi, g) - CTotal(naf, p) * Exp(c, g)
  {
    ScaledAccumulatorUnfold(naf, p, c, wi, pairs, None);
    if c.Units? {
      var len := |LoopSteps(naf, |naf| - 1)|;
      assert |ScheduleOf(naf)| == len + 2;
      if FitsSchedule(naf, pairs) {
        ScaledFittingLists(naf, p, c, wi, pairs, None);
      } else if forall j :: 0 <= j < |pairs| ==> len <= |pairs[j].coeffs| {
        ScaledMisfit(naf, p, c, wi, pairs);
      } else {
        ScaledShortList(naf, p, c, wi, pairs);
      }
    }
  }
}
