/** The engine's entry points over term lists: `multi_miller_loop` and
    `multi_miller_loop_c_wi` with the 65-digit loop constant. */
module EngineLoops {
  import opened Digits
  import opened Tables
  import opened LambdaConstants
  import opened Points
  import opened TargetField
  import opened Wrappers
  import opened Schedule
  import opened MillerLoop
  import opened LoopTheory
  import opened Consumers

  /** A term the loops drop: identity G1 point or G2 preparation at infinity. */
  predicate Degenerate(t: (G1Affine, G2Prepared)) {
    t.0.G1Identity? || t.1.infinity
  }

  lemma {:induction false} FilterAppend(a: seq<(G1Affine, G2Prepared)>, b: seq<(G1Affine, G2Prepared)>)
    ensures Filter(a + b) == Filter(a) + Filter(b)
    decreases |a|
  {
    if |a| == 0 {
      assert a + b == b;
    } else {
      assert (a + b)[1..] == a[1..] + b;
      FilterAppend(a[1..], b);
    }
  }

  /** The filter keeps the non-degenerate terms, in order, and nothing else:
      extending the terms by one extends what is kept by that term exactly
      when it is not degenerate. */
  lemma {:induction false} FilterKeeps(terms: seq<(G1Affine, G2Prepared)>)
    ensures forall j :: 0 <= j < |terms| ==>
              Filter(terms[..j + 1])
              == Filter(terms[..j]) + (if Degenerate(terms[j]) then [] else [Pair(terms[j].0, terms[j].1.coeffs)])
    ensures |Filter(terms)| <= |terms|
    ensures (forall j :: 0 <= j < |terms| ==> Degenerate(terms[j])) <==> Filter(terms) == []
    ensures (forall j :: 0 <= j < |terms| ==> !Degenerate(terms[j])) ==>
              |Filter(terms)| == |terms|
              && forall j :: 0 <= j < |terms| ==> Filter(terms)[j] == Pair(terms[j].0, terms[j].1.coeffs)
    decreases |terms|
  {
    forall j | 0 <= j < |terms|
      ensures Filter(terms[..j + 1])
              == Filter(terms[..j]) + (if Degenerate(terms[j]) then [] else [Pair(terms[j].0, terms[j].1.coeffs)])
    {
      assert terms[..j + 1] == terms[..j] + [terms[j]];
      FilterAppend(terms[..j], [terms[j]]);
      assert [terms[j]][1..] == [];
    }
    if |terms| > 0 {
      FilterKeeps(terms[1..]);
      assert forall j :: 1 <= j < |terms| ==> terms[j] == terms[1..][j - 1];
    }
  }

  lemma {:induction false} RowExpAppend(a: seq<Pair>, b: seq<Pair>, m: nat, g: Gen)
    ensures RowExp(a + b, m, g) == RowExp(a, m, g) + RowExp(b, m, g)
    decreases |a|
  {
    if |a| == 0 {
      assert a + b == b;
    } else {
      assert (a + b)[1..] == a[1..] + b;
      RowExpAppend(a[1..], b, m, g);
    }
  }

  lemma {:induction false} ClosedExpAppendPairs(a: seq<Pair>, b: seq<Pair>, m: nat, ws: seq<int>, g: Gen)
    ensures ClosedExp(a + b, m, ws, g) == ClosedExp(a, m, ws, g) + ClosedExp(b, m, ws, g)
    decreases |ws|
  {
    if |ws| > 0 {
      RowExpAppend(a, b, m, g);
      ClosedExpAppendPairs(a, b, m + 1, ws[1..], g);
      Distribute(ws[0], RowExp(a, m, g), RowExp(b, m, g));
    }
  }

  lemma Distribute(w: int, x: int, y: int)
    ensures w * (x + y) == w * x + w * y
  {
  }

  lemma EngineNaf()
    ensures |SixUPlus2Naf| >= 1 && AllDigits(SixUPlus2Naf)
  {
    EngineNafShape();
  }

  /** The lists of a concatenation fit exactly when the lists of both parts do. */
  lemma FitsScheduleAppend(naf: seq<int>, pa: seq<Pair>, pb: seq<Pair>)
    requires |naf| >= 1
    ensures FitsSchedule(naf, pa + pb) <==> FitsSchedule(naf, pa) && FitsSchedule(naf, pb)
  {
    assert forall j :: 0 <= j < |pa| ==> (pa + pb)[j] == pa[j];
    assert forall j :: 0 <= j < |pb| ==> (pa + pb)[|pa| + j] == pb[j];
  }

  /** "Sum of Miller loops": the loop over a concatenated term list succeeds
      exactly when the loops over both parts do, and is their product. */
  lemma MultiMillerLoopMultiplicative(a: seq<(G1Affine, G2Prepared)>, b: seq<(G1Affine, G2Prepared)>)
    ensures MultiMillerLoop(a + b).Ok? <==> MultiMillerLoop(a).Ok? && MultiMillerLoop(b).Ok?
    ensures MultiMillerLoop(a + b).Ok? ==>
              Same(MultiMillerLoop(a + b).value, Mul(MultiMillerLoop(a).value, MultiMillerLoop(b).value))
  {
    var naf := SixUPlus2Naf;
    EngineNaf();
    FilterAppend(a, b);
    var pa, pb := Filter(a), Filter(b);
    PlainLoopClosedForm(naf, pa);
    PlainLoopClosedForm(naf, pb);
    PlainLoopClosedForm(naf, pa + pb);
    FitsScheduleAppend(naf, pa, pb);
    if MultiMillerLoop(a + b).Ok? {
      forall g
        ensures Exp(MultiMillerLoop(a + b).value, g)
                == Exp(MultiMillerLoop(a).value, g) + Exp(MultiMillerLoop(b).value, g)
      {
        ClosedExpAppendPairs(pa, pb, 0, Weights(naf), g);
      }
    }
  }

  /** When every term is dropped, `multi_miller_loop` returns one. */
  lemma MultiMillerLoopOfDegenerateTerms(terms: seq<(G1Affine, G2Prepared)>)
    requires forall j :: 0 <= j < |terms| ==> Degenerate(terms[j])
    ensures MultiMillerLoop(terms).Ok?
    ensures IsOne(MultiMillerLoop(terms).value)
  {
    EngineNaf();
    FilterKeeps(terms);
    PlainLoopClosedForm(SixUPlus2Naf, []);
    ClosedExpOfNoPairs(0, Weights(SixUPlus2Naf));
    IsOneIsSameAsOne(MultiMillerLoop(terms).value);
  }

  lemma {:induction false} ClosedExpOfNoPairs(m: nat, ws: seq<int>)
    ensures forall g :: ClosedExp([], m, ws, g) == 0
    decreases |ws|
  {
    if |ws| > 0 {
      ClosedExpOfNoPairs(m + 1, ws[1..]);
    }
  }

  /** The terms of a pairing product: each G2 point prepared by
      `G2Prepared::from_affine`. */
  function PrepareTerms(ts: seq<(G1Affine, G2Affine)>): (r: seq<(G1Affine, G2Prepared)>)
    ensures |r| == |ts|
    ensures forall j :: 0 <= j < |ts| ==> r[j] == (ts[j].0, Prepare(SixUPlus2Naf, ts[j].1))
  {
    EngineNaf();
    seq(|ts|, j requires 0 <= j < |ts| => (ts[j].0, Prepare(SixUPlus2Naf, ts[j].1)))
  }

  /** Every kept list made by `from_affine` has the schedule's length. */
  lemma PreparedListsFit(terms: seq<(G1Affine, G2Prepared)>)
    requires forall j :: 0 <= j < |terms| ==> !terms[j].1.infinity ==> |terms[j].1.coeffs| == |MillerSchedule()|
    ensures FitsSchedule(SixUPlus2Naf, Filter(terms))
  {
    KeptListsOfLength(terms, |MillerSchedule()|);
  }

  /** When every list not at infinity has length len, so has every kept list. */
  lemma {:induction false} KeptListsOfLength(terms: seq<(G1Affine, G2Prepared)>, len: nat)
    requires forall j :: 0 <= j < |terms| ==> !terms[j].1.infinity ==> |terms[j].1.coeffs| == len
    ensures forall j :: 0 <= j < |Filter(terms)| ==> |Filter(terms)[j].coeffs| == len
    decreases |terms|
  {
    if |terms| > 0 {
      assert forall j :: 0 <= j < |terms[1..]| ==> terms[1..][j] == terms[j + 1];
      KeptListsOfLength(terms[1..], len);
      var head := if !terms[0].0.G1Identity? && !terms[0].1.infinity then [Pair(terms[0].0, terms[0].1.coeffs)] else [];
      assert Filter(terms) == head + Filter(terms[1..]);
      assert forall j :: 0 <= j < |head| ==> (head + Filter(terms[1..]))[j] == head[j];
      assert forall j :: 0 <= j < |Filter(terms[1..])| ==> (head + Filter(terms[1..]))[|head| + j] == Filter(terms[1..])[j];
    }
  }

  /** Producer and consumer agree: on lists made by `from_affine`, the
      unwraps and the final `coeffs.next() == None` assertions of
      `multi_miller_loop` never fail. */
  lemma MultiMillerLoopOnPreparedTerms(ts: seq<(G1Affine, G2Affine)>)
    ensures MultiMillerLoop(PrepareTerms(ts)).Ok?
  {
    EngineNaf();
    PreparedListsFit(PrepareTerms(ts));
    PlainLoopClosedForm(SixUPlus2Naf, Filter(PrepareTerms(ts)));
  }

  /** For the engine's constant the c exponent is 6u + 2 + p - p^2 + p^3. */
  lemma EngineCTotal(p: int)
    ensures CTotal(SixUPlus2Naf, p) == LoopExponent(p)
  {
    var naf := SixUPlus2Naf;
    EngineNafShape();
    assert naf == naf[..64] + [naf[64]];
    ValueAppend(naf[..64], [naf[64]]);
    assert Value([naf[64]]) == 1 by {
      assert [naf[64]][1..] == [];
    }
  }

  /** `multi_miller_loop_c_wi` panics when c has no inverse. */
  lemma MultiMillerLoopCWiNoInverse(p: int, c: Fq12, wi: Fq12, terms: seq<(G1Affine, G2Prepared)>)
    requires c.Zero?
    ensures MultiMillerLoopCWi(p, c, wi, terms) == Failed(NoInverse)
  {
    EngineNaf();
    ScaledAccumulatorClosedForm(SixUPlus2Naf, p, c, wi, Filter(terms));
  }

  /** Before its final assertion, `multi_miller_loop_c_wi` runs to the end
      exactly when `multi_miller_loop` does. */
  lemma CWiAccumulatorSucceeds(p: int, c: Fq12, wi: Fq12, terms: seq<(G1Affine, G2Prepared)>)
    requires c.Units?
    ensures ScaledAccumulator(SixUPlus2Naf, p, c, wi, Filter(terms), None).Ok? <==> MultiMillerLoop(terms).Ok?
  {
    EngineNaf();
    ScaledAccumulatorClosedForm(SixUPlus2Naf, p, c, wi, Filter(terms));
    PlainLoopClosedForm(SixUPlus2Naf, Filter(terms));
  }

  /** The exponent bookkeeping step: loop value, wi and c^-(6u+2+p-p^2+p^3)
      add up to the scaled accumulator's exponents. */
  lemma ScaledProductExp(acc: Fq12, plain: Fq12, c: Fq12, wi: Fq12, l: int)
    requires acc.Units? && plain.Units? && c.Units? && wi.Units?
    requires forall g :: Exp(acc, g) == Exp(plain, g) + Exp(wi, g) - l * Exp(c, g)
    ensures Same(acc, Mul(Mul(plain, wi), ZPow(c, -l)))
  {
    var scale := ZPow(c, -l);
    var prod := Mul(Mul(plain, wi), scale);
    forall g
      ensures Exp(acc, g) == Exp(prod, g)
    {
      assert Exp(scale, g) == -l * Exp(c, g);
    }
  }

  /** The scaled loops against the plain one, for any kept pairs that fit
      the schedule and any line checks they pass: before the final
      assertion the scaled value is the plain loop's times
      wi * c^-(6u+2+p-p^2+p^3). */
  lemma ScaledAccumulatorAgainstPlain(p: int, c: Fq12, wi: Fq12, pairs: seq<Pair>, check: Option<seq<G2Affine>>)
    requires c.Units?
    requires FitsSchedule(SixUPlus2Naf, pairs)
    requires ChecksPass(pairs, 0, check, ScheduleOf(SixUPlus2Naf))
    ensures PlainLoop(SixUPlus2Naf, pairs).Ok?
    ensures ScaledAccumulator(SixUPlus2Naf, p, c, wi, pairs, check).Ok?
    ensures Same(ScaledAccumulator(SixUPlus2Naf, p, c, wi, pairs, check).value,
                 Mul(Mul(PlainLoop(SixUPlus2Naf, pairs).value, wi), ZPow(c, -LoopExponent(p))))
  {
    var naf := SixUPlus2Naf;
    EngineNaf();
    PlainLoopClosedForm(naf, pairs);
    ScaledFittingLists(naf, p, c, wi, pairs, check);
    var acc := ScaledAccumulator(naf, p, c, wi, pairs, check).value;
    var plain := PlainLoop(naf, pairs).value;
    if wi.Units? {
      EngineCTotal(p);
      var l := LoopExponent(p);
      assert forall g :: Exp(acc, g) == ClosedExp(pairs, 0, Weights(naf), g) + Exp(wi, g) - l * Exp(c, g);
      ScaledProductExp(acc, plain, c, wi, l);
    }
  }

  /** With the final assertion: the scaled loop returns (one) exactly when
      the plain loop's value times wi * c^-(6u+2+p-p^2+p^3) is one, and
      otherwise fails that assertion and nothing else. */
  lemma ScaledLoopAgainstPlain(p: int, c: Fq12, wi: Fq12, pairs: seq<Pair>, check: Option<seq<G2Affine>>)
    requires c.Units?
    requires FitsSchedule(SixUPlus2Naf, pairs)
    requires ChecksPass(pairs, 0, check, ScheduleOf(SixUPlus2Naf))
    ensures PlainLoop(SixUPlus2Naf, pairs).Ok?
    ensures ScaledLoop(SixUPlus2Naf, p, c, wi, pairs, check).Ok? <==>
              Same(Mul(Mul(PlainLoop(SixUPlus2Naf, pairs).value, wi), ZPow(c, -LoopExponent(p))), One())
    ensures ScaledLoop(SixUPlus2Naf, p, c, wi, pairs, check).Ok? ==>
              IsOne(ScaledLoop(SixUPlus2Naf, p, c, wi, pairs, check).value)
    ensures ScaledLoop(SixUPlus2Naf, p, c, wi, pairs, check).Failed? ==>
              ScaledLoop(SixUPlus2Naf, p, c, wi, pairs, check).panic == NotOne
  {
    ScaledAccumulatorAgainstPlain(p, c, wi, pairs, check);
    var acc := ScaledAccumulator(SixUPlus2Naf, p, c, wi, pairs, check).value;
    var prod := Mul(Mul(PlainLoop(SixUPlus2Naf, pairs).value, wi), ZPow(c, -LoopExponent(p)));
    IsOneIsSameAsOne(acc);
    SameIsEquivalence(acc, prod, One());
    SameIsEquivalence(prod, acc, One());
    assert ScaledLoop(SixUPlus2Naf, p, c, wi, pairs, check) == if IsOne(acc) then Ok(acc) else Failed(NotOne);
  }

  /** `multi_miller_loop_c_wi` returns (one) exactly when the plain loop
      succeeds and its value times wi * c^-(6u+2+p-p^2+p^3) is one; at the
      BN254 prime that exponent is the constant lambda (`LambdaIsLoopExponent`). */
  lemma MultiMillerLoopCWiChecksOne(p: int, c: Fq12, wi: Fq12, terms: seq<(G1Affine, G2Prepared)>)
    requires c.Units?
    ensures MultiMillerLoopCWi(p, c, wi, terms).Ok? <==>
              MultiMillerLoop(terms).Ok?
              && Same(Mul(Mul(MultiMillerLoop(terms).value, wi), ZPow(c, -LoopExponent(p))), One())
    ensures MultiMillerLoopCWi(p, c, wi, terms).Ok? ==> IsOne(MultiMillerLoopCWi(p, c, wi, terms).value)
    ensures MultiMillerLoopCWi(p, c, wi, terms).Failed? ==>
              MultiMillerLoopCWi(p, c, wi, terms).panic in {CoeffsExhausted, CoeffsLeftOver, NotOne}
  {
    EngineNaf();
    CWiAccumulatorSucceeds(p, c, wi, terms);
    PlainLoopClosedForm(SixUPlus2Naf, Filter(terms));
    ScaledAccumulatorClosedForm(SixUPlus2Naf, p, c, wi, Filter(terms));
    if MultiMillerLoop(terms).Ok? {
      ScaledLoopAgainstPlain(p, c, wi, Filter(terms), None);
    }
  }

  /** On lists made by `from_affine`, `multi_miller_loop_c_wi` can only
      fail its final assertion. */
  lemma MultiMillerLoopCWiOnPreparedTerms(p: int, c: Fq12, wi: Fq12, ts: seq<(G1Affine, G2Affine)>)
    requires c.Units?
    ensures MultiMillerLoopCWi(p, c, wi, PrepareTerms(ts)).Ok?
            || MultiMillerLoopCWi(p, c, wi, PrepareTerms(ts)) == Failed(NotOne)
  {
    MultiMillerLoopOnPreparedTerms(ts);
    CWiAccumulatorSucceeds(p, c, wi, PrepareTerms(ts));
  }
}
