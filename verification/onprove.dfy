/** The "on prove pairing" loops over affine coefficient lists.

    `multi_miller_loop_on_prove_pairing_prepare` is the plain loop on the
    affine lists.  `multi_miller_loop_on_prove_pairing` is the scaled loop
    that also checks every coefficient against the point its term tracks.
    As written it takes the tracked points of ALL terms but the coefficient
    lists of the kept terms only, and zips the two by position; a dropped
    term in front of a kept one shifts the zip.  `MultiMillerLoopOnProve`
    models that; `MultiMillerLoopOnProveAligned` zips every kept list with
    its own term's point, and is the one whose checks never fire on
    honestly prepared terms. */
module OnProve {
  import opened Digits
  import opened Tables
  import opened LambdaConstants
  import opened Points
  import opened TargetField
  import opened Wrappers
  import opened Schedule
  import opened MillerLoop
  import opened LoopTheory
  import opened Consumers
  import opened EngineLoops

  /** A term whose coefficient list is the one `G2OnProvePrepared::from_affine`
      makes for its tracked point. */
  predicate Honest(t: (G1Affine, G2OnProvePrepared)) {
    t.1 == PrepareOnProve(SixUPlus2Naf, t.1.initQ)
  }

  /** A term the on-prove loops drop. */
  predicate Dropped(t: (G1Affine, G2OnProvePrepared)) {
    t.0.G1Identity? || t.1.infinity
  }

  /** The tracked points of the kept terms only, in order. */
  function KeptInitQs(terms: seq<(G1Affine, G2OnProvePrepared)>): (r: seq<G2Affine>)
    ensures |r| == |FilterOnProve(terms)|
  {
    if |terms| == 0 then []
    else (if !Dropped(terms[0]) then [terms[0].1.initQ] else []) + KeptInitQs(terms[1..])
  }

  /** `multi_miller_loop_on_prove_pairing` with each kept list checked
      against its own term's point. */
  function MultiMillerLoopOnProveAligned(p: int, c: Fq12, wi: Fq12,
                                         terms: seq<(G1Affine, G2OnProvePrepared)>): (r: Result<Fq12>)
    ensures r == Failed(NoInverse) <==> c.Zero?
    ensures r.Ok? ==> Same(r.value, One())
  {
    ScaledLoop(SixUPlus2Naf, p, c, wi, FilterOnProve(terms), Some(KeptInitQs(terms)))
  }

  /** Without dropped terms the two zips coincide. */
  lemma {:induction false} KeptInitQsOfKeptTerms(terms: seq<(G1Affine, G2OnProvePrepared)>)
    requires forall j :: 0 <= j < |terms| ==> !Dropped(terms[j])
    ensures KeptInitQs(terms) == InitQs(terms)
    decreases |terms|
  {
    if |terms| > 0 {
      assert forall j :: 0 <= j < |terms[1..]| ==> terms[1..][j] == terms[j + 1];
      KeptInitQsOfKeptTerms(terms[1..]);
    }
  }

  /** The kept lists of honest terms are the affine schedule tokens of the
      kept points, position by position. */
  lemma HonestKeptLists(terms: seq<(G1Affine, G2OnProvePrepared)>)
    requires forall j :: 0 <= j < |terms| ==> Honest(terms[j])
    ensures forall j :: 0 <= j < |FilterOnProve(terms)| ==>
              FilterOnProve(terms)[j].coeffs == Tokens(Affine, KeptInitQs(terms)[j], MillerSchedule())
  {
    var sched := MillerSchedule();
    forall j | 0 <= j < |terms| && !Dropped(terms[j])
      ensures terms[j].1.coeffs == Tokens(Affine, terms[j].1.initQ, sched)
    {
      assert Honest(terms[j]);
    }
    KeptListsAreTokens(terms, sched);
  }

  /** When every kept term's list is the token list of its own point for
      `sched`, so is every list the filter keeps, against `KeptInitQs`. */
  lemma {:induction false} KeptListsAreTokens(terms: seq<(G1Affine, G2OnProvePrepared)>, sched: seq<Step>)
    requires forall j :: 0 <= j < |terms| && !Dropped(terms[j]) ==>
               terms[j].1.coeffs == Tokens(Affine, terms[j].1.initQ, sched)
    ensures forall j :: 0 <= j < |FilterOnProve(terms)| ==>
              FilterOnProve(terms)[j].coeffs == Tokens(Affine, KeptInitQs(terms)[j], sched)
    decreases |terms|
  {
    if |terms| > 0 {
      var t := terms[0];
      var tail := terms[1..];
      assert forall j :: 0 <= j < |tail| ==> tail[j] == terms[j + 1];
      KeptListsAreTokens(tail, sched);
      var rest, qs := FilterOnProve(tail), KeptInitQs(tail);
      if !Dropped(t) {
        assert FilterOnProve(terms) == [Pair(t.0, t.1.coeffs)] + rest;
        assert KeptInitQs(terms) == [t.1.initQ] + qs;
      } else {
        assert FilterOnProve(terms) == rest;
        assert KeptInitQs(terms) == qs;
      }
    }
  }

  /** Lists that are the schedule tokens of points qs fit the schedule and
      pass every line check against qs. */
  lemma TokensPassChecks(pairs: seq<Pair>, qs: seq<G2Affine>)
    requires |qs| == |pairs|
    requires forall j :: 0 <= j < |pairs| ==> pairs[j].coeffs == Tokens(Affine, qs[j], MillerSchedule())
    ensures FitsSchedule(SixUPlus2Naf, pairs)
    ensures ChecksPass(pairs, 0, Some(qs), ScheduleOf(SixUPlus2Naf))
  {
  }

  /** Producer and consumer agree for the plain on-prove loop: on honest
      terms `multi_miller_loop_on_prove_pairing_prepare` never panics. */
  lemma OnProvePrepareOnHonestTerms(terms: seq<(G1Affine, G2OnProvePrepared)>)
    requires forall j :: 0 <= j < |terms| ==> Honest(terms[j])
    ensures MultiMillerLoopOnProvePrepare(terms).Ok?
    ensures MultiMillerLoopOnProvePrepare(terms).value.Units?
  {
    EngineNaf();
    HonestKeptLists(terms);
    TokensPassChecks(FilterOnProve(terms), KeptInitQs(terms));
    PlainLoopClosedForm(SixUPlus2Naf, FilterOnProve(terms));
  }

  /** The aligned loop on honest terms, dropped ones included: no line check
      fires, no list runs short or long, and the result is one exactly when
      the `_prepare` loop's value times wi * c^-(6u+2+p-p^2+p^3) is one. */
  lemma OnProveAlignedOnHonestTerms(p: int, c: Fq12, wi: Fq12, terms: seq<(G1Affine, G2OnProvePrepared)>)
    requires c.Units?
    requires forall j :: 0 <= j < |terms| ==> Honest(terms[j])
    ensures MultiMillerLoopOnProvePrepare(terms).Ok?
    ensures MultiMillerLoopOnProveAligned(p, c, wi, terms).Ok? <==>
              Same(Mul(Mul(MultiMillerLoopOnProvePrepare(terms).value, wi), ZPow(c, -LoopExponent(p))), One())
    ensures MultiMillerLoopOnProveAligned(p, c, wi, terms).Ok? ==>
              IsOne(MultiMillerLoopOnProveAligned(p, c, wi, terms).value)
    ensures MultiMillerLoopOnProveAligned(p, c, wi, terms).Failed? ==>
              MultiMillerLoopOnProveAligned(p, c, wi, terms).panic == NotOne
  {
    HonestKeptLists(terms);
    TokensPassChecks(FilterOnProve(terms), KeptInitQs(terms));
    ScaledLoopAgainstPlain(p, c, wi, FilterOnProve(terms), Some(KeptInitQs(terms)));
  }

  /** Both on-prove scaled loops panic when c has no inverse. */
  lemma OnProveNoInverse(p: int, c: Fq12, wi: Fq12, terms: seq<(G1Affine, G2OnProvePrepared)>)
    requires c.Zero?
    ensures MultiMillerLoopOnProve(p, c, wi, terms) == Failed(NoInverse)
    ensures MultiMillerLoopOnProveAligned(p, c, wi, terms) == Failed(NoInverse)
  {
    ScaledAccumulatorUnfold(SixUPlus2Naf, p, c, wi, FilterOnProve(terms), Some(InitQs(terms)));
    ScaledAccumulatorUnfold(SixUPlus2Naf, p, c, wi, FilterOnProve(terms), Some(KeptInitQs(terms)));
  }

  /** The loop as written agrees with the aligned one when no term is
      dropped, so on honest non-degenerate terms its checks never fire. */
  lemma OnProveAsWrittenWithoutDroppedTerms(p: int, c: Fq12, wi: Fq12, terms: seq<(G1Affine, G2OnProvePrepared)>)
    requires forall j :: 0 <= j < |terms| ==> !Dropped(terms[j])
    ensures MultiMillerLoopOnProve(p, c, wi, terms) == MultiMillerLoopOnProveAligned(p, c, wi, terms)
  {
    KeptInitQsOfKeptTerms(terms);
  }

  /** The misalignment: an honest term with the identity G1 point followed by
      an honest term for a different G2 point.  The loop as written checks
      the second term's first coefficient against the first term's point and
      panics, although every list is the one `from_affine` makes; the
      aligned loop never fails a line check on the same terms. */
  lemma OnProveAsWrittenRejectsHonestTerms(p: int, c: Fq12, wi: Fq12)
    requires c.Units?
    ensures var terms := [(G1Identity, PrepareOnProve(SixUPlus2Naf, G2Point(1))),
                          (G1Point(1), PrepareOnProve(SixUPlus2Naf, G2Point(2)))];
            && (forall j :: 0 <= j < |terms| ==> Honest(terms[j]))
            && MultiMillerLoopOnProve(p, c, wi, terms) == Failed(LineCheckFailed)
            && MultiMillerLoopOnProveAligned(p, c, wi, terms) != Failed(LineCheckFailed)
  {
    var naf := SixUPlus2Naf;
    EngineNaf();
    var t0 := (G1Identity, PrepareOnProve(naf, G2Point(1)));
    var t1 := (G1Point(1), PrepareOnProve(naf, G2Point(2)));
    var terms := [t0, t1];
    var tail := terms[1..];
    assert tail == [t1] && |tail[1..]| == 0;
    assert FilterOnProve(tail) == [Pair(G1Point(1), t1.1.coeffs)] + FilterOnProve(tail[1..]);
    var pairs := FilterOnProve(terms);
    assert pairs == [Pair(G1Point(1), t1.1.coeffs)];
    assert InitQs(terms) == [G2Point(1), G2Point(2)];
    var cInv := Invert(c).value;
    var n := |naf| - 1;
    assert 0 < |t1.1.coeffs| && t1.1.coeffs[0] == Coeff(Affine, G2Point(2), 0, MillerSchedule()[0]);
    assert Pass(Adjust(naf, Scaled(c, cInv), n, cInv), pairs, 0, Some(InitQs(terms)), Doubling) == Failed(LineCheckFailed);
    assert Iterations(naf, pairs, Scaled(c, cInv), Some(InitQs(terms)), n, cInv, 0) == Failed(LineCheckFailed);
    ScaledAccumulatorUnfold(naf, p, c, wi, pairs, Some(InitQs(terms)));
    OnProveAlignedOnHonestTerms(p, c, wi, terms);
  }
}
