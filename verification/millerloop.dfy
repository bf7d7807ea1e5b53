/** The four Miller-loop consumers of prepared coefficients.

    Each consumer keeps the terms whose G1 point is not the identity and
    whose G2 preparation is not at infinity, then pulls one coefficient from
    every kept term per step, in lock-step: the cursor m counts the
    coefficients each term has given so far.  A pull from an exhausted list
    (`coeffs.next().unwrap()`) and a list with entries left at the end
    (`assert_eq!(coeffs.next(), None)`) are the panics `CoeffsExhausted` and
    `CoeffsLeftOver`.  The on-prove loop also checks each coefficient
    against the point it tracks for its term (`LineCheckFailed`), and the
    scaled loops panic when c has no inverse (`NoInverse`) and when the
    result is not one (`NotOne`).

    The four bodies in the engine differ only in the start value, the
    squaring rule, the c adjustment and the check, so they are one
    definition here (`Iterations`, `Closing`) with those as parameters. */
module MillerLoop {
  import opened Digits
  import opened Tables
  import opened Points
  import opened TargetField
  import opened Wrappers
  import opened Schedule

  datatype Panic = CoeffsExhausted | CoeffsLeftOver | NoInverse | LineCheckFailed | NotOne

  datatype Result<T> = Ok(value: T) | Failed(panic: Panic)

  /** A kept term: its G1 point and its coefficient list. */
  datatype Pair = Pair(p: G1Affine, coeffs: seq<Coeff>)

  /** The terms `multi_miller_loop` and `multi_miller_loop_c_wi` keep. */
  function Filter(terms: seq<(G1Affine, G2Prepared)>): (r: seq<Pair>)
    ensures |r| <= |terms|
    ensures forall j :: 0 <= j < |r| ==> !r[j].p.G1Identity?
  {
    if |terms| == 0 then []
    else
      (if !terms[0].0.G1Identity? && !terms[0].1.infinity then [Pair(terms[0].0, terms[0].1.coeffs)] else [])
      + Filter(terms[1..])
  }

  /** On-prove terms seen as plain ones: the coefficient list and the
      infinity flag, without the tracked point. */
  function AsPrepared(terms: seq<(G1Affine, G2OnProvePrepared)>): (r: seq<(G1Affine, G2Prepared)>)
    ensures |r| == |terms|
  {
    if |terms| == 0 then []
    else [(terms[0].0, G2Prepared(terms[0].1.coeffs, terms[0].1.infinity))] + AsPrepared(terms[1..])
  }

  /** The terms the two on-prove loops keep: the same test as `Filter`. */
  function FilterOnProve(terms: seq<(G1Affine, G2OnProvePrepared)>): (r: seq<Pair>)
    ensures |r| <= |terms|
    ensures forall j :: 0 <= j < |r| ==> !r[j].p.G1Identity?
  {
    Filter(AsPrepared(terms))
  }

  /** `init_q` of the on-prove loop: the prepared point of EVERY term,
      degenerate ones included. */
  function InitQs(terms: seq<(G1Affine, G2OnProvePrepared)>): (r: seq<G2Affine>)
    ensures |r| == |terms|
  {
    if |terms| == 0 then [] else [terms[0].1.initQ] + InitQs(terms[1..])
  }

  /** The line of a pair's coefficient at position m, evaluated at its G1
      point (`ell`). */
  function LineAt(pr: Pair, m: nat): (r: Fq12)
    requires m < |pr.coeffs|
    ensures r.Units? && Exp(r, Line(pr.coeffs[m], pr.p)) == 1
  {
    Of(Line(pr.coeffs[m], pr.p))
  }

  /** The coefficient the on-prove check accepts at position m for `step`
      from a term whose tracked point started at q: the tangent or chord
      through the point q has reached after m steps.  The affine checks
      `double_verify` and `addition_verify` pin down slope and bias. */
  function Expected(q: G2Affine, m: nat, step: Step): Coeff {
    Coeff(Affine, q, m, step)
  }

  /** One pass over the kept pairs: every pair hands over its coefficient at
      position m and f is multiplied by its line, in order.  With
      `check == Some(qs)` the pairs are zipped with qs (stopping at the
      shorter list) and each coefficient is first verified. */
  function Pass(f: Fq12, pairs: seq<Pair>, m: nat, check: Option<seq<G2Affine>>, step: Step): Result<Fq12>
    decreases |pairs|
  {
    if |pairs| == 0 || (check.Some? && |check.value| == 0) then Ok(f)
    else if m >= |pairs[0].coeffs| then Failed(CoeffsExhausted)
    else if check.Some? && pairs[0].coeffs[m] != Expected(check.value[0], m, step) then Failed(LineCheckFailed)
    else
      var rest := if check.Some? then Some(check.value[1..]) else None;
      Pass(Mul(f, LineAt(pairs[0], m)), pairs[1..], m, rest, step)
  }

  /** How a loop treats the accumulator: the plain loops skip the squaring
      in their first iteration; the scaled loops always square and then
      multiply by c^-1 after digit 1 and by c after digit -1. */
  datatype Scaling = Plain | Scaled(c: Fq12, cInv: Fq12)

  /** The value f takes at the start of iteration i, before the lines. */
  function Adjust(naf: seq<int>, sc: Scaling, i: nat, f: Fq12): Fq12
    requires 1 <= i < |naf|
  {
    match sc
    case Plain => if i != |naf| - 1 then Square(f) else f
    case Scaled(c, cInv) =>
      if naf[i - 1] == 1 then Mul(Square(f), cInv)
      else if naf[i - 1] == -1 then Mul(Square(f), c)
      else Square(f)
  }

  /** Iterations i, i-1, ..., 1 of the loop over `naf`, from accumulator f
      and cursor m; the result is the accumulator and the cursor after them. */
  function Iterations(naf: seq<int>, pairs: seq<Pair>, sc: Scaling, check: Option<seq<G2Affine>>,
                      i: nat, f: Fq12, m: nat): Result<(Fq12, nat)>
    requires i < |naf|
    decreases i
  {
    if i == 0 then Ok((f, m))
    else
      var x := naf[i - 1];
      match Pass(Adjust(naf, sc, i, f), pairs, m, check, Doubling)
      case Failed(e) => Failed(e)
      case Ok(f1) =>
        if x == 1 || x == -1 then
          match Pass(f1, pairs, m + 1, check, if x == 1 then AddQ else AddNegQ)
          case Failed(e) => Failed(e)
          case Ok(f2) => Iterations(naf, pairs, sc, check, i - 1, f2, m + 2)
        else Iterations(naf, pairs, sc, check, i - 1, f1, m + 1)
  }

  /** Every pair has given exactly m coefficients: nothing is left. */
  predicate AllUsed(pairs: seq<Pair>, m: nat) {
    forall j :: 0 <= j < |pairs| ==> |pairs[j].coeffs| <= m
  }

  /** The two Frobenius passes and the exhaustion check. */
  function Closing(f: Fq12, pairs: seq<Pair>, m: nat, check: Option<seq<G2Affine>>): Result<Fq12> {
    match Pass(f, pairs, m, check, AddFrobQ)
    case Failed(e) => Failed(e)
    case Ok(f1) =>
      match Pass(f1, pairs, m + 1, check, AddNegFrobSquaredQ)
      case Failed(e) => Failed(e)
      case Ok(f2) => if AllUsed(pairs, m + 2) then Ok(f2) else Failed(CoeffsLeftOver)
  }

  /** A pass fails only when a list is exhausted or, on the on-prove loop,
      when a check fails; a pass that succeeds keeps zero at zero and a
      non-zero value non-zero. */
  lemma {:induction false} PassOutcome(f: Fq12, pairs: seq<Pair>, m: nat, check: Option<seq<G2Affine>>, step: Step)
    ensures var r := Pass(f, pairs, m, check, step);
            && (r.Failed? ==> r.panic == CoeffsExhausted || (check.Some? && r.panic == LineCheckFailed))
            && (r.Ok? ==> (r.value.Zero? <==> f.Zero?))
    decreases |pairs|
  {
    if |pairs| > 0 && !(check.Some? && |check.value| == 0) && m < |pairs[0].coeffs| {
      var rest := if check.Some? then Some(check.value[1..]) else None;
      PassOutcome(Mul(f, LineAt(pairs[0], m)), pairs[1..], m, rest, step);
    }
  }

  /** The adjustment keeps zero at zero, and a non-zero value non-zero when
      c and c^-1 are non-zero. */
  lemma AdjustOutcome(naf: seq<int>, sc: Scaling, i: nat, f: Fq12)
    requires 1 <= i < |naf|
    ensures f.Zero? ==> Adjust(naf, sc, i, f).Zero?
    ensures f.Units? && (sc.Plain? || (sc.c.Units? && sc.cInv.Units?)) ==> Adjust(naf, sc, i, f).Units?
  {
  }

  /** Iterations fail only when a list is exhausted or a check fails; after
      i of them the cursor has moved on by between i and 2i entries, and a
      non-zero accumulator is still non-zero. */
  lemma {:induction false} IterationsOutcome(naf: seq<int>, pairs: seq<Pair>, sc: Scaling, check: Option<seq<G2Affine>>,
                                             i: nat, f: Fq12, m: nat)
    requires i < |naf|
    ensures var r := Iterations(naf, pairs, sc, check, i, f, m);
            && (r.Failed? ==> r.panic == CoeffsExhausted || (check.Some? && r.panic == LineCheckFailed))
            && (r.Ok? ==> m + i <= r.value.1 <= m + 2 * i)
            && (r.Ok? && f.Units? && (sc.Plain? || (sc.c.Units? && sc.cInv.Units?)) ==> r.value.0.Units?)
    decreases i
  {
    if i > 0 {
      var x := naf[i - 1];
      var f0 := Adjust(naf, sc, i, f);
      AdjustOutcome(naf, sc, i, f);
      PassOutcome(f0, pairs, m, check, Doubling);
      match Pass(f0, pairs, m, check, Doubling)
      case Failed(_) =>
      case Ok(f1) =>
        if x == 1 || x == -1 {
          PassOutcome(f1, pairs, m + 1, check, if x == 1 then AddQ else AddNegQ);
          match Pass(f1, pairs, m + 1, check, if x == 1 then AddQ else AddNegQ)
          case Failed(_) =>
          case Ok(f2) => IterationsOutcome(naf, pairs, sc, check, i - 1, f2, m + 2);
        } else {
          IterationsOutcome(naf, pairs, sc, check, i - 1, f1, m + 1);
        }
    }
  }

  /** The closing fails only with exhaustion, leftover coefficients or a
      failed check; when it succeeds it keeps zero at zero and a non-zero
      value non-zero. */
  lemma ClosingOutcome(f: Fq12, pairs: seq<Pair>, m: nat, check: Option<seq<G2Affine>>)
    ensures var r := Closing(f, pairs, m, check);
            && (r.Failed? ==> r.panic in {CoeffsExhausted, CoeffsLeftOver} || (check.Some? && r.panic == LineCheckFailed))
            && (r.Ok? ==> (r.value.Zero? <==> f.Zero?))
  {
    PassOutcome(f, pairs, m, check, AddFrobQ);
    match Pass(f, pairs, m, check, AddFrobQ)
    case Failed(_) =>
    case Ok(f1) => PassOutcome(f1, pairs, m + 1, check, AddNegFrobSquaredQ);
  }

  /** The plain loop (`multi_miller_loop`, and the on-prove `_prepare`
      variant on affine coefficients): start from one. */
  function PlainLoop(naf: seq<int>, pairs: seq<Pair>): (r: Result<Fq12>)
    requires |naf| >= 1
    ensures r.Failed? ==> r.panic in {CoeffsExhausted, CoeffsLeftOver}
    ensures r.Ok? ==> r.value.Units?
  {
    IterationsOutcome(naf, pairs, Plain, None, |naf| - 1, One(), 0);
    match Iterations(naf, pairs, Plain, None, |naf| - 1, One(), 0)
    case Failed(e) => Failed(e)
    case Ok(r) =>
      ClosingOutcome(r.0, pairs, r.1, None);
      Closing(r.0, pairs, r.1, None)
  }

  /** The factor the scaled loops apply before the Frobenius passes:
      c^-p * c^(p^2) * c^(-p^3) * wi, as three Frobenius maps of c and c^-1. */
  function ScaleFactor(f: Fq12, c: Fq12, cInv: Fq12, wi: Fq12, p: int): Fq12 {
    Mul(Mul(Mul(Mul(f, Frobenius(cInv, 1, p)), Frobenius(c, 2, p)), Frobenius(cInv, 3, p)), wi)
  }

  /** The scaled loop up to, but not including, the final `f == one` check. */
  function ScaledAccumulator(naf: seq<int>, p: int, c: Fq12, wi: Fq12, pairs: seq<Pair>,
                             check: Option<seq<G2Affine>>): (r: Result<Fq12>)
    requires |naf| >= 1
    ensures r == Failed(NoInverse) <==> c.Zero?
    ensures r.Failed? ==> r.panic != NotOne
    ensures check.None? && r.Failed? ==> r.panic != LineCheckFailed
  {
    match Invert(c)
    case None => Failed(NoInverse)
    case Some(cInv) =>
      IterationsOutcome(naf, pairs, Scaled(c, cInv), check, |naf| - 1, cInv, 0);
      match Iterations(naf, pairs, Scaled(c, cInv), check, |naf| - 1, cInv, 0)
      case Failed(e) => Failed(e)
      case Ok(r) =>
        ClosingOutcome(ScaleFactor(r.0, c, cInv, wi, p), pairs, r.1, check);
        Closing(ScaleFactor(r.0, c, cInv, wi, p), pairs, r.1, check)
  }

  /** The scaled loop with its final assertion that the result is one. */
  function ScaledLoop(naf: seq<int>, p: int, c: Fq12, wi: Fq12, pairs: seq<Pair>,
                      check: Option<seq<G2Affine>>): (r: Result<Fq12>)
    requires |naf| >= 1
    ensures r == Failed(NoInverse) <==> c.Zero?
    ensures r.Ok? ==> Same(r.value, One())
    ensures check.None? && r.Failed? ==> r.panic != LineCheckFailed
  {
    match ScaledAccumulator(naf, p, c, wi, pairs, check)
    case Failed(e) => Failed(e)
    case Ok(f) =>
      IsOneIsSameAsOne(f);
      if IsOne(f) then Ok(f) else Failed(NotOne)
  }

  /** `multi_miller_loop`. */
  function MultiMillerLoop(terms: seq<(G1Affine, G2Prepared)>): (r: Result<Fq12>)
    ensures r.Failed? ==> r.panic in {CoeffsExhausted, CoeffsLeftOver}
    ensures r.Ok? ==> r.value.Units?
  {
    PlainLoop(SixUPlus2Naf, Filter(terms))
  }

  /** `multi_miller_loop_on_prove_pairing_prepare`. */
  function MultiMillerLoopOnProvePrepare(terms: seq<(G1Affine, G2OnProvePrepared)>): (r: Result<Fq12>)
    ensures r.Failed? ==> r.panic in {CoeffsExhausted, CoeffsLeftOver}
    ensures r.Ok? ==> r.value.Units?
  {
    PlainLoop(SixUPlus2Naf, FilterOnProve(terms))
  }

  /** `multi_miller_loop_c_wi`, for a base field of characteristic p. */
  function MultiMillerLoopCWi(p: int, c: Fq12, wi: Fq12, terms: seq<(G1Affine, G2Prepared)>): (r: Result<Fq12>)
    ensures r == Failed(NoInverse) <==> c.Zero?
    ensures r.Ok? ==> Same(r.value, One())
    ensures r.Failed? ==> r.panic != LineCheckFailed
  {
    ScaledLoop(SixUPlus2Naf, p, c, wi, Filter(terms), None)
  }

  /** `multi_miller_loop_on_prove_pairing` as written: the kept pairs are
      zipped with the tracked points of ALL terms. */
  function MultiMillerLoopOnProve(p: int, c: Fq12, wi: Fq12, terms: seq<(G1Affine, G2OnProvePrepared)>): (r: Result<Fq12>)
    ensures r == Failed(NoInverse) <==> c.Zero?
    ensures r.Ok? ==> Same(r.value, One())
  {
    ScaledLoop(SixUPlus2Naf, p, c, wi, FilterOnProve(terms), Some(InitQs(terms)))
  }
}
