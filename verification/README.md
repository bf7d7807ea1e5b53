# BN254 optimal-ate pairing engine: loop constant, coefficient schedule and exponent bookkeeping

This project models the control logic of the BN254 pairing engine in
`src/bn256/engine.rs` and of its test helpers in `src/tests/field.rs`, and
proves properties of it in Dafny. It covers these parts:

- **The loop constant.** This is `BN_X` and the 65-digit signed expansion
  `SIX_U_PLUS_2_NAF` of 6u + 2. The test helpers hold two more tables,
  `SIX_U_PLUS_2_NAF_V` and `SIX_U_PLUS_2_NAF_F`, and the NAF encoder
  `to_naf`. These are in modules `Digits`, `Naf` and `Tables`.
- **The coefficient schedule.** `G2Prepared::from_affine` and
  `G2OnProvePrepared::from_affine` push one line coefficient per doubling,
  one per non-zero digit and two for the Frobenius additions. A coefficient
  is an opaque token. It records which preparation made it, from which G2
  point, at which index and for which loop step. This is in modules
  `Points` and `Schedule`.
- **The four Miller-loop consumers.** These are `multi_miller_loop`,
  `multi_miller_loop_c_wi`, `multi_miller_loop_on_prove_pairing_prepare`
  and `multi_miller_loop_on_prove_pairing`.
  - All four pull one coefficient from every kept term per step, in
    lock-step. They share one definition, parameterised by the start value,
    the squaring rule, the c adjustment and the on-prove line check. This
    is in module `MillerLoop`.
  - The proofs about them are in `LoopTheory`, `Consumers`, `EngineLoops`
    and `OnProve`.
  - The panics of the source are results of type `Result`:
    - `CoeffsExhausted` is a `coeffs.next().unwrap()` on an empty list.
    - `CoeffsLeftOver` is the final `assert_eq!(coeffs.next(), None)`.
    - `NoInverse` is `c.invert().unwrap()`.
    - `LineCheckFailed` is a failed `double_verify` or `addition_verify`
      assertion.
    - `NotOne` is `assert_eq!(f, Fq12::one())`.
- **The exponent model of the target field.** A value of `Fq12` is either
  zero, or a formal product of opaque generators with integer exponents
  (module `TargetField`).
  - The generators are the scaling values c and wi, the loop inputs, and
    one generator per line, keyed by coefficient and G1 point.
  - Multiplication adds exponents, squaring doubles them and inversion
    negates them. `frobenius_map(k)` multiplies them by p^k, where p is a
    parameter.
  - In this model `exp_by_x` computes f^u, and `calc_naf_v`/`calc_naf_f`
    compute c^-(6u+2) (module `Exponentiation`).
  - `multi_miller_loop` is multiplicative over its term list.
  - `multi_miller_loop_c_wi` returns one exactly when the plain loop's
    value times wi · c^-(6u+2+p-p^2+p^3) is one.
- **The affine line formulas of the on-prove variant.** These are
  `doubling_step`, `addition_step`, `double_verify` and `addition_verify`.
  They are polynomial identities, stated and proved over `int` (module
  `AffineLines`).

The λ/r constant check of `compute_c_wi` is in module `LambdaConstants`.
The base-field prime p that the scaled loops use is a parameter throughout.
Only `LambdaConstants.FqModulus` fixes it, to the BN254 prime. The source
reads that prime from `Fq::MODULUS`, and the file that defines it is not
part of this model.

## Model

| member | source | states |
|---|---|---|
| Tables.EngineNafShape | src/bn256/engine.rs:19-26 | The loop constant has 65 digits, each in {-1, 0, 1}. Its top digit (index 64) is 1 and its value is 6·BN_X + 2. The test literal 29793968203157093288 is that same number. |
| Tables.EngineNafHasAdjacentDigits | src/bn256/engine.rs:21-26 | The constant is called a NAF, but it is not a non-adjacent form: digits 10 and 11 are 1 and -1. |
| Tables.EngineNafNonZeros | src/bn256/engine.rs:22-26 | Exactly 25 of the 64 digits below the top one are non-zero. So every loop makes 25 addition steps besides its 64 doubling steps. |
| Tables.NafVIsEngineNaf | src/tests/field.rs:571-575 | The test table `SIX_U_PLUS_2_NAF_V` is the engine's constant, digit for digit. |
| Tables.NafFIsNafOfSixUPlus2 | src/tests/field.rs:576-580 | `SIX_U_PLUS_2_NAF_F` has 66 digits and is a genuine NAF with top digit 1. Its value is 6u + 2, and it is exactly what `to_naf` returns for the literal that `test_naf` passes it. |
| LambdaConstants.LambdaIsMultipleOfThreeR | src/tests/field.rs:515 | The assertion lambda = d · ((lambda / r) / d) · r with d = 3 holds for the two literals. So 3r divides lambda. |
| LambdaConstants.LambdaIsLoopExponent | src/tests/field.rs:458-460 | The lambda literal is 6u + 2 + p - p^2 + p^3 at the BN254 base prime. This is the exponent the comment on `multi_miller_loop_c_wi` names. |
| Naf.ToNaf | src/tests/field.rs:545-569 | The encoder's output has digits in {-1, 0, 1}, value x and no two adjacent non-zero digits. It is empty exactly for x = 0, and otherwise ends in digit 1. It equals the reference encoding `NafOf(x)`. |
| Naf.DigitStep | src/tests/field.rs:553-566 | In one round, the emitted digit d and the next value y satisfy x = d + 2y and y < x, so the loop terminates. After a ±1 digit, y is even, so the next digit is 0. y = 0 only after digit 1. |
| Naf.OddHalf | src/tests/field.rs:557-565 | Moving an odd x to the neighbouring multiple of 4 and halving leaves an even number. When x is 3 mod 4 that number is still below x. |
| Naf.NafOf | src/tests/field.rs:553-568 | The reference encoding that `to_naf` is measured against: lowest digit first, each digit in {-1, 0, 1}, and empty exactly for 0. `Naf.NafOfCorrect` shows it is a NAF of x, and `Naf.NafUnique` that it is the only one. |
| Naf.NafOfCorrect | src/tests/field.rs:553-568 | The reference encoding of x is a NAF whose value is x. It is empty exactly for 0 and otherwise ends in digit 1. |
| Naf.NafUnique | src/tests/field.rs:545-569 | Every NAF whose value is the natural number x is the encoding of x. So the encoder's output is the only NAF of its input. |
| Exponentiation.BnXFitsIn64Bits | src/bn256/engine.rs:19 | BN_X is below 2^64, so it fits the u64 the source declares. |
| Exponentiation.ShrBnXTop | src/bn256/engine.rs:635-637 | BN_X >> 64 is 0, so the 64 bits that `exp_by_x` reads are all of BN_X. |
| Exponentiation.SquareMultiplyStep | src/bn256/engine.rs:638-641 | Squaring f^m, and then multiplying by f when the bit b is set, gives f^(2m + b). |
| Exponentiation.ExpByXFrom | src/bn256/engine.rs:637-642 | The accumulator of `exp_by_x` once bits 63 down to i have been read. It is non-zero when f is. `Exponentiation.ExpByXFromPow` shows it is f^(BN_X >> i). |
| Exponentiation.ExpByXFromPow | src/bn256/engine.rs:637-642 | Once bits 63 down to i have been read, the accumulator is f^(BN_X >> i). This is the loop invariant of `exp_by_x`. |
| Exponentiation.ExpByX | src/bn256/engine.rs:634-644 | `exp_by_x` returns f^BN_X, with every exponent of f multiplied by BN_X. The result is zero exactly when f is zero. |
| Exponentiation.NafLoopExponentStep | src/tests/field.rs:585-600 | Each round of the c / c^-1 loop doubles the exponent of c^-1 and adds the digit it reads. |
| Exponentiation.NafLoopExponentOfTable | src/tests/field.rs:582-585 | Starting from c^-1, which stands for the top digit, a table whose top digit is 1 leaves exactly the table's value as the exponent. |
| Exponentiation.NafLoopRound | src/tests/field.rs:586-599 | From c^-e, one round with digit d leaves c^-(2e + d), and the value stays non-zero. |
| Exponentiation.CalcNaf | src/tests/field.rs:582-624 | The loop shared by `calc_naf_v`/`calc_naf_f` panics exactly when c is zero. On a digit table it otherwise returns c to the minus (leading 1, shifted, plus the lower digits). |
| Exponentiation.CalcNafV | src/tests/field.rs:582-602 | `calc_naf_v` panics exactly for c = 0 and otherwise computes c^-(6u + 2). |
| Exponentiation.CalcNafF | src/tests/field.rs:604-624 | `calc_naf_f` panics exactly for c = 0 and otherwise computes c^-(6u + 2) too, from the 66-digit table. |
| Schedule.LoopStepsBounds | src/bn256/engine.rs:448-460 | Every iteration pushes one or two entries, whatever its digit, so iterations i down to 1 push between i and 2i entries. |
| Schedule.ScheduleOf | src/bn256/engine.rs:442-479 | The order in which a preparation pushes its entries. For a constant of n digits there are between n + 1 and 2n of them, and the last two are for pi(q) and -pi^2(q). `Schedule.ScheduleShape` gives the exact length, and `Schedule.EmitCoefficients` shows that the push loop follows this order. |
| Schedule.LoopStepsLength | src/bn256/engine.rs:448-460 | Iterations i down to 1 push i doubling entries plus one entry per non-zero digit among naf[0..i). |
| Schedule.ScheduleShape | src/bn256/engine.rs:442-479 | A preparation pushes (n - 1) + #nonzero(naf[0..n-1)) + 2 entries. The last two are for pi(q) and -pi^2(q). The first is a doubling. |
| Schedule.MillerScheduleLength | src/bn256/engine.rs:448-474 | For the engine's constant the list has 64 + 25 + 2 = 91 entries, starting with a doubling. |
| Schedule.Prepare | src/bn256/engine.rs:249-255 | Preparing the identity gives no coefficients and sets `infinity`. Any other point gets exactly one coefficient per schedule step, and entry k is for step k. |
| Schedule.PrepareOnProve | src/bn256/engine.rs:503-510 | As `Prepare`, for the affine preparation, which also keeps the point itself as `init_q`. |
| Schedule.EmitIteration | src/bn256/engine.rs:448-459 | One iteration's pushes (a doubling, then q after digit 1 or -q after digit -1) extend the token list by exactly that iteration's steps. |
| Schedule.EmitClosing | src/bn256/engine.rs:462-474 | The two closing pushes, for pi(q) and for -pi^2(q), complete the token list to the whole schedule. |
| Schedule.EmitCoefficients | src/bn256/engine.rs:442-475 | The push loop of both `from_affine` functions yields the schedule's tokens, in order. |
| Schedule.FromAffine | src/bn256/engine.rs:249-480 | `G2Prepared::from_affine` builds the preparation the schedule describes. |
| Schedule.FromAffineOnProve | src/bn256/engine.rs:503-622 | `G2OnProvePrepared::from_affine` builds the affine preparation the schedule describes, keeping q. |
| Schedule.PreparationsShareSchedule | src/bn256/engine.rs:568-621 | The two preparations of one point have the same length, the same infinity flag, and the same step and index at every entry. |
| TargetField.Mul | src/tests/field.rs:46-70 | Multiplication adds exponents, so it is associative and commutative as the multiplication laws require. A zero factor gives zero. |
| TargetField.Square | src/tests/field.rs:147-159 | Squaring doubles every exponent, as multiplying a value by itself does. Zero stays zero. |
| TargetField.Invert | src/tests/field.rs:161-174 | Zero has no inverse. Any other value's inverse negates its exponents, so the value times its inverse is one. |
| TargetField.Frobenius | src/bn256/engine.rs:924-934 | `frobenius_map(k)` raises a value to p^k and keeps zero at zero. |
| TargetField.IsOneIsSameAsOne | src/bn256/engine.rs:963 | The comparison `f == Fq12::one()` holds exactly when f equals one in the model. |
| MillerLoop.InitQs | src/bn256/engine.rs:807-810 | The on-prove loop tracks one point per term, dropped terms included. |
| MillerLoop.LineAt | src/bn256/engine.rs:744-756 | `ell` multiplies by a non-zero value: the line of that coefficient at that G1 point. |
| MillerLoop.Filter | src/bn256/engine.rs:736-741 | `multi_miller_loop` and `multi_miller_loop_c_wi` keep at most all their terms, and no kept term has the identity G1 point. `EngineLoops.FilterKeeps` states which terms are kept, in order, and `EngineLoops.FilterAppend` that a concatenation is filtered part by part. |
| MillerLoop.FilterOnProve | src/bn256/engine.rs:826-830 | The two on-prove loops keep at most all their terms, and no kept term has the identity G1 point. They apply the same test as `Filter`, to each term's coefficient list and infinity flag, so `EngineLoops.FilterKeeps` and `EngineLoops.FilterAppend` describe them too. |
| MillerLoop.PassOutcome | src/bn256/engine.rs:764-766 | One pass over the kept terms (`Pass`) fails only with exhaustion, or, on the on-prove loop, with a failed line check. A successful pass leaves the accumulator zero exactly when it was zero. `LoopTheory.PassSucceeds` and `LoopTheory.PassExhausts` state when it succeeds and what it multiplies in. |
| MillerLoop.AdjustOutcome | src/bn256/engine.rs:1061-1071 | `Adjust` is the accumulator at the start of an iteration: squared, except in the plain loops' first iteration, and in the scaled loops multiplied by c^-1 or c. Zero stays zero, and a non-zero value stays non-zero when c and c^-1 are non-zero. `LoopTheory.AdjustExp` gives its exponents. |
| MillerLoop.IterationsOutcome | src/bn256/engine.rs:760-781 | The iterations (`Iterations`) fail only with exhaustion or a failed line check. After i iterations the cursor has moved on by between i and 2i entries, and a non-zero accumulator stays non-zero. `LoopTheory.IterationsSucceed` and `LoopTheory.IterationsExhaust` state when they succeed. |
| MillerLoop.ClosingOutcome | src/bn256/engine.rs:783-793 | The two Frobenius passes and the final exhaustion assertion (`Closing`) fail only with exhaustion, leftover or a failed line check. On success the accumulator is zero exactly when it was zero. `LoopTheory.ClosingSucceeds` and `LoopTheory.ClosingFails` decide which. |
| MillerLoop.PlainLoop | src/bn256/engine.rs:758-795 | The body shared by the two plain loops fails only with exhaustion or leftover, never with a line check, and a value it returns is non-zero. |
| MillerLoop.ScaledAccumulator | src/bn256/engine.rs:1058-1120 | The scaled loop before its last assertion panics with `NoInverse` exactly when c is zero. It never fails with `NotOne`, and without a line check never with a failed one. |
| MillerLoop.ScaledLoop | src/bn256/engine.rs:1058-1122 | The scaled loop panics with `NoInverse` exactly when c is zero, and a value it returns is one. Without a line check it never fails one. |
| MillerLoop.MultiMillerLoop | src/bn256/engine.rs:735-796 | `multi_miller_loop` panics only when a coefficient list is too short or too long, and a value it returns is non-zero. `Consumers.PlainLoopClosedForm` gives its closed form, and `EngineLoops.MultiMillerLoopMultiplicative` shows it is multiplicative over its terms. |
| MillerLoop.MultiMillerLoopOnProvePrepare | src/bn256/engine.rs:969-1029 | `multi_miller_loop_on_prove_pairing_prepare` panics only when a list is too short or too long, and a value it returns is non-zero. `OnProve.OnProvePrepareOnHonestTerms` shows it never panics on prepared terms. |
| MillerLoop.MultiMillerLoopCWi | src/bn256/engine.rs:1033-1123 | `multi_miller_loop_c_wi` panics with `NoInverse` exactly when c is zero, never fails a line check, and a value it returns is one. `EngineLoops.MultiMillerLoopCWiChecksOne` relates it to `multi_miller_loop`. |
| MillerLoop.MultiMillerLoopOnProve | src/bn256/engine.rs:800-965 | `multi_miller_loop_on_prove_pairing` as written, zipping the kept lists with the points of all terms. It panics with `NoInverse` exactly when c is zero, and a value it returns is one. `OnProve.OnProveAsWrittenRejectsHonestTerms` exhibits honest terms it rejects. |
| LoopTheory.PassSucceeds | src/bn256/engine.rs:764-766 | A pass where every kept list still has entry m (and, on the on-prove loop, each entry passes its check) succeeds. It multiplies in that row of lines and keeps zero at zero. |
| LoopTheory.PassExhausts | src/bn256/engine.rs:764-766 | Without a check, a pass succeeds exactly when every kept list has entry m. Otherwise the unwrap panics with exhaustion. |
| LoopTheory.AdjustExp | src/bn256/engine.rs:1061-1071 | An iteration starts from the accumulator squared (the plain loops skip this in their first iteration). In a scaled loop it is then multiplied by c^-d for digit d. |
| LoopTheory.IterationStep | src/bn256/engine.rs:760-781 | An iteration whose coefficients are all present succeeds. It hands the next iteration the adjusted accumulator times the one or two rows of lines it pulled. |
| LoopTheory.IterationsSucceed | src/bn256/engine.rs:760-781 | The iterations run to the end when every list holds their entries. The cursor ends after the loop's steps, and the accumulator's exponents are `IterationsExp`. |
| LoopTheory.IterationsRun | src/bn256/engine.rs:1061-1090 | The inductive form of `IterationsSucceed`, for any scaling and any check the lists pass. |
| LoopTheory.IterationsExhaust | src/bn256/engine.rs:764-776 | If some kept list is shorter than the iterations need, they stop with the exhaustion panic. |
| LoopTheory.ClosingSucceeds | src/bn256/engine.rs:783-793 | The two Frobenius passes and the exhaustion assertion succeed when every list has exactly two entries left. They multiply in both rows. |
| LoopTheory.ClosingFails | src/bn256/engine.rs:783-793 | Otherwise the closing fails: with exhaustion exactly when some list has fewer than two entries left, and with the leftover assertion otherwise. |
| Consumers.PlainIterations | src/bn256/engine.rs:758-781 | Starting from one, when no list is too short, the plain loop reaches its closing passes holding the weighted product of the lines pulled so far. |
| Consumers.PlainLoopShortList | src/bn256/engine.rs:764-776 | A kept list too short for the iterations makes the plain loop panic with exhaustion. |
| Consumers.PlainLoopLongLists | src/bn256/engine.rs:783-793 | For lists long enough for the iterations, the closing decides. The loop succeeds exactly when every list has the schedule's length, and otherwise panics with exhaustion or leftover. |
| Consumers.PlainLoopClosedForm | src/bn256/engine.rs:735-796 | `multi_miller_loop` succeeds exactly when every kept list has the schedule's length. It returns the product of all lines, each raised to the weight of its position. It fails only on a list that is too short or too long. |
| Consumers.ScaleFactorExp | src/bn256/engine.rs:1092-1108 | The three Frobenius maps of c^-1, c, c^-1 and the factor wi add -p + p^2 - p^3 times the exponent of c, plus that of wi. |
| Consumers.ScaledIterations | src/bn256/engine.rs:1058-1108 | Starting from c^-1, the scaled iterations leave c^-(2^(n-1) + Value(naf[0..n-1))) times the weighted lines. With the Frobenius factors and wi this is the value the closing passes start from. |
| Consumers.ScaledShortList | src/bn256/engine.rs:1073-1089 | A kept list too short for the iterations makes `multi_miller_loop_c_wi` panic with exhaustion. |
| Consumers.ScaledFittingLists | src/bn256/engine.rs:1058-1120 | On lists that fit the schedule and pass the checks, the scaled loop reaches its final assertion. Its value is the weighted lines times wi · c^-(total). |
| Consumers.ScaledMisfit | src/bn256/engine.rs:1110-1120 | Lists long enough for the iterations, but not all of the schedule's length, make the scaled loop fail with exhaustion or leftover. |
| Consumers.ScaledAccumulatorClosedForm | src/bn256/engine.rs:1033-1120 | Before its final assertion, the scaled loop panics if c has no inverse. Otherwise it succeeds exactly when every list has the schedule's length, and then holds the closed form times wi times c^-(total). |
| EngineLoops.FilterAppend | src/bn256/engine.rs:736-741 | Filtering a concatenation of term lists filters each part. |
| EngineLoops.FilterKeeps | src/bn256/engine.rs:736-741 | Extending the terms by one term extends what the loops keep by that term exactly when its G1 point is not the identity and its preparation is not at infinity. So the non-degenerate terms are kept, in order, and nothing else. Nothing is kept exactly when every term is degenerate, and every term is kept when none is. |
| EngineLoops.MultiMillerLoopMultiplicative | src/bn256/engine.rs:735-796 | The loop over a concatenated term list succeeds exactly when the loops over both parts do, and then it is their product. |
| EngineLoops.MultiMillerLoopOfDegenerateTerms | src/bn256/engine.rs:737-795 | When every term has the identity G1 point or an infinity preparation, `multi_miller_loop` returns one. |
| EngineLoops.PreparedListsFit | src/bn256/engine.rs:442-479 | Every list `from_affine` makes for a kept term has the schedule's length. |
| EngineLoops.MultiMillerLoopOnPreparedTerms | src/bn256/engine.rs:760-793 | On lists made by `from_affine`, no unwrap and no final exhaustion assertion of `multi_miller_loop` fails. |
| EngineLoops.EngineCTotal | src/bn256/engine.rs:1031-1032 | For the engine's constant, the exponent of c^-1 the scaled loop accumulates is 6u + 2 + p - p^2 + p^3. |
| EngineLoops.MultiMillerLoopCWiNoInverse | src/bn256/engine.rs:1058 | `multi_miller_loop_c_wi` panics when c is zero. |
| EngineLoops.CWiAccumulatorSucceeds | src/bn256/engine.rs:1061-1120 | Before its final assertion, `multi_miller_loop_c_wi` gets through its coefficients exactly when `multi_miller_loop` does on the same terms. |
| EngineLoops.ScaledAccumulatorAgainstPlain | src/bn256/engine.rs:1092-1108 | On fitting lists that pass the checks, the scaled value is the plain loop's value times wi · c^-(6u+2+p-p^2+p^3). |
| EngineLoops.ScaledLoopAgainstPlain | src/bn256/engine.rs:1121 | The scaled loop returns exactly when the plain value times wi · c^-(6u+2+p-p^2+p^3) is one, and then returns one. Otherwise it fails only its final assertion. |
| EngineLoops.MultiMillerLoopCWiChecksOne | src/bn256/engine.rs:1031-1123 | `multi_miller_loop_c_wi` returns exactly when `multi_miller_loop` succeeds and its value times wi · c^-(6u+2+p-p^2+p^3) is one. It then returns one, and otherwise fails only on a list of the wrong length or on the final assertion. |
| EngineLoops.MultiMillerLoopCWiOnPreparedTerms | src/bn256/engine.rs:1118-1121 | On lists made by `from_affine`, only the final `f == one` assertion of `multi_miller_loop_c_wi` can fail. |
| OnProve.MultiMillerLoopOnProveAligned | src/bn256/engine.rs:800-965 | The corrected on-prove loop, which checks each kept list against its own term's point. It panics with `NoInverse` exactly when c is zero, and a value it returns is one. `OnProve.OnProveAlignedOnHonestTerms` shows it accepts honest terms exactly when the product is one. |
| OnProve.KeptInitQsOfKeptTerms | src/bn256/engine.rs:806-830 | Without dropped terms, the points of the kept terms are exactly `init_q`. |
| OnProve.HonestKeptLists | src/bn256/engine.rs:568-621 | When every list is the one `from_affine` makes, each kept list is the affine schedule tokens of its own term's point. |
| OnProve.TokensPassChecks | src/bn256/engine.rs:832-862 | Lists that are the schedule tokens of points qs fit the schedule, and pass every line check against qs. |
| OnProve.OnProvePrepareOnHonestTerms | src/bn256/engine.rs:969-1029 | On lists made by `from_affine`, `multi_miller_loop_on_prove_pairing_prepare` never panics and returns a non-zero value. |
| OnProve.OnProveAlignedOnHonestTerms | src/bn256/engine.rs:878-964 | With each list checked against its own term's point, the on-prove loop on honest terms never fails a line check or a length check. It returns one exactly when the `_prepare` value times wi · c^-(6u+2+p-p^2+p^3) is one. |
| OnProve.OnProveNoInverse | src/bn256/engine.rs:878 | Both on-prove scaled loops panic when c is zero. |
| OnProve.OnProveAsWrittenWithoutDroppedTerms | src/bn256/engine.rs:806-830 | When no term is dropped, the loop as written is the aligned loop. |
| OnProve.OnProveAsWrittenRejectsHonestTerms | src/bn256/engine.rs:893-897 | Take a dropped honest term followed by an honest term for another point. The loop as written checks the kept list against the dropped term's point and fails a line check, where the aligned loop does not. |
| AffineLines.DoublingLine | src/bn256/engine.rs:514-523 | The tangent line built from the slope passes through t: the assertion in `doubling_step` holds. |
| AffineLines.AdditionLine | src/bn256/engine.rs:547-553 | The chord built from the slope passes through both points. |
| AffineLines.DoubleVerify | src/bn256/engine.rs:832-849 | `double_verify` passes exactly when t is on the line with the tangent slope. It then yields (alpha^2 - 2x, alpha(x - x3) - y). |
| AffineLines.AdditionVerify | src/bn256/engine.rs:850-862 | `addition_verify` passes exactly when both points are on the line. It then yields (alpha^2 - x1 - x2, alpha(x1 - x3) - y1). |
| AffineLines.MeetAtDouble | src/bn256/engine.rs:842-845 | At x3 = alpha^2 - 2t, the cubic where the line meets the curve equals its value at t plus its slope at t times (x3 - t). |
| AffineLines.MeetAtChord | src/bn256/engine.rs:855-858 | At x3 = alpha^2 - x1 - x2, the cubic is the linear interpolation of its values at x1 and x2. |
| AffineLines.DoubleVerifyOnCurve | src/bn256/engine.rs:832-849 | A point `double_verify` returns for a curve point lies on the curve. |
| AffineLines.AdditionVerifyOnCurve | src/bn256/engine.rs:850-862 | A point `addition_verify` returns for two curve points with different abscissae lies on the curve. |
| AffineLines.StepsPassVerify | src/bn256/engine.rs:514-566 | The lines `doubling_step` and `addition_step` produce pass the checks of `double_verify` and `addition_verify`. |

## Left out

- Limb-level `Fq`, `Fq2`, `Fq6` and `Fq12` arithmetic, Montgomery form and the Frobenius constants are not part of this model. They are defined in the base-field and extension-field modules, which this model does not cover. The target field is the exponent model of `TargetField`, which has multiplication, squaring and inversion but no addition. Of the laws `random_field_tests` checks, only those of multiplication by zero, multiplication, squaring and inversion (`src/tests/field.rs` lines 30-35, 46-70 and 147-174) can be stated in it, and they hold by construction. The additive laws (addition by zero, addition, subtraction, negation, doubling and expansion) are outside the exponent model.
- The projective `doubling_step`/`addition_step` of `G2Prepared::from_affine` are not modelled. They depend on the Jacobian coordinates of `G2`, which are outside this model. Their outputs are opaque tokens.
- The G2 group operations behind the `assert_eq!(r, t3)` checks of `G2OnProvePrepared::from_affine` are not modelled. They come from the G2 curve implementation, which is not modelled, so the checks are not modelled either.
- The hard part of `final_exponentiation` is not modelled. It needs cyclotomic-subgroup facts and a large polynomial identity in p and u. Only `exp_by_x` is modelled, with `cyclotomic_square` as squaring.
- Exponentiation.ExpByX: `cyclotomic_square` equals squaring only on the cyclotomic subgroup, so in the engine `exp_by_x(f)` is f^BN_X only for f in that subgroup. That is where `final_exponentiation` calls it (`src/bn256/engine.rs` lines 667-673). The model squares with `Square` for every f, and does not model `cyclotomic_square` outside the subgroup.
- `Gt * Fr` is not modelled. Its `double` is squaring while `+` is field addition, so no group law can be stated for it.
- The `unimplemented!()` methods of `Gt` are not modelled, because they have no behaviour.
- `tonelli_shanks_cubic` and the randomised body of `compute_c_wi` are left out. They are big-integer exponentiations over sampled values. Only the lambda/r constant check is modelled, and c and wi are inputs.
- Printing, timers, random test loops and constant-time selection are left out. None of them affects the values computed.
- `src/arithmetic/pairing.rs` is left out. It holds trait declarations only.
- `Fq::MODULUS` is defined with the base field, outside this model, so p is a parameter, and only `LambdaConstants.FqModulus` fixes the BN254 value.
- MillerLoop.LineAt: every line evaluation `ell` is a non-zero generator of its own. The model does not track the field value of a line, so it cannot express two lines coinciding or a line evaluating to zero.
- MillerLoop.Expected: the on-prove line check is modelled as equality with the token of the line that the tracked point's tangent or chord gives at that position. The affine checks fix slope and bias uniquely only when 2y and x2 - x1 are invertible. The degenerate cases where they are not are not modelled.
- AffineLines.DoubleVerifyOnCurve: the formulas are proved over the integers rather than in Fq2. Identities over the integers hold in every commutative ring, so in Fq2 as well. Division is left out: `doubling_step` and `addition_step` take the slope as given, together with the relation it satisfies.
- The unwraps of `invert()` inside `doubling_step` and `addition_step` (zero y, equal x) are not modelled, since their slopes are inputs here.

## Findings

| source | as written | input that shows it | evidently intended | confidence | as-written member | corrected member |
|---|---|---|---|---|---|---|
| src/bn256/engine.rs:808-830 | `multi_miller_loop_on_prove_pairing` collects `init_q` from every term, but drops terms with the identity G1 point from `pairs`. It then zips the two lists by position (lines 893, 901, 910, 940, 950). | The terms are [(identity, from_affine(Q1)), (P, from_affine(Q2))] with Q1 ≠ Q2. The only kept list belongs to Q2, but it is checked against Q1, so `double_verify` fails on an honest input. | Each kept list is checked against the points of its own term. | not executed | MillerLoop.MultiMillerLoopOnProve | OnProve.MultiMillerLoopOnProveAligned |

The as-written member's counterexample is `OnProve.OnProveAsWrittenRejectsHonestTerms`. The property of the corrected member is `OnProve.OnProveAlignedOnHonestTerms`. `OnProve.OnProveAsWrittenWithoutDroppedTerms` shows that the two agree whenever no term is dropped. The other results about the on-prove loop are stated for the aligned loop. The generic scaled-loop lemmas hold for any check the lists pass.
