/** The loop constants of the BN254 optimal-ate pairing.

    `BnX` is the curve parameter u; the Miller loop walks a signed-binary
    expansion of 6u + 2, stored least significant digit first.  The engine's
    table and the two tables of the test helpers are written row by row as
    in the source (each literal row is one source line). */
module Tables {
  import opened Digits
  import opened Naf

  /** The BN curve parameter u (a u64 in the source). */
  const BnX: nat := 4965661367192848881

  /** 6u + 2, as the decimal literal fed to the NAF encoder by the tests. */
  const SixUPlus2: nat := 29793968203157093288

  /** The engine's signed-digit loop constant (65 digits). */
  const SixUPlus2Naf: seq<int> :=
      [0, 0, 0, 1, 0, 1, 0, -1, 0, 0, 1, -1, 0, 0, 1, 0, 0, 1, 1, 0, -1, 0, 0, 1, 0, -1, 0, 0, 0, 0]
      + [1, 1, 1, 0, 0, -1, 0, 0, 1, 0, 0, 0, 0, 0, -1, 0, 0, 1, 1, 0, 0, -1, 0, 0, 0, 1, 1, 0, -1, 0]
      + [0, 1, 0, 1, 1]

  /** The first test table, a copy of the engine's loop constant. */
  const SixUPlus2NafV: seq<int> :=
      [0, 0, 0, 1, 0, 1, 0, -1, 0, 0, 1, -1, 0, 0, 1, 0, 0, 1, 1, 0, -1, 0, 0, 1, 0, -1, 0, 0, 0, 0]
      + [1, 1, 1, 0, 0, -1, 0, 0, 1, 0, 0, 0, 0, 0, -1, 0, 0, 1, 1, 0, 0, -1, 0, 0, 0, 1, 1, 0, -1, 0]
      + [0, 1, 0, 1, 1]

  /** The second test table (66 digits). */
  const SixUPlus2NafF: seq<int> :=
      [0, 0, 0, 1, 0, 1, 0, -1, 0, 0, -1, 0, 0, 0, 1, 0, 0, -1, 0, -1, 0, 0, 0, 1, 0, -1, 0, 0, 0, 0]
      + [-1, 0, 0, 1, 0, -1, 0, 0, 1, 0, 0, 0, 0, 0, -1, 0, 0, -1, 0, 1, 0, -1, 0, 0, 0, -1, 0, -1, 0]
      + [0, 0, 1, 0, -1, 0, 1]

  /** The engine constant has 65 signed digits with top digit 1 and denotes
      6u + 2. */
  lemma EngineNafShape()
    ensures |SixUPlus2Naf| == 65
    ensures AllDigits(SixUPlus2Naf)
    ensures SixUPlus2Naf[64] == 1
    ensures SixUPlus2 == 6 * BnX + 2
    ensures Value(SixUPlus2Naf) == 6 * BnX + 2
  {
    var t := SixUPlus2Naf;
    assert ValueFrom(t, 64) == 1;
    assert ValueFrom(t, 63) == 3;
    assert ValueFrom(t, 62) == 6;
    assert ValueFrom(t, 61) == 13;
    assert ValueFrom(t, 60) == 26;
    assert ValueFrom(t, 59) == 52;
    assert ValueFrom(t, 58) == 103;
    assert ValueFrom(t, 57) == 206;
    assert ValueFrom(t, 56) == 413;
    assert ValueFrom(t, 55) == 827;
    assert ValueFrom(t, 54) == 1654;
    assert ValueFrom(t, 53) == 3308;
    assert ValueFrom(t, 52) == 6616;
    assert ValueFrom(t, 51) == 13231;
    assert ValueFrom(t, 50) == 26462;
    assert ValueFrom(t, 49) == 52924;
    assert ValueFrom(t, 48) == 105849;
    assert ValueFrom(t, 47) == 211699;
    assert ValueFrom(t, 46) == 423398;
    assert ValueFrom(t, 45) == 846796;
    assert ValueFrom(t, 44) == 1693591;
    assert ValueFrom(t, 43) == 3387182;
    assert ValueFrom(t, 42) == 6774364;
    assert ValueFrom(t, 41) == 13548728;
    assert ValueFrom(t, 40) == 27097456;
    assert ValueFrom(t, 39) == 54194912;
    assert ValueFrom(t, 38) == 108389825;
    assert ValueFrom(t, 37) == 216779650;
    assert ValueFrom(t, 36) == 433559300;
    assert ValueFrom(t, 35) == 867118599;
    assert ValueFrom(t, 34) == 1734237198;
    assert ValueFrom(t, 33) == 3468474396;
    assert ValueFrom(t, 32) == 6936948793;
    assert ValueFrom(t, 31) == 13873897587;
    assert ValueFrom(t, 30) == 27747795175;
    assert ValueFrom(t, 29) == 55495590350;
    assert ValueFrom(t, 28) == 110991180700;
    assert ValueFrom(t, 27) == 221982361400;
    assert ValueFrom(t, 26) == 443964722800;
    assert ValueFrom(t, 25) == 887929445599;
    assert ValueFrom(t, 24) == 1775858891198;
    assert ValueFrom(t, 23) == 3551717782397;
    assert ValueFrom(t, 22) == 7103435564794;
    assert ValueFrom(t, 21) == 14206871129588;
    assert ValueFrom(t, 20) == 28413742259175;
    assert ValueFrom(t, 19) == 56827484518350;
    assert ValueFrom(t, 18) == 113654969036701;
    assert ValueFrom(t, 17) == 227309938073403;
    assert ValueFrom(t, 16) == 454619876146806;
    assert ValueFrom(t, 15) == 909239752293612;
    assert ValueFrom(t, 14) == 1818479504587225;
    assert ValueFrom(t, 13) == 3636959009174450;
    assert ValueFrom(t, 12) == 7273918018348900;
    assert ValueFrom(t, 11) == 14547836036697799;
    assert ValueFrom(t, 10) == 29095672073395599;
    assert ValueFrom(t, 9) == 58191344146791198;
    assert ValueFrom(t, 8) == 116382688293582396;
    assert ValueFrom(t, 7) == 232765376587164791;
    assert ValueFrom(t, 6) == 465530753174329582;
    assert ValueFrom(t, 5) == 931061506348659165;
    assert ValueFrom(t, 4) == 1862123012697318330;
    assert ValueFrom(t, 3) == 3724246025394636661;
    assert ValueFrom(t, 2) == 7448492050789273322;
    assert ValueFrom(t, 1) == 14896984101578546644;
    assert ValueFrom(t, 0) == 29793968203157093288;
    ValueFromIsValue(t, 0);
    assert t[0..] == t;
    assert DigitsFrom(t, 64);
    assert DigitsFrom(t, 63);
    assert DigitsFrom(t, 62);
    assert DigitsFrom(t, 61);
    assert DigitsFrom(t, 60);
    assert DigitsFrom(t, 59);
    assert DigitsFrom(t, 58);
    assert DigitsFrom(t, 57);
    assert DigitsFrom(t, 56);
    assert DigitsFrom(t, 55);
    assert DigitsFrom(t, 54);
    assert DigitsFrom(t, 53);
    assert DigitsFrom(t, 52);
    assert DigitsFrom(t, 51);
    assert DigitsFrom(t, 50);
    assert DigitsFrom(t, 49);
    assert DigitsFrom(t, 48);
    assert DigitsFrom(t, 47);
    assert DigitsFrom(t, 46);
    assert DigitsFrom(t, 45);
    assert DigitsFrom(t, 44);
    assert DigitsFrom(t, 43);
    assert DigitsFrom(t, 42);
    assert DigitsFrom(t, 41);
    assert DigitsFrom(t, 40);
    assert DigitsFrom(t, 39);
    assert DigitsFrom(t, 38);
    assert DigitsFrom(t, 37);
    assert DigitsFrom(t, 36);
    assert DigitsFrom(t, 35);
    assert DigitsFrom(t, 34);
    assert DigitsFrom(t, 33);
    assert DigitsFrom(t, 32);
    assert DigitsFrom(t, 31);
    assert DigitsFrom(t, 30);
    assert DigitsFrom(t, 29);
    assert DigitsFrom(t, 28);
    assert DigitsFrom(t, 27);
    assert DigitsFrom(t, 26);
    assert DigitsFrom(t, 25);
    assert DigitsFrom(t, 24);
    assert DigitsFrom(t, 23);
    assert DigitsFrom(t, 22);
    assert DigitsFrom(t, 21);
    assert DigitsFrom(t, 20);
    assert DigitsFrom(t, 19);
    assert DigitsFrom(t, 18);
    assert DigitsFrom(t, 17);
    assert DigitsFrom(t, 16);
    assert DigitsFrom(t, 15);
    assert DigitsFrom(t, 14);
    assert DigitsFrom(t, 13);
    assert DigitsFrom(t, 12);
    assert DigitsFrom(t, 11);
    assert DigitsFrom(t, 10);
    assert DigitsFrom(t, 9);
    assert DigitsFrom(t, 8);
    assert DigitsFrom(t, 7);
    assert DigitsFrom(t, 6);
    assert DigitsFrom(t, 5);
    assert DigitsFrom(t, 4);
    assert DigitsFrom(t, 3);
    assert DigitsFrom(t, 2);
    assert DigitsFrom(t, 1);
    assert DigitsFrom(t, 0);
    DigitsFromAll(t, 0);
  }

  /** Despite its name, the engine constant is not a non-adjacent form:
      digits 10 and 11 (and six other neighbouring pairs) are both non-zero.
      The Miller loop does not need non-adjacency, only the value. */
  lemma EngineNafHasAdjacentDigits()
    ensures !NonAdjacent(SixUPlus2Naf)
    ensures SixUPlus2Naf[10] == 1 && SixUPlus2Naf[11] == -1
  {
    var t := SixUPlus2Naf;
    assert t[10] == 1 && t[11] == -1;
    assert !(t[11 - 1] == 0 || t[11] == 0);
  }

  /** 25 of the 64 digits below the top one are non-zero, so each Miller
      loop runs 25 addition steps besides its 64 doubling steps. */
  lemma EngineNafNonZeros()
    ensures NonZeroCount(SixUPlus2Naf[..64]) == 25
  {
    var t := SixUPlus2Naf[..64];
    assert NonZeroFrom(t, 63) == 1;
    assert NonZeroFrom(t, 62) == 1;
    assert NonZeroFrom(t, 61) == 2;
    assert NonZeroFrom(t, 60) == 2;
    assert NonZeroFrom(t, 59) == 2;
    assert NonZeroFrom(t, 58) == 3;
    assert NonZeroFrom(t, 57) == 3;
    assert NonZeroFrom(t, 56) == 4;
    assert NonZeroFrom(t, 55) == 5;
    assert NonZeroFrom(t, 54) == 5;
    assert NonZeroFrom(t, 53) == 5;
    assert NonZeroFrom(t, 52) == 5;
    assert NonZeroFrom(t, 51) == 6;
    assert NonZeroFrom(t, 50) == 6;
    assert NonZeroFrom(t, 49) == 6;
    assert NonZeroFrom(t, 48) == 7;
    assert NonZeroFrom(t, 47) == 8;
    assert NonZeroFrom(t, 46) == 8;
    assert NonZeroFrom(t, 45) == 8;
    assert NonZeroFrom(t, 44) == 9;
    assert NonZeroFrom(t, 43) == 9;
    assert NonZeroFrom(t, 42) == 9;
    assert NonZeroFrom(t, 41) == 9;
    assert NonZeroFrom(t, 40) == 9;
    assert NonZeroFrom(t, 39) == 9;
    assert NonZeroFrom(t, 38) == 10;
    assert NonZeroFrom(t, 37) == 10;
    assert NonZeroFrom(t, 36) == 10;
    assert NonZeroFrom(t, 35) == 11;
    assert NonZeroFrom(t, 34) == 11;
    assert NonZeroFrom(t, 33) == 11;
    assert NonZeroFrom(t, 32) == 12;
    assert NonZeroFrom(t, 31) == 13;
    assert NonZeroFrom(t, 30) == 14;
    assert NonZeroFrom(t, 29) == 14;
    assert NonZeroFrom(t, 28) == 14;
    assert NonZeroFrom(t, 27) == 14;
    assert NonZeroFrom(t, 26) == 14;
    assert NonZeroFrom(t, 25) == 15;
    assert NonZeroFrom(t, 24) == 15;
    assert NonZeroFrom(t, 23) == 16;
    assert NonZeroFrom(t, 22) == 16;
    assert NonZeroFrom(t, 21) == 16;
    assert NonZeroFrom(t, 20) == 17;
    assert NonZeroFrom(t, 19) == 17;
    assert NonZeroFrom(t, 18) == 18;
    assert NonZeroFrom(t, 17) == 19;
    assert NonZeroFrom(t, 16) == 19;
    assert NonZeroFrom(t, 15) == 19;
    assert NonZeroFrom(t, 14) == 20;
    assert NonZeroFrom(t, 13) == 20;
    assert NonZeroFrom(t, 12) == 20;
    assert NonZeroFrom(t, 11) == 21;
    assert NonZeroFrom(t, 10) == 22;
    assert NonZeroFrom(t, 9) == 22;
    assert NonZeroFrom(t, 8) == 22;
    assert NonZeroFrom(t, 7) == 23;
    assert NonZeroFrom(t, 6) == 23;
    assert NonZeroFrom(t, 5) == 24;
    assert NonZeroFrom(t, 4) == 24;
    assert NonZeroFrom(t, 3) == 25;
    assert NonZeroFrom(t, 2) == 25;
    assert NonZeroFrom(t, 1) == 25;
    assert NonZeroFrom(t, 0) == 25;
    NonZeroFromIsCount(t, 0);
    assert t[0..] == t;
  }

  /** The first test table is the engine constant, digit for digit. */
  lemma NafVIsEngineNaf()
    ensures SixUPlus2NafV == SixUPlus2Naf
  {
  }

  /** The second test table is a genuine NAF of 6u + 2 with top digit 1, and
      therefore exactly what `to_naf` produces for the literal 6u + 2. */
  lemma NafFIsNafOfSixUPlus2()
    ensures |SixUPlus2NafF| == 66
    ensures IsNaf(SixUPlus2NafF)
    ensures SixUPlus2NafF[65] == 1
    ensures Value(SixUPlus2NafF) == SixUPlus2
    ensures SixUPlus2NafF == NafOf(SixUPlus2)
  {
    var t := SixUPlus2NafF;
    assert ValueFrom(t, 65) == 1;
    assert ValueFrom(t, 64) == 2;
    assert ValueFrom(t, 63) == 3;
    assert ValueFrom(t, 62) == 6;
    assert ValueFrom(t, 61) == 13;
    assert ValueFrom(t, 60) == 26;
    assert ValueFrom(t, 59) == 52;
    assert ValueFrom(t, 58) == 104;
    assert ValueFrom(t, 57) == 207;
    assert ValueFrom(t, 56) == 414;
    assert ValueFrom(t, 55) == 827;
    assert ValueFrom(t, 54) == 1654;
    assert ValueFrom(t, 53) == 3308;
    assert ValueFrom(t, 52) == 6616;
    assert ValueFrom(t, 51) == 13231;
    assert ValueFrom(t, 50) == 26462;
    assert ValueFrom(t, 49) == 52925;
    assert ValueFrom(t, 48) == 105850;
    assert ValueFrom(t, 47) == 211699;
    assert ValueFrom(t, 46) == 423398;
    assert ValueFrom(t, 45) == 846796;
    assert ValueFrom(t, 44) == 1693591;
    assert ValueFrom(t, 43) == 3387182;
    assert ValueFrom(t, 42) == 6774364;
    assert ValueFrom(t, 41) == 13548728;
    assert ValueFrom(t, 40) == 27097456;
    assert ValueFrom(t, 39) == 54194912;
    assert ValueFrom(t, 38) == 108389825;
    assert ValueFrom(t, 37) == 216779650;
    assert ValueFrom(t, 36) == 433559300;
    assert ValueFrom(t, 35) == 867118599;
    assert ValueFrom(t, 34) == 1734237198;
    assert ValueFrom(t, 33) == 3468474397;
    assert ValueFrom(t, 32) == 6936948794;
    assert ValueFrom(t, 31) == 13873897588;
    assert ValueFrom(t, 30) == 27747795175;
    assert ValueFrom(t, 29) == 55495590350;
    assert ValueFrom(t, 28) == 110991180700;
    assert ValueFrom(t, 27) == 221982361400;
    assert ValueFrom(t, 26) == 443964722800;
    assert ValueFrom(t, 25) == 887929445599;
    assert ValueFrom(t, 24) == 1775858891198;
    assert ValueFrom(t, 23) == 3551717782397;
    assert ValueFrom(t, 22) == 7103435564794;
    assert ValueFrom(t, 21) == 14206871129588;
    assert ValueFrom(t, 20) == 28413742259176;
    assert ValueFrom(t, 19) == 56827484518351;
    assert ValueFrom(t, 18) == 113654969036702;
    assert ValueFrom(t, 17) == 227309938073403;
    assert ValueFrom(t, 16) == 454619876146806;
    assert ValueFrom(t, 15) == 909239752293612;
    assert ValueFrom(t, 14) == 1818479504587225;
    assert ValueFrom(t, 13) == 3636959009174450;
    assert ValueFrom(t, 12) == 7273918018348900;
    assert ValueFrom(t, 11) == 14547836036697800;
    assert ValueFrom(t, 10) == 29095672073395599;
    assert ValueFrom(t, 9) == 58191344146791198;
    assert ValueFrom(t, 8) == 116382688293582396;
    assert ValueFrom(t, 7) == 232765376587164791;
    assert ValueFrom(t, 6) == 465530753174329582;
    assert ValueFrom(t, 5) == 931061506348659165;
    assert ValueFrom(t, 4) == 1862123012697318330;
    assert ValueFrom(t, 3) == 3724246025394636661;
    assert ValueFrom(t, 2) == 7448492050789273322;
    assert ValueFrom(t, 1) == 14896984101578546644;
    assert ValueFrom(t, 0) == 29793968203157093288;
    ValueFromIsValue(t, 0);
    assert t[0..] == t;
    assert ShapeFrom(t, 65);
    assert ShapeFrom(t, 64);
    assert ShapeFrom(t, 63);
    assert ShapeFrom(t, 62);
    assert ShapeFrom(t, 61);
    assert ShapeFrom(t, 60);
    assert ShapeFrom(t, 59);
    assert ShapeFrom(t, 58);
    assert ShapeFrom(t, 57);
    assert ShapeFrom(t, 56);
    assert ShapeFrom(t, 55);
    assert ShapeFrom(t, 54);
    assert ShapeFrom(t, 53);
    assert ShapeFrom(t, 52);
    assert ShapeFrom(t, 51);
    assert ShapeFrom(t, 50);
    assert ShapeFrom(t, 49);
    assert ShapeFrom(t, 48);
    assert ShapeFrom(t, 47);
    assert ShapeFrom(t, 46);
    assert ShapeFrom(t, 45);
    assert ShapeFrom(t, 44);
    assert ShapeFrom(t, 43);
    assert ShapeFrom(t, 42);
    assert ShapeFrom(t, 41);
    assert ShapeFrom(t, 40);
    assert ShapeFrom(t, 39);
    assert ShapeFrom(t, 38);
    assert ShapeFrom(t, 37);
    assert ShapeFrom(t, 36);
    assert ShapeFrom(t, 35);
    assert ShapeFrom(t, 34);
    assert ShapeFrom(t, 33);
    assert ShapeFrom(t, 32);
    assert ShapeFrom(t, 31);
    assert ShapeFrom(t, 30);
    assert ShapeFrom(t, 29);
    assert ShapeFrom(t, 28);
    assert ShapeFrom(t, 27);
    assert ShapeFrom(t, 26);
    assert ShapeFrom(t, 25);
    assert ShapeFrom(t, 24);
    assert ShapeFrom(t, 23);
    assert ShapeFrom(t, 22);
    assert ShapeFrom(t, 21);
    assert ShapeFrom(t, 20);
    assert ShapeFrom(t, 19);
    assert ShapeFrom(t, 18);
    assert ShapeFrom(t, 17);
    assert ShapeFrom(t, 16);
    assert ShapeFrom(t, 15);
    assert ShapeFrom(t, 14);
    assert ShapeFrom(t, 13);
    assert ShapeFrom(t, 12);
    assert ShapeFrom(t, 11);
    assert ShapeFrom(t, 10);
    assert ShapeFrom(t, 9);
    assert ShapeFrom(t, 8);
    assert ShapeFrom(t, 7);
    assert ShapeFrom(t, 6);
    assert ShapeFrom(t, 5);
    assert ShapeFrom(t, 4);
    assert ShapeFrom(t, 3);
    assert ShapeFrom(t, 2);
    assert ShapeFrom(t, 1);
    assert ShapeFrom(t, 0);
    ShapeFromAll(t, 0);
    NafUnique(t, SixUPlus2);
  }
}

/** The exponent of the on-prove-pairing check (Algorithm 5 of "On Proving
    Pairings", eprint 2024/640): lambda = 6u + 2 + p - p^2 + p^3, written
    in the tests as a decimal literal, together with the group order r. */
module LambdaConstants {
  import opened Tables

  /** The BN254 scalar-field order r (the literal in `compute_c_wi`). */
  const R: nat := 21888242871839275222246405745257275088548364400416034343698204186575808495617

  /** The exponent lambda (the literal in `compute_c_wi` and the tests). */
  const Lambda: nat := 10486551571378427818905133077457505975146652579011797175399169355881771981095211883813744499745558409789005132135496770941292989421431235276221147148858384772096778432243207188878598198850276842458913349817007302752534892127325269

  /** The BN254 base-field prime p; the source reads it from `Fq::MODULUS`,
      whose defining file is not part of this model. */
  const FqModulus: nat := 21888242871839275222246405745257275088696311157297823662689037894645226208583

  /** The exponent of c that the scaled Miller loops remove, for a prime p. */
  function LoopExponent(p: int): int {
    6 * BnX + 2 + p - p * p + p * p * p
  }

  /** `compute_c_wi` checks lambda = d * ((lambda / r) / d) * r with d = 3,
      i.e. that 3r divides lambda. */
  lemma LambdaIsMultipleOfThreeR()
    ensures Lambda == 3 * ((Lambda / R) / 3) * R
    ensures Lambda % (3 * R) == 0
  {
  }

  /** The decimal literal lambda is the loop exponent at the BN254 prime. */
  lemma LambdaIsLoopExponent()
    ensures Lambda == LoopExponent(FqModulus)
  {
  }
}
