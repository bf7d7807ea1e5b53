/** The affine line helpers of the on-prove variant: the tangent and chord
    lines `doubling_step` / `addition_step` compute, and the checks and
    point updates `double_verify` / `addition_verify` perform.

    Coordinates are integers.  Every statement below is a polynomial
    identity, or follows from one in an integral domain, so it holds in Fq2
    as well; field inverses are replaced by the slope relation they
    establish (2y * alpha = 3x^2 for a tangent, (x2 - x1) * alpha = y2 - y1
    for a chord). */
module AffineLines {
  import opened Wrappers

  datatype Point = Point(x: int, y: int)

  /** A line y = alpha * x + bias, as the pair (alpha, bias) of the source. */
  datatype Line = Line(alpha: int, bias: int)

  /** The curve y^2 = x^3 + b (b is the twist constant for G2). */
  predicate OnCurve(t: Point, b: int) {
    t.y * t.y == t.x * t.x * t.x + b
  }

  /** The check `y - alpha * x - bias == 0`. */
  predicate OnLine(l: Line, t: Point) {
    t.y - l.alpha * t.x - l.bias == 0
  }

  /** The check `2y * alpha - 3x^2 == 0`: the slope of the tangent at t. */
  predicate IsTangentSlope(alpha: int, t: Point) {
    2 * t.y * alpha - 3 * (t.x * t.x) == 0
  }

  /** The slope relation of the chord through r and q. */
  predicate IsChordSlope(alpha: int, r: Point, q: Point) {
    alpha * (q.x - r.x) == q.y - r.y
  }

  /** `doubling_step`: the tangent at t, from its slope. */
  function DoublingLine(t: Point, alpha: int): (l: Line)
    requires IsTangentSlope(alpha, t)
    ensures l.alpha == alpha && OnLine(l, t)
    ensures IsTangentSlope(l.alpha, t)
  {
    Line(alpha, t.y - alpha * t.x)
  }

  /** `addition_step`: the chord through r and q, from its slope; both points
      lie on it. */
  function AdditionLine(r: Point, q: Point, alpha: int): (l: Line)
    requires IsChordSlope(alpha, r, q)
    ensures l.alpha == alpha
    ensures OnLine(l, r) && OnLine(l, q)
  {
    var l := Line(alpha, r.y - alpha * r.x);
    assert q.y - alpha * q.x - l.bias == (q.y - r.y) - alpha * (q.x - r.x);
    l
  }

  /** `double_verify`: None when one of its two assertions fails; otherwise
      the third intersection of the line with the curve, reflected. */
  function DoubleVerify(l: Line, t: Point): (r: Option<Point>)
    ensures r.Some? <==> OnLine(l, t) && IsTangentSlope(l.alpha, t)
    ensures r.Some? ==> r.value.x == l.alpha * l.alpha - 2 * t.x
    ensures r.Some? ==> r.value.y == l.alpha * (t.x - r.value.x) - t.y
  {
    if !OnLine(l, t) || !IsTangentSlope(l.alpha, t) then None
    else
      var x3 := l.alpha * l.alpha - 2 * t.x;
      Some(Point(x3, -(l.alpha * x3) - l.bias))
  }

  /** `addition_verify`: None when one of its two assertions fails; otherwise
      the third intersection of the chord with the curve, reflected. */
  function AdditionVerify(l: Line, r: Point, p: Point): (s: Option<Point>)
    ensures s.Some? <==> OnLine(l, r) && OnLine(l, p)
    ensures s.Some? ==> s.value.x == l.alpha * l.alpha - r.x - p.x
    ensures s.Some? ==> s.value.y == l.alpha * (r.x - s.value.x) - r.y
  {
    if !OnLine(l, r) || !OnLine(l, p) then None
    else
      var x3 := l.alpha * l.alpha - r.x - p.x;
      Some(Point(x3, -(l.alpha * x3) - l.bias))
  }

  /** The cubic (alpha X + bias)^2 - X^3 - b whose roots are the abscissae
      where the line meets the curve. */
  function Meet(l: Line, b: int, x: int): int {
    (l.alpha * x + l.bias) * (l.alpha * x + l.bias) - x * x * x - b
  }

  /** Taylor expansion of the cubic at x around t: the constant and linear
      terms are its value and slope at t, and the rest vanishes at
      s = alpha^2 - 2t. */
  lemma MeetAtDouble(l: Line, b: int, t: int, s: int)
    requires s == l.alpha * l.alpha - 2 * t
    ensures Meet(l, b, s) == Meet(l, b, t)
                             + (2 * l.alpha * (l.alpha * t + l.bias) - 3 * (t * t)) * (s - t)
  {
    var a, c := l.alpha, l.bias;
    var h := s - t;
    var lt := a * t + c;
    var ah := a * h;
    ShiftAt(a, c, t, s, h);
    SquareOfSumAt(a * s + c, lt, ah);
    SquareTerm(a, h, t, ah);
    CubeAt(s, t, h);
    SlopeTerm(a, lt, t, h, ah);
    TaylorCombine(Meet(l, b, s), Meet(l, b, t), (a * s + c) * (a * s + c), lt * lt, lt * ah, ah * ah,
                  s * s * s, t * t * t, (t * t) * h, t * (h * h), h * (h * h), b);
  }

  /** The linear bookkeeping of `MeetAtDouble`, every monomial named:
      sq = (alpha s + bias)^2, y = (alpha t + bias)(alpha h), z = (alpha h)^2,
      and the cube of s = t + h expanded. */
  lemma TaylorCombine(ms: int, mt: int, sq: int, lt2: int, y: int, z: int,
                      cube: int, t3: int, t2h: int, th2: int, h3: int, b: int)
    requires ms == sq - cube - b
    requires mt == lt2 - t3 - b
    requires sq == lt2 + 2 * y + z
    requires z == 3 * th2 + h3
    requires cube == t3 + 3 * t2h + 3 * th2 + h3
    ensures ms == mt + (2 * y - 3 * t2h)
  {
  }

  lemma ShiftAt(a: int, c: int, t: int, s: int, h: int)
    requires s == t + h
    ensures a * s + c == (a * t + c) + a * h
  {
  }

  lemma SquareOfSumAt(pq: int, p: int, q: int)
    requires pq == p + q
    ensures pq * pq == p * p + 2 * (p * q) + q * q
  {
    SquareOfSum(p, q);
  }

  /** With alpha^2 = 3t + h, (alpha h)^2 = 3 t h^2 + h^3. */
  lemma SquareTerm(a: int, h: int, t: int, ah: int)
    requires ah == a * h && a * a == 3 * t + h
    ensures ah * ah == 3 * (t * (h * h)) + h * (h * h)
  {
    SquareOfProduct(a, h);
    ScaleSum2(3 * t, h, h * h);
  }

  lemma CubeAt(s: int, t: int, h: int)
    requires s == t + h
    ensures s * s * s == t * t * t + 3 * ((t * t) * h) + 3 * (t * (h * h)) + h * (h * h)
  {
    CubeOfSum(t, h);
  }

  lemma SlopeTerm(a: int, lt: int, t: int, h: int, ah: int)
    requires ah == a * h
    ensures (2 * a * lt - 3 * (t * t)) * h == 2 * (lt * ah) - 3 * ((t * t) * h)
  {
  }

  lemma SquareOfProduct(a: int, h: int)
    ensures (a * h) * (a * h) == (a * a) * (h * h)
  {
  }

  lemma ScaleSum2(p: int, q: int, m: int)
    ensures (p + q) * m == p * m + q * m
  {
  }

  lemma ScaleSum3(p: int, q: int, r: int, m: int)
    ensures (p + q + r) * m == p * m + q * m + r * m
  {
  }

  lemma SquareOfSum(p: int, q: int)
    ensures (p + q) * (p + q) == p * p + 2 * p * q + q * q
  {
  }

  lemma CubeOfSum(t: int, h: int)
    ensures (t + h) * (t + h) * (t + h) == t * t * t + 3 * (t * t) * h + 3 * t * (h * h) + h * (h * h)
  {
    SquareOfSum(t, h);
    assert (t + h) * (t + h) * (t + h) == (t * t + 2 * t * h + h * h) * (t + h);
  }

  /** At a root x of a cubic whose roots sum to alpha^2 (the other two being
      y and z), the cubic agrees with the linear function that interpolates
      it: (2 alpha bias + xy + xz + yz) x + bias^2 - b - xyz. */
  lemma MeetAtRoot(l: Line, b: int, x: int, y: int, z: int)
    requires l.alpha * l.alpha == x + y + z
    ensures Meet(l, b, x) == (2 * l.alpha * l.bias + (x * y + x * z + y * z)) * x
                             + (l.bias * l.bias - b - x * y * z)
  {
    var a, c := l.alpha, l.bias;
    SquareOfSum(a * x, c);
    SquareOfProduct(a, x);
    ScaleSum3(x, y, z, x * x);
    ScaleSum2(2 * a * c, x * y + x * z + y * z, x);
    ScaleSum3(x * y, x * z, y * z, x);
    RootCombine(Meet(l, b, x), a, c, b, x, y, z);
  }

  /** The linear bookkeeping of `MeetAtRoot`, with every product named. */
  lemma RootCombine(m: int, a: int, c: int, b: int, x: int, y: int, z: int)
    requires m == (a * x + c) * (a * x + c) - x * x * x - b
    requires (a * x + c) * (a * x + c) == (a * x) * (a * x) + 2 * (a * x) * c + c * c
    requires (a * x) * (a * x) == (a * a) * (x * x)
    requires a * a == x + y + z
    requires (x + y + z) * (x * x) == x * (x * x) + y * (x * x) + z * (x * x)
    requires (2 * a * c + (x * y + x * z + y * z)) * x == (2 * a * c) * x + (x * y + x * z + y * z) * x
    requires (x * y + x * z + y * z) * x == (x * y) * x + (x * z) * x + (y * z) * x
    ensures m == (2 * a * c + (x * y + x * z + y * z)) * x + (c * c - b - x * y * z)
  {
  }

  /** Lagrange interpolation through the two known roots: for
      s = alpha^2 - x1 - x2, (x1 - x2) * cubic(s) = (s - x2) * cubic(x1)
      - (s - x1) * cubic(x2). */
  lemma MeetAtChord(l: Line, b: int, x1: int, x2: int, s: int)
    requires s == l.alpha * l.alpha - x1 - x2
    ensures (x1 - x2) * Meet(l, b, s) == (s - x2) * Meet(l, b, x1) - (s - x1) * Meet(l, b, x2)
  {
    var a, c := l.alpha, l.bias;
    // The cubic plus (X - x1)(X - x2)(X - s) has no X^3 or X^2 term, so at
    // the three roots it is the linear function u * X + v.
    var u := 2 * a * c + (x1 * x2 + x1 * s + x2 * s);
    var v := c * c - b - x1 * x2 * s;
    MeetAtRoot(l, b, x1, x2, s);
    MeetAtRoot(l, b, x2, x1, s);
    MeetAtRoot(l, b, s, x1, x2);
    assert x2 * x1 + x2 * s + x1 * s == x1 * x2 + x1 * s + x2 * s;
    assert s * x1 + s * x2 + x1 * x2 == x1 * x2 + x1 * s + x2 * s;
    assert x2 * x1 * s == x1 * x2 * s && s * x1 * x2 == x1 * x2 * s;
    Interpolate(u, v, x1, x2, s);
  }

  lemma Interpolate(u: int, v: int, x1: int, x2: int, s: int)
    ensures (x1 - x2) * (u * s + v) == (s - x2) * (u * x1 + v) - (s - x1) * (u * x2 + v)
  {
  }

  /** `double_verify` keeps the tracked point on the curve: its output is
      the chord-tangent double of t. */
  lemma DoubleVerifyOnCurve(l: Line, t: Point, b: int)
    requires OnCurve(t, b)
    requires DoubleVerify(l, t).Some?
    ensures OnCurve(DoubleVerify(l, t).value, b)
  {
    var s := DoubleVerify(l, t).value;
    MeetAtDouble(l, b, t.x, s.x);
    assert l.alpha * t.x + l.bias == t.y;
    assert Meet(l, b, t.x) == 0;
    assert 2 * l.alpha * (l.alpha * t.x + l.bias) - 3 * (t.x * t.x) == 0;
    assert s.y == -(l.alpha * s.x + l.bias);
    assert s.y * s.y == (l.alpha * s.x + l.bias) * (l.alpha * s.x + l.bias);
  }

  /** `addition_verify` keeps the tracked point on the curve when the two
      points it adds have different abscissae. */
  lemma AdditionVerifyOnCurve(l: Line, r: Point, p: Point, b: int)
    requires OnCurve(r, b) && OnCurve(p, b) && r.x != p.x
    requires AdditionVerify(l, r, p).Some?
    ensures OnCurve(AdditionVerify(l, r, p).value, b)
  {
    var s := AdditionVerify(l, r, p).value;
    MeetAtChord(l, b, r.x, p.x, s.x);
    assert l.alpha * r.x + l.bias == r.y;
    assert l.alpha * p.x + l.bias == p.y;
    assert Meet(l, b, r.x) == 0 && Meet(l, b, p.x) == 0;
    assert (r.x - p.x) * Meet(l, b, s.x) == 0;
    assert Meet(l, b, s.x) == 0;
    assert s.y == -(l.alpha * s.x + l.bias);
    assert s.y * s.y == (l.alpha * s.x + l.bias) * (l.alpha * s.x + l.bias);
  }

  /** Producer and checker agree: the lines `doubling_step` and
      `addition_step` compute pass the checks of `double_verify` and
      `addition_verify`. */
  lemma StepsPassVerify(t: Point, q: Point, tangent: int, chord: int)
    requires IsTangentSlope(tangent, t) && IsChordSlope(chord, t, q)
    ensures DoubleVerify(DoublingLine(t, tangent), t).Some?
    ensures AdditionVerify(AdditionLine(t, q, chord), t, q).Some?
  {
  }
}
