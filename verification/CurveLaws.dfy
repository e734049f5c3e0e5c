/** The ladder's two formulas are the chord-and-tangent laws of the curve, in u-coordinates. */
module CurveLaws {
  import opened Modular
  import opened Curve

  function Cubic(u: int): int {
    u * u * u + A * (u * u) + u
  }

  ghost predicate OnCurve(u: int, v: int, m: int)
    requires m > 0
  {
    Eq(v * v, Cubic(u), m)
  }

  /** u-coordinate of the third intersection of a line of slope l through points with the given u-coordinates. */
  function ThirdU(l: int, u1: int, u2: int): int {
    l * l - (A + u1 + u2)
  }

  ghost predicate AffineU(p: Point, u: int, m: int)
    requires m > 0
  {
    Eq(p.x, u * p.z, m)
  }

  // ---- doubling

  lemma ExpandSquare(s: int, a: int)
    ensures (3 * s + 2 * a + 1) * (3 * s + 2 * a + 1) == 9 * (s * s) + 4 * (a * a) + 1 + 12 * (s * a) + 6 * s + 4 * a
  {
  }

  lemma ExpandProduct(s: int, a: int)
    ensures (s + a + 1) * (a + 2 * s) == 2 * (s * s) + a * a + 3 * (s * a) + a + 2 * s
  {
  }

  /** The identity in s = u * u and a = A * u. */
  lemma TangentPolynomial(s: int, a: int)
    ensures (3 * s + 2 * a + 1) * (3 * s + 2 * a + 1) - 4 * ((s + a + 1) * (a + 2 * s)) == (s - 1) * (s - 1)
  {
    ExpandSquare(s, a);
    ExpandProduct(s, a);
    Distribute(s - 1, s, 1);
  }

  lemma TangentIdentity(u: int)
    ensures var t := 3 * (u * u) + 2 * A * u + 1;
            t * t - 4 * Cubic(u) * (A + 2 * u) == (u * u - 1) * (u * u - 1)
  {
    var s, a := u * u, A * u;
    assert Cubic(u) == (s + a + 1) * u;
    assert u * (A + 2 * u) == a + 2 * s;
    Exchange(s + a + 1, u, A + 2 * u);
    TangentPolynomial(s, a);
  }

  lemma DoubledSquare(v: int, l: int)
    ensures (2 * v * l) * (2 * v * l) == 4 * ((v * v) * (l * l))
  {
    Regroup(v, l, v, l);
    assert (2 * v * l) * (2 * v * l) == 4 * ((v * l) * (v * l));
  }

  /** The tangent's slope l at (u, v): the doubled point has u-coordinate l^2 - A - 2u. */
  lemma AffineDoubling(u: int, v: int, l: int, m: int)
    requires m > 0 && OnCurve(u, v, m)
    requires Eq(2 * v * l, 3 * (u * u) + 2 * A * u + 1, m)
    ensures AffineU(Double(Point(u, 1)), ThirdU(l, u, u), m)
  {
    var t, c := 3 * (u * u) + 2 * A * u + 1, Cubic(u);
    EqProduct(2 * v * l, t, 2 * v * l, t, m);
    DoubledSquare(v, l);
    EqProduct(v * v, c, l * l, l * l, m);
    EqProduct(4, 4, (v * v) * (l * l), c * (l * l), m);
    EqSum(4 * (c * (l * l)), t * t, 4 * c * (A + 2 * u), 4 * c * (A + 2 * u), m);
    TangentIdentity(u);
    assert ThirdU(l, u, u) * (4 * c) == 4 * (c * (l * l)) - 4 * c * (A + 2 * u);
    DoubleOfAffine(u);
  }

  lemma DoubleOfAffine(u: int)
    ensures Double(Point(u, 1)) == Point((u * u - 1) * (u * u - 1), 4 * Cubic(u))
  {
    assert 4 * u * (u * u + A * u + 1) == 4 * (u * (u * u) + u * (A * u) + u);
    assert u * (A * u) == A * (u * u);
  }

  lemma AffineUOfScaled(p: Point, c: int, q: Point, u: int, m: int)
    requires m > 0 && PointEq(p, Scale(c, q), m) && AffineU(q, u, m)
    ensures AffineU(p, u, m)
  {
    EqProduct(c, c, q.x, u * q.z, m);
    EqProduct(u, u, p.z, c * q.z, m);
    assert c * (u * q.z) == u * (c * q.z);
  }

  /** Doubling law: for any projective form of u, the round's first result has the tangent's u-coordinate. */
  lemma DoublingLaw(p: Point, u: int, v: int, l: int, m: int)
    requires m > 0 && OnCurve(u, v, m) && AffineU(p, u, m)
    requires Eq(2 * v * l, 3 * (u * u) + 2 * A * u + 1, m)
    ensures AffineU(Double(p), ThirdU(l, u, u), m)
  {
    var q, c := Point(u, 1), p.z;
    assert c * u == u * c;
    assert PointEq(p, Scale(c, q), m);
    AffineDoubling(u, v, l, m);
    DoubleRespectsEq(p, Scale(c, q), m);
    DoubleIsHomogeneous(c, q);
    AffineUOfScaled(Double(p), (c * c) * (c * c), Double(q), ThirdU(l, u, u), m);
  }

  // ---- differential addition

  lemma SquareOfSum(a: int, b: int)
    ensures (a + b) * (a + b) == a * a + 2 * (a * b) + b * b
  {
  }

  lemma Distribute(a: int, b: int, c: int)
    ensures a * (b + c) == a * b + a * c
    ensures a * (b - c) == a * b - a * c
  {
  }

  lemma Exchange(a: int, b: int, c: int)
    ensures a * (b * c) == (a * b) * c == b * (a * c)
  {
  }

  /** With s, n for the sum and product of two u-coordinates and t = A + s, the chord identity has three variables. */
  lemma ChordIdentity(s: int, n: int, t: int, k: int, c: int)
    requires k == s * t + (1 - n) && c == (s * s) * t - n * (2 * t + s) + s
    ensures k * k - 2 * (t * c) + (t * t) * (s * s - 4 * n) == (n - 1) * (n - 1)
  {
    var st, ttn := s * t, (t * t) * n;
    ChordTimesT(s, n, t);
    assert (t * t) * (s * s - 4 * n) == st * st - 4 * ttn by {
      Distribute(t * t, s * s, 4 * n);
      Regroup(s, t, s, t);
      Exchange(t * t, 4, n);
    }
    assert k * k == st * st + 2 * (st - st * n) + (n - 1) * (n - 1) by {
      SquareOfSum(st, 1 - n);
      Distribute(st, 1, n);
    }
  }

  lemma ChordTimesT(s: int, n: int, t: int)
    ensures t * ((s * s) * t - n * (2 * t + s) + s) == (s * t) * (s * t) - 2 * ((t * t) * n) - (s * t) * n + s * t
  {
    var ss := s * s;
    Distribute(t, ss * t - n * (2 * t + s), s);
    Distribute(t, ss * t, n * (2 * t + s));
    Exchange(t, ss, t);
    Regroup(s, t, s, t);
    Exchange(t, n, 2 * t + s);
    Distribute(t * n, 2 * t, s);
    Exchange(t * n, 2, t);
    Exchange(t, n, t);
    Exchange(n, t, t);
    Exchange(n, t, s);
  }

  lemma Cube(a: int, b: int)
    ensures (a + b) * (a + b) * (a + b) == a * a * a + 3 * (a * b * (a + b)) + b * b * b
  {
    var q := a * b;
    SquareOfSum(a, b);
    assert (a * a + 2 * q + b * b) * (a + b) == a * a * a + b * b * b + 2 * (q * (a + b)) + (a * a * b + b * b * a);
    assert a * a * b == q * a && b * b * a == q * b;
  }

  lemma CubicSum(u1: int, u2: int)
    ensures var s, n := u1 + u2, u1 * u2;
            Cubic(u1) + Cubic(u2) == (s * s) * (A + s) - n * (2 * (A + s) + s) + s
  {
    var s, n := u1 + u2, u1 * u2;
    Cube(u1, u2);
    SquareOfSum(u1, u2);
    assert (s * s) * (A + s) == A * (s * s) + s * s * s;
    assert n * (2 * (A + s) + s) == 2 * A * n + 3 * (n * s);
  }

  lemma CubicDifference(u1: int, u2: int)
    ensures var s, n := u1 + u2, u1 * u2;
            Cubic(u2) - Cubic(u1) == (u2 - u1) * (s * (A + s) + 1 - n)
  {
    var s, n, e := u1 + u2, u1 * u2, u2 - u1;
    SquareOfSum(u1, u2);
    assert s * (A + s) == A * s + s * s;
    assert e * (A * s + (s * s - n) + 1) == A * (e * s) + e * (s * s - n) + e;
    assert e * s == u2 * u2 - u1 * u1;
    DifferenceOfCubes(u1, u2);
  }

  lemma DifferenceOfCubes(a: int, b: int)
    ensures (b - a) * (a * a + a * b + b * b) == b * b * b - a * a * a
  {
  }

  lemma SquaredDifference(u1: int, u2: int)
    ensures var s, n := u1 + u2, u1 * u2;
            (u2 - u1) * (u2 - u1) == s * s - 4 * n
  {
  }

  /** Squaring a chord's slope equation removes the division. */
  lemma SlopeSquared(l: int, d: int, w: int, t: int, m: int)
    requires m > 0 && Eq(l * d, w, m)
    ensures Eq((d * d) * (l * l - t), w * w - t * (d * d), m)
  {
    EqProduct(l * d, w, l * d, w, m);
    Regroup(l, d, l, d);
    assert (d * d) * (l * l - t) == (l * l) * (d * d) - t * (d * d);
    EqSum((l * l) * (d * d), w * w, t * (d * d), t * (d * d), m);
  }

  lemma ProductOfConjugates(v1: int, v2: int, r: int)
    ensures ((v2 - v1) * (v2 - v1) - r) * ((-v2 - v1) * (-v2 - v1) - r)
         == (v2 * v2 - v1 * v1) * (v2 * v2 - v1 * v1) - 2 * r * (v1 * v1 + v2 * v2) + r * r
  {
    var a, b, n := v1 * v1, v2 * v2, v1 * v2;
    assert (v2 - v1) * (v2 - v1) == a + b - 2 * n;
    assert (-v2 - v1) * (-v2 - v1) == a + b + 2 * n;
    var x := a + b - r;
    assert (x - 2 * n) * (x + 2 * n) == x * x - 4 * (n * n);
    assert n * n == a * b by { Regroup(v1, v2, v1, v2); }
    assert x * x == (a + b) * (a + b) - 2 * r * (a + b) + r * r;
    assert (a + b) * (a + b) - 4 * (a * b) == (b - a) * (b - a);
  }

  /** Replacing v^2 by the cubic leaves (u2-u1)^2 (u1 u2 - 1)^2. */
  lemma ChordOnCurve(u1: int, v1: int, u2: int, v2: int, m: int)
    requires m > 0 && OnCurve(u1, v1, m) && OnCurve(u2, v2, m)
    ensures var d, t := (u2 - u1) * (u2 - u1), A + (u1 + u2);
            Eq((v2 * v2 - v1 * v1) * (v2 * v2 - v1 * v1) - 2 * (t * d) * (v1 * v1 + v2 * v2) + (t * d) * (t * d),
               ((u1 * u2 - 1) * (u1 * u2 - 1)) * d, m)
  {
    var e := u2 - u1;
    var s, n, t, d := u1 + u2, u1 * u2, A + (u1 + u2), e * e;
    var k, c := s * t + (1 - n), (s * s) * t - n * (2 * t + s) + s;
    CubicSum(u1, u2);
    CubicDifference(u1, u2);
    SquaredDifference(u1, u2);
    EqSum(v2 * v2, Cubic(u2), v1 * v1, Cubic(u1), m);
    EqSum(v1 * v1, Cubic(u1), v2 * v2, Cubic(u2), m);
    var f, g := v2 * v2 - v1 * v1, v1 * v1 + v2 * v2;
    EqProduct(f, e * k, f, e * k, m);
    EqProduct(2 * (t * d), 2 * (t * d), g, c, m);
    EqSum(f * f, (e * k) * (e * k), 2 * (t * d) * g, 2 * (t * d) * c, m);
    EqSum(f * f - 2 * (t * d) * g, (e * k) * (e * k) - 2 * (t * d) * c, (t * d) * (t * d), (t * d) * (t * d), m);
    ChordIdentity(s, n, t, k, c);
    Regroup(e, k, e, k);
    Regroup(t, d, t, d);
    CollectFactor(k * k, t, c, d, (n - 1) * (n - 1));
  }

  lemma CollectFactor(kk: int, t: int, c: int, d: int, r: int)
    requires kk - 2 * (t * c) + (t * t) * d == r
    ensures d * kk - 2 * (t * d) * c + (t * t) * (d * d) == r * d
  {
    Distribute(d, kk - 2 * (t * c), (t * t) * d);
    Distribute(d, kk, 2 * (t * c));
    Exchange(t, d, c);
    Exchange(d, t, c);
    Exchange(d, t * t, d);
  }

  /** The u-coordinates of the third points of both chords, multiplied. */
  lemma ProductOfThirds(u1: int, v1: int, u2: int, v2: int, l: int, l': int, m: int)
    requires m > 0 && OnCurve(u1, v1, m) && OnCurve(u2, v2, m)
    requires Eq(l * (u2 - u1), v2 - v1, m) && Eq(l' * (u2 - u1), -v2 - v1, m)
    ensures var d := (u2 - u1) * (u2 - u1);
            Eq((d * ThirdU(l, u1, u2)) * (d * ThirdU(l', u1, u2)), ((u1 * u2 - 1) * (u1 * u2 - 1)) * d, m)
  {
    var e := u2 - u1;
    var d, t := e * e, A + u1 + u2;
    var u3, u4 := ThirdU(l, u1, u2), ThirdU(l', u1, u2);
    SlopeSquared(l, e, v2 - v1, t, m);
    SlopeSquared(l', e, -v2 - v1, t, m);
    EqProduct(d * u3, (v2 - v1) * (v2 - v1) - t * d, d * u4, (-v2 - v1) * (-v2 - v1) - t * d, m);
    ProductOfConjugates(v1, v2, t * d);
    ChordOnCurve(u1, v1, u2, v2, m);
  }

  /** The common factor, which is a nonzero square, cancels. */
  lemma CancelSquare(e: int, u3: int, u4: int, r: int, m: int)
    requires Prime(m) && e % m != 0 && Eq(u4, BASE_U, m)
    requires Eq((e * e * u3) * (e * e * u4), r * (e * e), m)
    ensures Eq(e * e * u3 * BASE_U, r, m)
  {
    var d := e * e;
    var x := d * u3;
    EqProduct(x * d, x * d, u4, BASE_U, m);
    Exchange(x, d, u4);
    Exchange(x, d, BASE_U);
    if d % m == 0 {
      Euclid(m, e, e);
      assert false;
    }
    Cancel(m, x * BASE_U, r, d);
  }

  lemma AffineAddition(u1: int, v1: int, u2: int, v2: int, l: int, l': int, m: int)
    requires Prime(m) && OnCurve(u1, v1, m) && OnCurve(u2, v2, m) && (u2 - u1) % m != 0
    requires Eq(l * (u2 - u1), v2 - v1, m) && Eq(l' * (u2 - u1), -v2 - v1, m)
    requires Eq(ThirdU(l', u1, u2), BASE_U, m)
    ensures AffineU(DiffAdd(Point(u1, 1), Point(u2, 1)), ThirdU(l, u1, u2), m)
  {
    var e, u3, r := u2 - u1, ThirdU(l, u1, u2), (u1 * u2 - 1) * (u1 * u2 - 1);
    ProductOfThirds(u1, v1, u2, v2, l, l', m);
    CancelSquare(e, u3, ThirdU(l', u1, u2), r, m);
    hide ThirdU, OnCurve, Prime;
    EqProduct(4, 4, e * e * u3 * BASE_U, r, m);
    var d := e * e;
    assert 4 * (d * u3 * BASE_U) == u3 * (36 * d);
    SumOfAffine(u1, u2);
  }

  lemma SumOfAffine(u1: int, u2: int)
    ensures var sum, d := DiffAdd(Point(u1, 1), Point(u2, 1)), (u2 - u1) * (u2 - u1);
            sum.x == 4 * ((u1 * u2 - 1) * (u1 * u2 - 1)) && sum.z == 36 * d
  {
    assert (u1 - u2) * (u1 - u2) == (u2 - u1) * (u2 - u1);
  }

  /**
   * Differential-addition law: l and l' are the slopes of the chords from P to Q and from P to -Q,
   * so their third intersections are P+Q and P-Q; when u(P-Q) is 9, the round's second result is u(P+Q).
   */
  lemma AdditionLaw(p: Point, u1: int, v1: int, q: Point, u2: int, v2: int, l: int, l': int, m: int)
    requires Prime(m) && OnCurve(u1, v1, m) && OnCurve(u2, v2, m) && (u2 - u1) % m != 0
    requires AffineU(p, u1, m) && AffineU(q, u2, m)
    requires Eq(l * (u2 - u1), v2 - v1, m) && Eq(l' * (u2 - u1), -v2 - v1, m)
    requires Eq(ThirdU(l', u1, u2), BASE_U, m)
    ensures AffineU(DiffAdd(p, q), ThirdU(l, u1, u2), m)
  {
    var p1, q1, c, e := Point(u1, 1), Point(u2, 1), p.z, q.z;
    assert c * u1 == u1 * c && e * u2 == u2 * e;
    assert PointEq(p, Scale(c, p1), m) && PointEq(q, Scale(e, q1), m);
    AffineAddition(u1, v1, u2, v2, l, l', m);
    DiffAddRespectsEq(p, Scale(c, p1), q, Scale(e, q1), m);
    DiffAddIsHomogeneous(c, p1, e, q1);
    AffineUOfScaled(DiffAdd(p, q), (c * e) * (c * e), DiffAdd(p1, q1), ThirdU(l, u1, u2), m);
  }
}
