/** Curve25519 in projective u-coordinates: v^2 = u^3 + 486662 u^2 + u (section 4.1 of RFC 7748). */
module Curve {
  import opened Modular

  const A := 486662
  const BASE_U := 9

  /** A point by its u-coordinate x/z; z = 0 is the point at infinity. */
  datatype Point = Point(x: int, z: int)

  function Scale(c: int, p: Point): Point {
    Point(c * p.x, c * p.z)
  }

  function Double(p: Point): Point {
    var s := p.x * p.x - p.z * p.z;
    Point(s * s, 4 * (p.x * p.z) * (p.x * p.x + A * (p.x * p.z) + p.z * p.z))
  }

  /** The sum of two points whose difference has u-coordinate 9. */
  function DiffAdd(p: Point, q: Point): Point {
    var s, d := p.x * q.x - p.z * q.z, p.x * q.z - p.z * q.x;
    Point(4 * (s * s), 36 * (d * d))
  }

  /** The n-th multiple of the base point, by the doubling and differential-addition laws alone. */
  function Multiple(n: nat): Point {
    if n == 0 then Point(1, 0)
    else if n == 1 then Point(BASE_U, 1)
    else if n % 2 == 0 then Double(Multiple(n / 2))
    else DiffAdd(Multiple(n / 2), Multiple(n / 2 + 1))
  }

  lemma DiffAddCommutes(p: Point, q: Point)
    ensures DiffAdd(p, q) == DiffAdd(q, p)
  {
    var d, e := p.x * q.z - p.z * q.x, q.x * p.z - q.z * p.x;
    assert d == -e;
    assert d * d == e * e;
  }

  lemma Quadratic(c: int, a: int, b: int)
    ensures (c * a) * (c * b) == (c * c) * (a * b)
  {
    Regroup(c, a, c, b);
  }

  lemma DoubleIsHomogeneous(c: int, p: Point)
    ensures Double(Scale(c, p)) == Scale((c * c) * (c * c), Double(p))
  {
    var k := c * c;
    Quadratic(c, p.x, p.x);
    Quadratic(c, p.z, p.z);
    Quadratic(c, p.x, p.z);
    var s, t := p.x * p.x - p.z * p.z, p.x * p.x + A * (p.x * p.z) + p.z * p.z;
    var m := p.x * p.z;
    var q := Scale(c, p);
    assert q.x * q.x - q.z * q.z == k * s;
    assert q.x * q.x + A * (q.x * q.z) + q.z * q.z == k * t;
    Quadratic(k, s, s);
    Quadratic(k, m, t);
    assert 4 * (k * m) * (k * t) == 4 * ((k * m) * (k * t));
    assert 4 * ((k * k) * (m * t)) == (k * k) * (4 * m * t);
  }

  lemma DiffAddIsHomogeneous(c: int, p: Point, e: int, q: Point)
    ensures DiffAdd(Scale(c, p), Scale(e, q)) == Scale((c * e) * (c * e), DiffAdd(p, q))
  {
    var k := c * e;
    Regroup(c, p.x, e, q.x);
    Regroup(c, p.z, e, q.z);
    Regroup(c, p.x, e, q.z);
    Regroup(c, p.z, e, q.x);
    var s, d := p.x * q.x - p.z * q.z, p.x * q.z - p.z * q.x;
    var p', q' := Scale(c, p), Scale(e, q);
    assert p'.x * q'.x - p'.z * q'.z == k * s;
    assert p'.x * q'.z - p'.z * q'.x == k * d;
    Quadratic(k, s, s);
    Quadratic(k, d, d);
    assert 4 * ((k * k) * (s * s)) == (k * k) * (4 * (s * s));
    assert 36 * ((k * k) * (d * d)) == (k * k) * (36 * (d * d));
  }

  ghost predicate PointEq(p: Point, q: Point, m: int)
    requires m > 0
  {
    Eq(p.x, q.x, m) && Eq(p.z, q.z, m)
  }

  /** One round of the ladder after the conditional exchange, with every intermediate value reduced. */
  function LadderRound(p2: Point, p3: Point, m: int): (Point, Point)
    requires m > 0
  {
    var a, aa := (p2.x + p2.z) % m, (p2.x + p2.z) * (p2.x + p2.z) % m;
    var b, bb := (p2.x - p2.z) % m, (p2.x - p2.z) * (p2.x - p2.z) % m;
    var e, c, d := (aa - bb) % m, (p3.x + p3.z) % m, (p3.x - p3.z) % m;
    var da, cb := d * a % m, c * b % m;
    (Point(aa * bb % m, e * (aa + 121665 * e) % m),
     Point((da + cb) * (da + cb) % m, BASE_U * ((da - cb) * (da - cb)) % m))
  }

  lemma Squares(x: int, z: int)
    ensures (x + z) * (x + z) == x * x + 2 * (x * z) + z * z
    ensures (x - z) * (x - z) == x * x - 2 * (x * z) + z * z
    ensures (x + z) * (x - z) == x * x - z * z
  {
  }

  lemma RoundDoubles(p: Point, aa: int, bb: int, e: int, m: int)
    requires m > 0
    requires Eq(aa, (p.x + p.z) * (p.x + p.z), m) && Eq(bb, (p.x - p.z) * (p.x - p.z), m) && Eq(e, aa - bb, m)
    ensures Eq(aa * bb, Double(p).x, m)
    ensures Eq(e * (aa + 121665 * e), Double(p).z, m)
  {
    var xx, xz, zz := p.x * p.x, p.x * p.z, p.z * p.z;
    var sum, dif := xx + 2 * xz + zz, xx - 2 * xz + zz;
    Squares(p.x, p.z);
    EqProduct(aa, sum, bb, dif, m);
    Regroup(p.x + p.z, p.x + p.z, p.x - p.z, p.x - p.z);
    EqSum(aa, sum, bb, dif, m);
    RoundScales(e, aa, xx, xz, zz, m);
  }

  lemma RoundScales(e: int, aa: int, xx: int, xz: int, zz: int, m: int)
    requires m > 0 && Eq(e, 4 * xz, m) && Eq(aa, xx + 2 * xz + zz, m)
    ensures Eq(e * (aa + 121665 * e), 4 * xz * (xx + A * xz + zz), m)
  {
    EqProduct(121665, 121665, e, 4 * xz, m);
    EqSum(aa, xx + 2 * xz + zz, 121665 * e, 121665 * (4 * xz), m);
    EqProduct(e, 4 * xz, aa + 121665 * e, xx + A * xz + zz, m);
  }

  lemma CrossProducts(a: int, b: int, c: int, d: int)
    ensures (a - b) * (c + d) == c * a - d * b - (c * b - d * a)
    ensures (a + b) * (c - d) == c * a - d * b + (c * b - d * a)
  {
  }

  lemma SquareOfDouble(u: int, s: int, m: int)
    requires m > 0 && Eq(u, 2 * s, m)
    ensures Eq(u * u, 4 * (s * s), m)
  {
    Quadratic(2, s, s);
    EqProduct(u, 2 * s, u, 2 * s, m);
  }

  lemma RoundAdds(p: Point, q: Point, da: int, cb: int, m: int)
    requires m > 0
    requires Eq(da, (q.x - q.z) * (p.x + p.z), m) && Eq(cb, (q.x + q.z) * (p.x - p.z), m)
    ensures Eq((da + cb) * (da + cb), DiffAdd(p, q).x, m)
    ensures Eq(BASE_U * ((da - cb) * (da - cb)), DiffAdd(p, q).z, m)
  {
    var s, d := p.x * q.x - p.z * q.z, p.x * q.z - p.z * q.x;
    CrossProducts(q.x, q.z, p.x, p.z);
    EqSum(cb, (q.x + q.z) * (p.x - p.z), da, (q.x - q.z) * (p.x + p.z), m);
    SquareOfDouble(da + cb, s, m);
    SquareOfDouble(cb - da, d, m);
    NegatedSquare(cb - da);
    var dd := (da - cb) * (da - cb);
    EqProduct(BASE_U, BASE_U, dd, 4 * (d * d), m);
  }

  lemma NegatedSquare(d: int)
    ensures (-d) * (-d) == d * d
  {
  }

  /** The reduced locals of a round are the doubling and the differential sum, modulo m. */
  lemma RoundIsCurveArithmetic(p2: Point, p3: Point, m: int)
    requires m > 0
    ensures var (q2, q3) := LadderRound(p2, p3, m);
            PointEq(q2, Double(p2), m) && PointEq(q3, DiffAdd(p2, p3), m)
  {
    var sum, dif := p2.x + p2.z, p2.x - p2.z;
    var aa, bb := sum * sum % m, dif * dif % m;
    Reduce(sum * sum, m);
    Reduce(dif * dif, m);
    var e := (aa - bb) % m;
    Reduce(aa - bb, m);
    RoundDoubles(p2, aa, bb, e, m);
    Reduce(aa * bb, m);
    Reduce(e * (aa + 121665 * e), m);

    var a, b, c, d := sum % m, dif % m, (p3.x + p3.z) % m, (p3.x - p3.z) % m;
    Reduce(sum, m);
    Reduce(dif, m);
    Reduce(p3.x + p3.z, m);
    Reduce(p3.x - p3.z, m);
    EqProduct(d, p3.x - p3.z, a, sum, m);
    EqProduct(c, p3.x + p3.z, b, dif, m);
    var da, cb := d * a % m, c * b % m;
    Reduce(d * a, m);
    Reduce(c * b, m);
    RoundAdds(p2, p3, da, cb, m);
    Reduce((da + cb) * (da + cb), m);
    Reduce(BASE_U * ((da - cb) * (da - cb)), m);
  }

  // ---- equality of projective points: a common factor that has an inverse

  ghost predicate Inverse(c: int, d: int, m: int)
    requires m > 0
  {
    Eq(c * d, 1, m)
  }

  ghost predicate Similar(p: Point, q: Point, m: int)
    requires m > 0
  {
    exists c, d :: Inverse(c, d, m) && PointEq(p, Scale(c, q), m)
  }

  lemma SimilarRefl(p: Point, m: int)
    requires m > 0
    ensures Similar(p, p, m)
  {
    assert Scale(1, p) == p;
    assert Inverse(1, 1, m) && PointEq(p, Scale(1, p), m);
  }

  lemma InverseProduct(c: int, d: int, e: int, f: int, m: int)
    requires m > 0 && Inverse(c, d, m) && Inverse(e, f, m)
    ensures Inverse(c * e, d * f, m)
  {
    EqProduct(c * d, 1, e * f, 1, m);
    Regroup(c, d, e, f);
  }

  lemma DoubleRespectsEq(p: Point, q: Point, m: int)
    requires m > 0 && PointEq(p, q, m)
    ensures PointEq(Double(p), Double(q), m)
  {
    EqProduct(p.x, q.x, p.x, q.x, m);
    EqProduct(p.z, q.z, p.z, q.z, m);
    EqProduct(p.x, q.x, p.z, q.z, m);
    var s, s' := p.x * p.x - p.z * p.z, q.x * q.x - q.z * q.z;
    EqSum(p.x * p.x, q.x * q.x, p.z * p.z, q.z * q.z, m);
    EqProduct(s, s', s, s', m);
    var w, w' := p.x * p.z, q.x * q.z;
    EqProduct(A, A, w, w', m);
    EqSum(p.x * p.x, q.x * q.x, A * w, A * w', m);
    EqSum(p.x * p.x + A * w, q.x * q.x + A * w', p.z * p.z, q.z * q.z, m);
    EqProduct(4, 4, w, w', m);
    EqProduct(4 * w, 4 * w', p.x * p.x + A * w + p.z * p.z, q.x * q.x + A * w' + q.z * q.z, m);
  }

  lemma DiffAddRespectsEq(p: Point, p': Point, q: Point, q': Point, m: int)
    requires m > 0 && PointEq(p, p', m) && PointEq(q, q', m)
    ensures PointEq(DiffAdd(p, q), DiffAdd(p', q'), m)
  {
    EqProduct(p.x, p'.x, q.x, q'.x, m);
    EqProduct(p.z, p'.z, q.z, q'.z, m);
    EqProduct(p.x, p'.x, q.z, q'.z, m);
    EqProduct(p.z, p'.z, q.x, q'.x, m);
    EqSum(p.x * q.x, p'.x * q'.x, p.z * q.z, p'.z * q'.z, m);
    EqSum(p.x * q.z, p'.x * q'.z, p.z * q.x, p'.z * q'.x, m);
    var s, s' := p.x * q.x - p.z * q.z, p'.x * q'.x - p'.z * q'.z;
    var d, d' := p.x * q.z - p.z * q.x, p'.x * q'.z - p'.z * q'.x;
    EqProduct(s, s', s, s', m);
    EqProduct(d, d', d, d', m);
    EqProduct(4, 4, s * s, s' * s', m);
    EqProduct(36, 36, d * d, d' * d', m);
  }

  lemma DoubleRespectsSimilar(p: Point, q: Point, m: int)
    requires m > 0 && Similar(p, q, m)
    ensures Similar(Double(p), Double(q), m)
  {
    var c, d :| Inverse(c, d, m) && PointEq(p, Scale(c, q), m);
    InverseProduct(c, d, c, d, m);
    InverseProduct(c * c, d * d, c * c, d * d, m);
    DoubleRespectsEq(p, Scale(c, q), m);
    DoubleIsHomogeneous(c, q);
  }

  lemma DiffAddRespectsSimilar(p: Point, p': Point, q: Point, q': Point, m: int)
    requires m > 0 && Similar(p, p', m) && Similar(q, q', m)
    ensures Similar(DiffAdd(p, q), DiffAdd(p', q'), m)
  {
    var c, d :| Inverse(c, d, m) && PointEq(p, Scale(c, p'), m);
    var e, f :| Inverse(e, f, m) && PointEq(q, Scale(e, q'), m);
    InverseProduct(c, d, e, f, m);
    InverseProduct(c * e, d * f, c * e, d * f, m);
    DiffAddRespectsEq(p, Scale(c, p'), q, Scale(e, q'), m);
    DiffAddIsHomogeneous(c, p', e, q');
  }

  lemma SimilarAfterEq(p: Point, q: Point, r: Point, m: int)
    requires m > 0 && PointEq(p, q, m) && Similar(q, r, m)
    ensures Similar(p, r, m)
  {
    var c, d :| Inverse(c, d, m) && PointEq(q, Scale(c, r), m);
    assert PointEq(p, Scale(c, r), m);
  }

  lemma SimilarTrans(p: Point, q: Point, r: Point, m: int)
    requires m > 0 && Similar(p, q, m) && Similar(q, r, m)
    ensures Similar(p, r, m)
  {
    var c, d :| Inverse(c, d, m) && PointEq(p, Scale(c, q), m);
    var e, f :| Inverse(e, f, m) && PointEq(q, Scale(e, r), m);
    InverseProduct(c, d, e, f, m);
    hide Inverse;
    ScaledTwice(p, q, r, c, e, m);
  }

  lemma ScaledTwice(p: Point, q: Point, r: Point, c: int, e: int, m: int)
    requires m > 0 && PointEq(p, Scale(c, q), m) && PointEq(q, Scale(e, r), m)
    ensures PointEq(p, Scale(c * e, r), m)
  {
    EqProduct(c, c, q.x, e * r.x, m);
    EqProduct(c, c, q.z, e * r.z, m);
    Associate(c, e, r.x);
    Associate(c, e, r.z);
  }

  lemma Associate(a: int, b: int, c: int)
    ensures a * (b * c) == (a * b) * c
  {
  }

  // ---- the ladder

  /** The loop holds multiples n and n+1 of the base point, exchanged exactly when a swap is pending. */
  ghost predicate Tracks(p2: Point, p3: Point, swap: int, n: nat, m: int)
    requires m > 0
  {
    && 0 <= swap <= 1
    && Similar(if swap == 0 then p2 else p3, Multiple(n), m)
    && Similar(if swap == 0 then p3 else p2, Multiple(n + 1), m)
  }

  lemma DoubledMultiple(n: nat)
    ensures Multiple(2 * n) == Double(Multiple(n))
  {
    if n == 0 {
      assert Double(Point(1, 0)) == Point(1, 0);
    } else {
      assert (2 * n) / 2 == n;
    }
  }

  /** The first differential addition recomputes the base point with a factor 36. */
  lemma OddMultiple(n: nat, k: int, m: int)
    requires m > 0 && Inverse(36, k, m)
    ensures Similar(DiffAdd(Multiple(n), Multiple(n + 1)), Multiple(2 * n + 1), m)
  {
    if n == 0 {
      assert DiffAdd(Point(1, 0), Point(BASE_U, 1)) == Scale(36, Point(BASE_U, 1));
      assert Multiple(0) == Point(1, 0) && Multiple(1) == Point(BASE_U, 1);
      assert PointEq(Scale(36, Multiple(1)), Scale(36, Multiple(1)), m);
    } else {
      assert (2 * n + 1) / 2 == n;
      SimilarRefl(Multiple(2 * n + 1), m);
    }
  }

  lemma RoundOnMultiples(q2: Point, q3: Point, p2: Point, p3: Point, m: int)
    requires m > 0 && Similar(q2, p2, m) && Similar(q3, p3, m)
    ensures var (r2, r3) := LadderRound(q2, q3, m);
            Similar(r2, Double(p2), m) && Similar(r3, DiffAdd(p2, p3), m)
  {
    var (r2, r3) := LadderRound(q2, q3, m);
    RoundIsCurveArithmetic(q2, q3, m);
    DoubleRespectsSimilar(q2, p2, m);
    SimilarAfterEq(r2, Double(q2), Double(p2), m);
    DiffAddRespectsSimilar(q2, p2, q3, p3, m);
    SimilarAfterEq(r3, DiffAdd(q2, q3), DiffAdd(p2, p3), m);
  }

  lemma RoundAdvances(q2: Point, q3: Point, n: nat, bit: int, k: int, m: int)
    requires m > 0 && Inverse(36, k, m) && 0 <= bit <= 1
    requires Similar(q2, Multiple(n + bit), m) && Similar(q3, Multiple(n + 1 - bit), m)
    ensures var (r2, r3) := LadderRound(q2, q3, m);
            Similar(r2, Multiple(2 * (n + bit)), m) && Similar(r3, Multiple(2 * n + 1), m)
  {
    var a, b, r := Multiple(n + bit), Multiple(n + 1 - bit), LadderRound(q2, q3, m);
    RoundOnMultiples(q2, q3, a, b, m);
    DoubledMultiple(n + bit);
    DiffAddCommutes(a, b);
    OddMultiple(n, k, m);
    SimilarTrans(r.1, DiffAdd(a, b), Multiple(2 * n + 1), m);
  }

  /** Consuming one more bit of the scalar, from the most significant end. */
  lemma RoundTracks(p2: Point, p3: Point, swap: int, n: nat, bit: int, k: int, m: int)
    requires m > 0 && Inverse(36, k, m)
    requires Tracks(p2, p3, swap, n, m) && 0 <= bit <= 1
    ensures var (q2, q3) := if swap != bit then (p3, p2) else (p2, p3);
            var (r2, r3) := LadderRound(q2, q3, m);
            Tracks(r2, r3, bit, 2 * n + bit, m)
  {
    var (q2, q3) := if swap != bit then (p3, p2) else (p2, p3);
    RoundAdvances(q2, q3, n, bit, k, m);
  }

  /** Points that are equal projectively have the same affine coordinate. */
  lemma SimilarPointsDivideAlike(p: Point, q: Point, m: int)
    requires Prime(m) && m > 2 && Similar(p, q, m)
    ensures Divide(p.x, p.z, m) == Divide(q.x, q.z, m)
  {
    var c, d :| Inverse(c, d, m) && PointEq(p, Scale(c, q), m);
    if c % m == 0 {
      EqProduct(c, 0, d, d, m);
      ReducedIsSelf(1, m);
      ReducedIsSelf(0, m);
      assert false;
    }
    DivideRespectsEq(p.x, c * q.x, p.z, c * q.z, m);
    DivideIgnoresScaling(q.x, q.z, c, m);
  }
}
