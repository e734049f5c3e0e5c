/** Arithmetic modulo m: congruence, Euclid's lemma, Fermat's little theorem and square-and-multiply. */
module Modular {

  /** Congruence modulo m, stated so that it is an equivalence by construction. */
  ghost predicate Eq(a: int, b: int, m: int)
    requires m > 0
  {
    a % m == b % m
  }

  lemma Regroup(a: int, b: int, c: int, d: int)
    ensures (a * b) * (c * d) == (a * c) * (b * d)
  {
    assert (a * b) * (c * d) == a * (b * (c * d));
    assert b * (c * d) == c * (b * d);
  }

  lemma Rotate(a: int, b: int, c: int)
    ensures (a * b) * c == a * (c * b)
  {
  }

  lemma MultipleIsFar(d: int, m: int)
    requires m > 0
    ensures d >= 1 ==> d * m >= m
    ensures d <= -1 ==> d * m <= -m
  {
  }

  lemma DivisionIsUnique(x: int, q: int, r: int, m: int)
    requires 0 <= r < m && x == q * m + r
    ensures x % m == r && x / m == q
  {
    var d := q - x / m;
    assert d * m == x % m - r;
    MultipleIsFar(d, m);
  }

  lemma ReducedIsSelf(x: int, m: int)
    requires 0 <= x < m
    ensures x % m == x
  {
    DivisionIsUnique(x, 0, x, m);
  }

  lemma AddMultiple(y: int, k: int, m: int)
    requires m > 0
    ensures (y + k * m) % m == y % m
  {
    assert y + k * m == (y / m + k) * m + y % m;
    DivisionIsUnique(y + k * m, y / m + k, y % m, m);
  }

  /** A congruence hands out the multiple of m that separates its two sides. */
  lemma Quotient(a: int, b: int, m: int) returns (k: int)
    requires m > 0 && Eq(a, b, m)
    ensures a == b + k * m
  {
    k := a / m - b / m;
    assert a == (a / m) * m + a % m;
    assert b == (b / m) * m + b % m;
  }

  lemma FromQuotient(a: int, b: int, k: int, m: int)
    requires m > 0 && a == b + k * m
    ensures Eq(a, b, m)
  {
    AddMultiple(b, k, m);
  }

  lemma Reduce(a: int, m: int)
    requires m > 0
    ensures Eq(a % m, a, m)
  {
    FromQuotient(a % m, a, -(a / m), m);
  }

  lemma EqSum(a: int, a': int, b: int, b': int, m: int)
    requires m > 0 && Eq(a, a', m) && Eq(b, b', m)
    ensures Eq(a + b, a' + b', m)
    ensures Eq(a - b, a' - b', m)
  {
    var k := Quotient(a, a', m);
    var l := Quotient(b, b', m);
    FromQuotient(a + b, a' + b', k + l, m);
    FromQuotient(a - b, a' - b', k - l, m);
  }

  lemma ProductOfOffsets(a: int, k: int, b: int, l: int, m: int)
    ensures (a + k * m) * (b + l * m) == a * b + (a * l + k * b + k * l * m) * m
  {
    var x, y := k * m, l * m;
    assert (a + x) * (b + y) == a * b + a * y + x * b + x * y;
    assert a * y == (a * l) * m && x * b == (k * b) * m && x * y == (k * l * m) * m;
  }

  lemma EqProduct(a: int, a': int, b: int, b': int, m: int)
    requires m > 0 && Eq(a, a', m) && Eq(b, b', m)
    ensures Eq(a * b, a' * b', m)
  {
    var k := Quotient(a, a', m);
    var l := Quotient(b, b', m);
    ProductOfOffsets(a', k, b', l, m);
    FromQuotient(a * b, a' * b', a' * l + k * b' + k * l * m, m);
  }

  // ---- primes

  ghost predicate Prime(p: int) {
    p > 1 && forall d :: 1 < d < p ==> p % d != 0
  }

  lemma {:induction false} EuclidBelow(p: int, a: int, b: int)
    requires Prime(p) && 0 < a < p && (a * b) % p == 0
    ensures b % p == 0
    decreases a
  {
    if a <= 1 {
    } else {
      var q, r := p / a, p % a;
      assert p == q * a + r;
      var k := (a * b) / p;
      assert a * b == k * p;
      assert r * b == (b - q * k) * p by {
        assert r * b == p * b - q * (a * b);
        assert q * (a * b) == (q * k) * p;
      }
      FromQuotient(r * b, 0, b - q * k, p);
      EuclidBelow(p, r, b);
    }
  }

  /** Euclid's lemma: a prime that divides a product divides a factor. */
  lemma Euclid(p: int, a: int, b: int)
    requires Prime(p) && (a * b) % p == 0
    ensures a % p == 0 || b % p == 0
  {
    if a % p != 0 {
      Reduce(a, p);
      EqProduct(a % p, a, b, b, p);
      EuclidBelow(p, a % p, b);
    }
  }

  lemma ZeroDifference(a: int, b: int, m: int)
    requires m > 0 && Eq(a, b, m)
    ensures (a - b) % m == 0
  {
    EqSum(a, b, b, b, m);
  }

  lemma FromZeroDifference(a: int, b: int, m: int)
    requires m > 0 && (a - b) % m == 0
    ensures Eq(a, b, m)
  {
    EqSum(a - b, 0, b, b, m);
  }

  lemma Factor(a: int, b: int, c: int)
    ensures (a - b) * c == a * c - b * c
  {
  }

  lemma Cancel(p: int, a: int, b: int, c: int)
    requires Prime(p) && c % p != 0 && Eq(a * c, b * c, p)
    ensures Eq(a, b, p)
  {
    ZeroDifference(a * c, b * c, p);
    Factor(a, b, c);
    hide Eq, Prime;
    Euclid(p, a - b, c);
    FromZeroDifference(a, b, p);
  }

  // ---- powers

  function Pow(b: int, e: nat): int {
    if e == 0 then 1 else b * Pow(b, e - 1)
  }

  /** The built-in three-argument power: square-and-multiply, reducing at every step. */
  function PowMod(b: int, e: nat, m: int): int
    requires m > 0
    decreases e
  {
    if e == 0 then 1 % m
    else
      var half := PowMod(b * b % m, e / 2, m);
      if e % 2 == 0 then half else b * half % m
  }

  lemma {:induction false} PowSquare(b: int, e: nat)
    ensures Pow(b * b, e) == Pow(b, 2 * e)
  {
    if e == 0 {
    } else {
      PowSquare(b, e - 1);
      calc {
        Pow(b, 2 * e);
        b * Pow(b, 2 * e - 1);
        b * (b * Pow(b, 2 * e - 2));
        (b * b) * Pow(b * b, e - 1);
      }
    }
  }

  lemma {:induction false} PowEq(a: int, b: int, e: nat, m: int)
    requires m > 0 && Eq(a, b, m)
    ensures Eq(Pow(a, e), Pow(b, e), m)
  {
    if e == 0 {
    } else {
      PowEq(a, b, e - 1, m);
      EqProduct(a, b, Pow(a, e - 1), Pow(b, e - 1), m);
    }
  }

  /** Square-and-multiply computes the reduced power. */
  lemma {:induction false} PowModIsPow(b: int, e: nat, m: int)
    requires m > 0
    ensures PowMod(b, e, m) == Pow(b, e) % m
    decreases e
  {
    if e == 0 {
    } else {
      var square, half := b * b % m, PowMod(b * b % m, e / 2, m);
      PowModIsPow(square, e / 2, m);
      Reduce(b * b, m);
      PowEq(square, b * b, e / 2, m);
      PowSquare(b, e / 2);
      assert half == Pow(b, 2 * (e / 2)) % m;
      if e % 2 == 1 {
        assert e == 2 * (e / 2) + 1;
        Reduce(Pow(b, e - 1), m);
        EqProduct(b, b, half, Pow(b, e - 1), m);
      }
    }
  }

  // ---- Fermat's little theorem

  function Product(s: seq<int>): int {
    if s == [] then 1 else Product(s[..|s| - 1]) * s[|s| - 1]
  }

  function Factorial(n: nat): int {
    if n == 0 then 1 else Factorial(n - 1) * n
  }

  ghost predicate DistinctUpTo(s: seq<int>, n: int) {
    && (forall i :: 0 <= i < |s| ==> 1 <= s[i] <= n)
    && (forall i, j :: 0 <= i < j < |s| ==> s[i] != s[j])
  }

  lemma {:induction false} ProductRemove(s: seq<int>, i: nat)
    requires i < |s|
    ensures Product(s) == Product(s[..i] + s[i + 1..]) * s[i]
  {
    var t := s[..i] + s[i + 1..];
    if i == |s| - 1 {
      assert t == s[..i];
    } else {
      var init, last := s[..|s| - 1], s[|s| - 1];
      ProductRemove(init, i);
      assert t[..|t| - 1] == init[..i] + init[i + 1..];
      ExchangeFactors(Product(init[..i] + init[i + 1..]), s[i], last);
    }
  }

  lemma ExchangeFactors(a: int, b: int, c: int)
    ensures a * b * c == a * c * b
  {
  }

  lemma {:induction false} AtMostN(s: seq<int>, n: nat)
    requires DistinctUpTo(s, n)
    ensures |s| <= n
  {
    if s == [] {
      return;
    }
    assert 1 <= s[0] <= n;
    if i :| 0 <= i < |s| && s[i] == n {
      AtMostN(s[..i] + s[i + 1..], n - 1);
    } else {
      AtMostN(s, n - 1);
    }
  }

  /** n distinct numbers between 1 and n multiply to n factorial, in whatever order they come. */
  lemma {:induction false} PermutationProduct(s: seq<int>, n: nat)
    requires |s| == n && DistinctUpTo(s, n)
    ensures Product(s) == Factorial(n)
  {
    if n == 0 {
    } else {
      LargestIsThere(s, n);
      var i :| 0 <= i < |s| && s[i] == n;
      ProductRemove(s, i);
      RemovedIsDistinct(s, n, i);
      PermutationProduct(s[..i] + s[i + 1..], n - 1);
    }
  }

  lemma LargestIsThere(s: seq<int>, n: nat)
    requires |s| == n > 0 && DistinctUpTo(s, n)
    ensures exists i :: 0 <= i < |s| && s[i] == n
  {
    if forall i :: 0 <= i < |s| ==> s[i] != n {
      AtMostN(s, n - 1);
    }
  }

  lemma RemovedIsDistinct(s: seq<int>, n: nat, i: nat)
    requires |s| == n && DistinctUpTo(s, n) && i < n && s[i] == n
    ensures DistinctUpTo(s[..i] + s[i + 1..], n - 1)
  {
    var t := s[..i] + s[i + 1..];
    assert forall k :: 0 <= k < |t| ==> t[k] == s[if k < i then k else k + 1];
  }

  function Multiples(a: int, n: nat, p: int): (s: seq<int>)
    requires p > 0
    ensures |s| == n
  {
    if n == 0 then [] else Multiples(a, n - 1, p) + [a * n % p]
  }

  lemma {:induction false} MultipleAt(a: int, n: nat, p: int, i: nat)
    requires p > 0 && i < n
    ensures Multiples(a, n, p)[i] == a * (i + 1) % p
  {
    if i < n - 1 {
      MultipleAt(a, n - 1, p, i);
    }
  }

  lemma {:induction false} MultiplesProduct(a: int, n: nat, p: int)
    requires p > 0
    ensures Eq(Product(Multiples(a, n, p)), Pow(a, n) * Factorial(n), p)
  {
    if n == 0 {
    } else {
      MultiplesProduct(a, n - 1, p);
      var s, x, f := Multiples(a, n, p), Pow(a, n - 1), Factorial(n - 1);
      assert s[..n - 1] == Multiples(a, n - 1, p);
      Reduce(a * n, p);
      EqProduct(Product(s[..n - 1]), x * f, a * n % p, a * n, p);
      Regroup(x, f, a, n);
      assert x * a == a * x;
    }
  }

  lemma MultipleIsNotZero(a: int, i: int, p: int)
    requires Prime(p) && a % p != 0 && 1 <= i < p
    ensures a * i % p != 0
  {
    ReducedIsSelf(i, p);
    if a * i % p == 0 {
      Euclid(p, a, i);
      assert false;
    }
  }

  lemma MultiplesDiffer(a: int, i: int, j: int, p: int)
    requires Prime(p) && a % p != 0 && 1 <= i < j < p
    ensures a * i % p != a * j % p
  {
    ReducedIsSelf(i, p);
    ReducedIsSelf(j, p);
    if a * i % p == a * j % p {
      assert a * i == i * a && a * j == j * a;
      Cancel(p, i, j, a);
      assert false;
    }
  }

  lemma MultiplesAreDistinct(a: int, p: int)
    requires Prime(p) && a % p != 0
    ensures DistinctUpTo(Multiples(a, p - 1, p), p - 1)
  {
    var s := Multiples(a, p - 1, p);
    forall i | 0 <= i < |s| ensures 1 <= s[i] <= p - 1 {
      MultipleAt(a, p - 1, p, i);
      MultipleIsNotZero(a, i + 1, p);
    }
    forall i, j | 0 <= i < j < |s| ensures s[i] != s[j] {
      MultipleAt(a, p - 1, p, i);
      MultipleAt(a, p - 1, p, j);
      MultiplesDiffer(a, i + 1, j + 1, p);
    }
  }

  lemma {:induction false} FactorialIsUnit(n: nat, p: int)
    requires Prime(p) && n < p
    ensures Factorial(n) % p != 0
  {
    if n == 0 {
    } else {
      FactorialIsUnit(n - 1, p);
      if Factorial(n) % p == 0 {
        Euclid(p, Factorial(n - 1), n);
        assert false;
      }
    }
  }

  lemma Fermat(a: int, p: int)
    requires Prime(p) && a % p != 0
    ensures Pow(a, p - 1) % p == 1
  {
    var f := Factorial(p - 1);
    MultiplesAreDistinct(a, p);
    PermutationProduct(Multiples(a, p - 1, p), p - 1);
    MultiplesProduct(a, p - 1, p);
    FactorialIsUnit(p - 1, p);
    assert 1 * f == f;
    Cancel(p, Pow(a, p - 1), 1, f);
    ReducedIsSelf(1, p);
  }

  // ---- division by z^(p-2)

  /** The affine coordinate the derivation ends with: x times the p-2 power of z, reduced. */
  function Divide(x: int, z: int, p: int): int
    requires p > 1
  {
    x * PowMod(z, p - 2, p) % p
  }

  lemma DivideIsPower(x: int, z: int, p: int)
    requires p > 1
    ensures Eq(Divide(x, z, p), x * Pow(z, p - 2), p)
  {
    PowModIsPow(z, p - 2, p);
    Reduce(Pow(z, p - 2), p);
    EqProduct(x, x, PowMod(z, p - 2, p), Pow(z, p - 2), p);
    Reduce(x * PowMod(z, p - 2, p), p);
  }

  lemma DivideSolves(x: int, z: int, p: int)
    requires Prime(p) && z % p != 0
    ensures Eq(Divide(x, z, p) * z, x, p)
  {
    var d, w, w' := Divide(x, z, p), Pow(z, p - 2), Pow(z, p - 1);
    assert w' == z * w;
    Fermat(z, p);
    ReducedIsSelf(1, p);
    DivideIsPower(x, z, p);
    ProductIsOne(d, x, w, z, w', p);
  }

  lemma ProductIsOne(d: int, x: int, w: int, z: int, w': int, p: int)
    requires p > 0 && Eq(d, x * w, p) && w' == z * w && Eq(w', 1, p)
    ensures Eq(d * z, x, p)
  {
    EqProduct(d, x * w, z, z, p);
    Rotate(x, w, z);
    EqProduct(x, x, w', 1, p);
  }

  /** For a prime modulus the result is the quotient: the only reduced r with r*z = x. */
  lemma DivideInverts(x: int, z: int, p: int)
    requires Prime(p) && z % p != 0
    ensures 0 <= Divide(x, z, p) < p
    ensures forall r :: 0 <= r < p ==> (Eq(r * z, x, p) <==> r == Divide(x, z, p))
  {
    DivideSolves(x, z, p);
    ReducedIsSelf(Divide(x, z, p), p);
    forall q | 0 <= q < p && Eq(q * z, x, p) ensures q == Divide(x, z, p) {
      Cancel(p, q, Divide(x, z, p), z);
      ReducedIsSelf(q, p);
    }
  }

  /** At the point at infinity, where z is 0, the result is 0; 3 is the first prime with p - 2 > 0. */
  lemma DivideByZero(x: int, z: int, p: int)
    requires Prime(p) && p > 2 && z % p == 0
    ensures Divide(x, z, p) == 0
  {
    var w, w' := Pow(z, p - 2), Pow(z, p - 3);
    DivideIsPower(x, z, p);
    ReducedIsSelf(0, p);
    EqProduct(z, 0, w', w', p);
    EqProduct(x, x, w, 0, p);
    ReducedIsSelf(Divide(x, z, p), p);
  }

  /** The quotient depends on the projective point only: a common factor cancels. */
  lemma DivideIgnoresScaling(x: int, z: int, c: int, p: int)
    requires Prime(p) && p > 2 && c % p != 0
    ensures Divide(c * x, c * z, p) == Divide(x, z, p)
  {
    if z % p == 0 {
      EqProduct(c, c, z, 0, p);
      DivideByZero(x, z, p);
      DivideByZero(c * x, c * z, p);
    } else {
      if (c * z) % p == 0 {
        Euclid(p, c, z);
        assert false;
      }
      DivideInverts(x, z, p);
      DivideInverts(c * x, c * z, p);
      var r := Divide(x, z, p);
      EqProduct(c, c, r * z, x, p);
      assert c * (r * z) == r * (c * z);
    }
  }

  /** Congruent coordinates give the same quotient. */
  lemma DivideRespectsEq(x: int, x': int, z: int, z': int, p: int)
    requires p > 1 && Eq(x, x', p) && Eq(z, z', p)
    ensures Divide(x, z, p) == Divide(x', z', p)
  {
    var w, w' := Pow(z, p - 2), Pow(z', p - 2);
    DivideIsPower(x, z, p);
    DivideIsPower(x', z', p);
    PowEq(z, z', p - 2, p);
    EqProduct(x, x', w, w', p);
    ReducedIsSelf(Divide(x, z, p), p);
    ReducedIsSelf(Divide(x', z', p), p);
  }
}
