/** Facts about integer quotients that the calendar and the record arithmetic share. */
module Division {

  lemma Multiples(d: int, e: int)
    requires d > 0 && e != 0
    ensures d * e >= d || d * e <= -d
  {
    if e > 0 {
      assert d * (e - 1) >= 0;
    } else {
      assert d * (-e - 1) >= 0;
    }
  }

  lemma Quotient(x: int, d: int, q: int, r: int)
    requires x == d * q + r && 0 <= r < d
    ensures x / d == q && x % d == r
  {
    var e := x / d - q;
    assert d * e == r - x % d;
    if e != 0 { Multiples(d, e); }
  }

  lemma MulMonotone(a: int, b: int, c: int)
    requires a <= b && 0 <= c
    ensures a * c <= b * c
  {
    assert (b - a) * c >= 0;
  }

  lemma RealQuotient(x: real, a: real, t: real)
    requires a != 0.0 && x == a * t
    ensures x / a == t
  {}

  lemma RealMultiples(a: real, e: real)
    requires a > 0.0
    ensures e < 0.0 ==> a * e < 0.0
    ensures e >= 1.0 ==> a * e >= a
  {
    assert e >= 1.0 ==> a * (e - 1.0) >= 0.0;
  }

  lemma BelowOne(a: real, e: real, r: real)
    requires a * e == r && 0.0 <= r < a
    ensures 0.0 <= e < 1.0
  {
    RealMultiples(a, e);
  }

  lemma UpToOne(x: real, a: real)
    requires a > 0.0 && 0.0 <= x <= a
    ensures 0.0 <= x / a <= 1.0
  {
    var t := x / a;
    assert a * t == x;
    assert t < 0.0 ==> a * t < 0.0;
    assert a * (t - 1.0) <= 0.0;
    assert t > 1.0 ==> a * (t - 1.0) > 0.0;
  }

  /** The quotient of integers, floored, is integer division. */
  lemma FloorRatio(p: int, q: int)
    requires q > 0
    ensures (p as real / q as real).Floor == p / q
  {
    var a, x, k := q as real, p as real / q as real, p / q;
    var e := x - k as real;
    RealOfProduct(q, k);
    assert a * x == p as real;
    assert a * e == a * x - a * k as real;
    assert a * e == (p % q) as real;
    BelowOne(a, e, (p % q) as real);
  }

  lemma RealOfProduct(a: int, b: int)
    ensures (a * b) as real == a as real * b as real
  {}

  /** Whole parts of length d that fit into p <= n d */
  lemma WholeParts(p: int, d: int, n: int)
    requires d > 0 && 0 <= p <= n * d
    ensures 0 <= p / d <= n && p / d * d <= p < p / d * d + d
    ensures p / d == n <==> p == n * d
  {
    var k := p / d;
    assert p == k * d + p % d;
    if k < 0 { MulMonotone(k, -1, d); }
    if k > n { MulMonotone(n + 1, k, d); }
    if p == n * d { Quotient(p, d, n, 0); }
  }

  lemma FloorBetween(x: real, a: int, b: int)
    requires a as real <= x <= b as real
    ensures a <= x.Floor <= b
  {}

  lemma FloorOfWhole(k: int)
    ensures (k as real).Floor == k
  {}
}
