/** Angles as pairs (cosine, sine) with c^2 + s^2 = 1; adding angles multiplies the pairs as complex numbers. */
module UnitPair {

  datatype Pair = Pair(c: real, s: real)

  const ONE := Pair(1.0, 0.0)

  /** A quarter of a circle */
  const QUARTER := Pair(0.0, 1.0)

  function Mul(a: Pair, b: Pair): Pair { Pair(a.c * b.c - a.s * b.s, a.s * b.c + a.c * b.s) }

  function Conj(a: Pair): Pair { Pair(a.c, -a.s) }

  predicate Unit(a: Pair) { a.c * a.c + a.s * a.s == 1.0 }

  /** The pair of n times the angle, for any integer n */
  function Pow(a: Pair, n: int): Pair
    decreases if n < 0 then 1 - n else n
  {
    if n == 0 then ONE else if n > 0 then Mul(a, Pow(a, n - 1)) else Conj(Pow(a, -n))
  }

  lemma MulOne(a: Pair)
    ensures Mul(a, ONE) == a && Mul(ONE, a) == a
  {}

  /** Angles add up in any order, and the conjugate is the opposite angle. */
  lemma MulLaws(a: Pair, b: Pair, c: Pair)
    ensures Mul(a, b) == Mul(b, a)
    ensures Mul(a, Mul(b, c)) == Mul(Mul(a, b), c)
    ensures Unit(a) ==> Mul(a, Conj(a)) == ONE
    ensures Mul(QUARTER, QUARTER) == Pair(-1.0, 0.0)
  {
    assert a.c * (b.c * c.c - b.s * c.s) - a.s * (b.s * c.c + b.c * c.s)
      == (a.c * b.c - a.s * b.s) * c.c - (a.s * b.c + a.c * b.s) * c.s;
    assert a.s * (b.c * c.c - b.s * c.s) + a.c * (b.s * c.c + b.c * c.s)
      == (a.s * b.c + a.c * b.s) * c.c + (a.c * b.c - a.s * b.s) * c.s;
  }

  lemma PowStep(a: Pair, n: nat)
    ensures Pow(a, n + 1) == Pair(a.c * Pow(a, n).c - a.s * Pow(a, n).s, a.s * Pow(a, n).c + a.c * Pow(a, n).s)
  {}

  lemma FirstPowers(a: Pair)
    ensures Pow(a, 1) == a && Pow(a, 2) == Mul(a, a)
  {
    hide Mul;
    MulOne(a);
  }

  lemma UnitMul(a: Pair, b: Pair)
    requires Unit(a) && Unit(b)
    ensures Unit(Mul(a, b))
  {
    var m := Mul(a, b);
    assert m.c * m.c + m.s * m.s == (a.c * a.c + a.s * a.s) * (b.c * b.c + b.s * b.s);
  }

  lemma {:induction false} UnitPow(a: Pair, n: int)
    requires Unit(a)
    ensures Unit(Pow(a, n))
    decreases if n < 0 then 1 - n else n
  {
    if n > 0 {
      UnitPow(a, n - 1);
      UnitMul(a, Pow(a, n - 1));
    } else if n < 0 {
      UnitPow(a, -n);
    }
  }

  lemma {:induction false} PowerOfOne(n: int)
    ensures Pow(ONE, n) == ONE
    decreases if n < 0 then 1 - n else n
  {
    hide Mul;
    MulOne(ONE);
    if n > 0 { PowerOfOne(n - 1); } else if n < 0 { PowerOfOne(-n); }
  }

  /** The angle of the triangle with sides 3, 4 and 5 */
  const THREE_FOUR := Pair(3.0 / 5.0, 4.0 / 5.0)

  /** It is not a fraction of a full circle: no multiple of it has sine 0. */
  lemma SineNotZero(n: int)
    requires n != 0
    ensures Unit(THREE_FOUR) && Pow(THREE_FOUR, n).s != 0.0
  {
    var _, _, _ := Multiple(if n < 0 then -n else n);
  }

  /** The n-th multiple is (x, y) / p, with x and y prime to 5. */
  lemma {:induction false} Multiple(n: nat) returns (x: int, y: int, p: real)
    requires n > 0
    ensures p > 0.0 && x % 5 == 3 && y % 5 == 4
    ensures Pow(THREE_FOUR, n).c * p == x as real && Pow(THREE_FOUR, n).s * p == y as real
  {
    hide Pow, Mul;
    if n == 1 {
      FirstPowers(THREE_FOUR);
      x, y, p := 3, 4, 5.0;
    } else {
      var u, v, q := Multiple(n - 1);
      x, y, p := 3 * u - 4 * v, 4 * u + 3 * v, 5.0 * q;
      MultipleStep(Pow(THREE_FOUR, n - 1), u, v, q);
      NextPower(THREE_FOUR, n);
    }
  }

  lemma NextPower(a: Pair, n: nat)
    requires n > 0
    ensures Pow(a, n) == Mul(a, Pow(a, n - 1))
  {}

  lemma MultipleStep(a: Pair, u: int, v: int, q: real)
    requires a.c * q == u as real && a.s * q == v as real && u % 5 == 3 && v % 5 == 4
    ensures Mul(THREE_FOUR, a).c * (5.0 * q) == (3 * u - 4 * v) as real
    ensures Mul(THREE_FOUR, a).s * (5.0 * q) == (4 * u + 3 * v) as real
    ensures (3 * u - 4 * v) % 5 == 3 && (4 * u + 3 * v) % 5 == 4
  {
    FiveTimes(a.c, a.s, q);
  }

  lemma FiveTimes(c: real, d: real, q: real)
    ensures (3.0 / 5.0 * c - 4.0 / 5.0 * d) * (5.0 * q) == 3.0 * (c * q) - 4.0 * (d * q)
    ensures (4.0 / 5.0 * c + 3.0 / 5.0 * d) * (5.0 * q) == 4.0 * (c * q) + 3.0 * (d * q)
  {}
}
