/** Chebyshev polynomials as coefficient sequences, their formal derivatives, and the recurrences
    that eph/sweph/src/swejpl.c evaluates them by. */
module Chebyshev {
  import opened UnitPair

  /** Value of the polynomial with coefficients `p`, lowest power first */
  function Eval(p: seq<int>, x: real): real {
    if p == [] then 0.0 else p[0] as real + x * Eval(p[1..], x)
  }

  /** Formal derivative: the coefficient of the k-th power is (k + 1) times the next one. */
  function Deriv(p: seq<int>): seq<int> {
    if p == [] then [] else Weighted(p[1..], 1)
  }

  function Weighted(p: seq<int>, m: int): seq<int> { seq(|p|, k requires 0 <= k < |p| => (k + m) * p[k]) }

  function Doubled(p: seq<int>): seq<int> { seq(|p|, k requires 0 <= k < |p| => 2 * p[k]) }

  function TimesTwoX(p: seq<int>): seq<int> { [0] + Doubled(p) }

  function Minus(p: seq<int>, q: seq<int>): seq<int>
    requires |q| <= |p|
  {
    seq(|p|, k requires 0 <= k < |p| => if k < |q| then p[k] - q[k] else p[k])
  }

  /** T_0 = 1, T_1 = x, T_n = 2x T_(n-1) - T_(n-2) */
  function Poly(n: nat): (p: seq<int>)
    ensures |p| == n + 1
  {
    if n == 0 then [1] else if n == 1 then [0, 1] else Minus(TimesTwoX(Poly(n - 1)), Poly(n - 2))
  }

  function T(n: nat, x: real): real { Eval(Poly(n), x) }

  /** Derivative of T_n */
  function DT(n: nat, x: real): real { Eval(Deriv(Poly(n)), x) }

  lemma {:induction false} EvalTimesTwoX(p: seq<int>, x: real)
    ensures Eval(TimesTwoX(p), x) == 2.0 * x * Eval(p, x)
  {
    EvalDouble(p, x);
    assert TimesTwoX(p)[1..] == Doubled(p);
  }

  lemma {:induction false} EvalDouble(p: seq<int>, x: real)
    ensures Eval(Doubled(p), x) == 2.0 * Eval(p, x)
  {
    if p != [] {
      assert Doubled(p)[1..] == Doubled(p[1..]);
      EvalDouble(p[1..], x);
    }
  }

  lemma {:induction false} EvalMinus(p: seq<int>, q: seq<int>, x: real)
    requires |q| <= |p|
    ensures Eval(Minus(p, q), x) == Eval(p, x) - Eval(q, x)
  {
    if q == [] {
      assert Minus(p, q) == p;
    } else {
      assert Minus(p, q)[1..] == Minus(p[1..], q[1..]);
      EvalMinus(p[1..], q[1..], x);
    }
  }

  lemma {:induction false} EvalWeighted(p: seq<int>, m: int, x: real)
    ensures Eval(Weighted(p, m + 1), x) == Eval(Weighted(p, m), x) + Eval(p, x)
  {
    if p != [] {
      assert Weighted(p, m)[1..] == Weighted(p[1..], m + 1);
      assert Weighted(p, m + 1)[1..] == Weighted(p[1..], m + 2);
      EvalWeighted(p[1..], m + 1, x);
    }
  }

  /** Product rule for a polynomial a + x q(x) */
  lemma EvalDeriv(p: seq<int>, x: real)
    requires p != []
    ensures Eval(Deriv(p), x) == Eval(p[1..], x) + x * Eval(Deriv(p[1..]), x)
  {
    var q := p[1..];
    EvalWeighted(q, 0, x);
    if q != [] { assert Weighted(q, 0)[1..] == Weighted(q[1..], 1); }
  }

  lemma DerivMinus(p: seq<int>, q: seq<int>)
    requires |q| <= |p|
    ensures |Deriv(q)| <= |Deriv(p)| && Deriv(Minus(p, q)) == Minus(Deriv(p), Deriv(q))
  {
    if p != [] {
      forall k | 0 <= k < |p| - 1
        ensures Deriv(Minus(p, q))[k] == Minus(Deriv(p), Deriv(q))[k]
      {
        if k + 1 < |q| { assert (k + 1) * (p[k + 1] - q[k + 1]) == (k + 1) * p[k + 1] - (k + 1) * q[k + 1]; }
      }
    }
  }

  lemma DerivDouble(p: seq<int>, x: real)
    ensures Eval(Deriv(Doubled(p)), x) == 2.0 * Eval(Deriv(p), x)
  {
    EvalDouble(Deriv(p), x);
    if p != [] {
      forall k | 0 <= k < |p| - 1
        ensures Deriv(Doubled(p))[k] == Doubled(Deriv(p))[k]
      {
        assert (k + 1) * (2 * p[k + 1]) == 2 * ((k + 1) * p[k + 1]);
      }
      assert Deriv(Doubled(p)) == Doubled(Deriv(p));
    }
  }

  lemma PolyIs(n: nat)
    requires n >= 2
    ensures |Poly(n - 2)| <= |TimesTwoX(Poly(n - 1))| && Poly(n) == Minus(TimesTwoX(Poly(n - 1)), Poly(n - 2))
  {}

  lemma Recurrence(n: nat, x: real)
    requires n >= 2
    ensures T(n, x) == 2.0 * x * T(n - 1, x) - T(n - 2, x)
  {
    hide Eval, Poly, Minus, TimesTwoX;
    PolyIs(n);
    EvalMinus(TimesTwoX(Poly(n - 1)), Poly(n - 2), x);
    EvalTimesTwoX(Poly(n - 1), x);
  }

  /** The recurrence the source computes velocities by is the derivative of the one for positions. */
  lemma DerivRecurrence(n: nat, x: real)
    requires n >= 2
    ensures DT(n, x) == 2.0 * x * DT(n - 1, x) + 2.0 * T(n - 1, x) - DT(n - 2, x)
  {
    hide Eval, Deriv, Poly, Minus, TimesTwoX;
    var p, q := Poly(n - 1), Poly(n - 2);
    PolyIs(n);
    DerivMinus(TimesTwoX(p), q);
    EvalMinus(Deriv(TimesTwoX(p)), Deriv(q), x);
    DerivTimesTwoX(p, x);
  }

  lemma DerivTimesTwoX(p: seq<int>, x: real)
    ensures Eval(Deriv(TimesTwoX(p)), x) == 2.0 * Eval(p, x) + 2.0 * x * Eval(Deriv(p), x)
  {
    hide Eval, Deriv, TimesTwoX, Doubled;
    ShiftOfTimesTwoX(p);
    EvalDeriv(TimesTwoX(p), x);
    EvalDouble(p, x);
    DerivDouble(p, x);
    TwiceProduct(x, Eval(Deriv(p), x));
  }

  lemma ShiftOfTimesTwoX(p: seq<int>)
    ensures |TimesTwoX(p)| == |p| + 1 && TimesTwoX(p)[1..] == Doubled(p)
  {}

  lemma TwiceProduct(x: real, y: real)
    ensures x * (2.0 * y) == 2.0 * x * y
  {}

  lemma FirstPolynomials(x: real)
    ensures T(0, x) == 1.0 && T(1, x) == x
    ensures DT(0, x) == 0.0 && DT(1, x) == 1.0 && DT(2, x) == 4.0 * x
  {
    assert Deriv([1]) == [] && Deriv([0, 1]) == [1];
    assert Eval([0, 1], x) == x * Eval([1], x);
    DerivRecurrence(2, x);
  }

  /** Sum over j >= k of the coefficients times T_j(x); with k = 0 the position of one component */
  function Series(c: seq<real>, x: real, k: nat): real
    decreases |c| - k
  {
    if k >= |c| then 0.0 else Series(c, x, k + 1) + T(k, x) * c[k]
  }

  function DerivSeries(c: seq<real>, x: real, k: nat): real
    decreases |c| - k
  {
    if k >= |c| then 0.0 else DerivSeries(c, x, k + 1) + DT(k, x) * c[k]
  }

  /** One more coefficient adds its polynomial. */
  lemma SeriesExtended(c: seq<real>, v: real, x: real)
    ensures Series([], x, 0) == 0.0 && Series(c + [v], x, 0) == Series(c, x, 0) + v * T(|c|, x)
    ensures DerivSeries([], x, 0) == 0.0 && DerivSeries(c + [v], x, 0) == DerivSeries(c, x, 0) + v * DT(|c|, x)
  {
    hide T, DT;
    SeriesFrom(c, v, x, 0);
  }

  lemma {:induction false} SeriesFrom(c: seq<real>, v: real, x: real, k: nat)
    requires k <= |c|
    ensures Series(c + [v], x, k) == Series(c, x, k) + v * T(|c|, x)
    ensures DerivSeries(c + [v], x, k) == DerivSeries(c, x, k) + v * DT(|c|, x)
    decreases |c| - k
  {
    hide T, DT;
    if k < |c| {
      SeriesFrom(c, v, x, k + 1);
    } else {
      assert Series(c + [v], x, k + 1) == 0.0 && DerivSeries(c + [v], x, k + 1) == 0.0;
    }
  }

  /** T_n is the polynomial that turns the cosine of an angle into the cosine of n times the angle. */
  lemma {:induction false} TIsCosine(n: nat, a: Pair)
    requires Unit(a)
    ensures T(n, a.c) == Pow(a, n).c
  {
    hide T, DT;
    FirstPolynomials(a.c);
    if n >= 2 {
      Recurrence(n, a.c);
      TIsCosine(n - 1, a);
      TIsCosine(n - 2, a);
      CosineStep(a, Pow(a, n - 2));
      assert Pow(a, n - 1) == Mul(a, Pow(a, n - 2));
    }
  }

  lemma CosineStep(a: Pair, b: Pair)
    requires Unit(a)
    ensures Mul(a, Mul(a, b)).c == 2.0 * a.c * Mul(a, b).c - b.c
  {
    assert a.c * (a.c * b.c - a.s * b.s) - a.s * (a.s * b.c + a.c * b.s)
      == 2.0 * a.c * (a.c * b.c - a.s * b.s) - (a.c * a.c + a.s * a.s) * b.c;
  }
}
