/** Tables of multiple angles and the sums of angles formed from them, as both the planetary and the lunar theory
    use them (sscc and the inner loops of eph/sweph/src/swemplan.c and eph/sweph/src/swemmoon.c).

    An angle is the pair of its cosine and sine; no trigonometric function is needed beyond that. */
module AngleTables {
  import opened UnitPair

  /** A harmonic of an angle: the integer multiple and the number of the angle */
  datatype Term = Term(multiple: int, angle: int)

  /** The angle combined so far; the source starts with the first non-zero multiple. */
  datatype Combination = Combination(started: bool, v: Pair)

  const NOTHING := Combination(false, Pair(0.0, 0.0))

  function Join(c: Combination, p: Pair): Combination { Combination(true, if c.started then Mul(p, c.v) else p) }

  /** The sum of integer multiples of the base angles */
  function AngleSum(base: seq<Pair>, terms: seq<Term>): Pair
    requires forall i | 0 <= i < |terms| :: 0 <= terms[i].angle < |base|
  {
    if terms == [] then ONE
    else
      var t := terms[|terms| - 1];
      Mul(Pow(base[t.angle], t.multiple), AngleSum(base, terms[..|terms| - 1]))
  }

  predicate AllZero(terms: seq<Term>) { forall i | 0 <= i < |terms| :: terms[i].multiple == 0 }

  class Angles {
    var ss: array2<real>
    var cc: array2<real>

    ghost predicate Valid()
      reads this
    {
      ss != cc && ss.Length0 == cc.Length0 && ss.Length1 == cc.Length1 && ss.Length1 >= 2
    }

    ghost function Entry(m: int, i: int): Pair
      requires Valid() && 0 <= m < ss.Length0 && 0 <= i < ss.Length1
      reads this, ss, cc
    {
      Pair(cc[m, i], ss[m, i])
    }

    /** The first `count` entries of row m are the multiples of angle `a`. */
    ghost predicate Filled(m: int, a: Pair, count: int)
      requires Valid() && 0 <= m < ss.Length0
      reads this, ss, cc
    {
      forall i | 0 <= i < ss.Length1 && i < count :: Entry(m, i) == Pow(a, i + 1)
    }

    /** sscc: entry i of row k becomes the (i + 1)-th multiple of the angle; at least two entries are written. */
    method Sscc(k: int, a: Pair, n: int)
      requires Valid() && 0 <= k < ss.Length0 && n <= ss.Length1
      modifies ss, cc
      ensures Valid() && Filled(k, a, n) && Filled(k, a, 2)
      ensures forall m, i | 0 <= m < ss.Length0 && 0 <= i < ss.Length1 && (m != k || (i >= n && i >= 2)) ::
        Entry(m, i) == old(Entry(m, i))
    {
      hide Pow;
      var su, cu := a.s, a.c;
      ss[k, 0], cc[k, 0] := su, cu;
      var sv, cv := 2.0 * su * cu, cu * cu - su * su;
      ss[k, 1], cc[k, 1] := sv, cv;
      FirstPowers(a);
      var i := 2;
      while i < n
        invariant 2 <= i && (i <= n || i == 2) && Pair(cv, sv) == Pow(a, i)
        invariant forall j | 0 <= j < i :: cc[k, j] == Pow(a, j + 1).c && ss[k, j] == Pow(a, j + 1).s
        invariant forall m, j | 0 <= m < ss.Length0 && 0 <= j < ss.Length1 && (m != k || j >= i) ::
          ss[m, j] == old(ss[m, j]) && cc[m, j] == old(cc[m, j])
      {
        PowStep(a, i);
        assert Pow(a, i).c == cv && Pow(a, i).s == sv;
        var s := su * cv + cu * sv;
        cv := cu * cv - su * sv;
        sv := s;
        assert Pair(cv, sv) == Pow(a, i + 1);
        ss[k, i], cc[k, i] := sv, cv;
        i := i + 1;
      }
    }

    predicate InTable(t: Term)
      reads this
    {
      0 <= t.angle < ss.Length0 && -ss.Length1 <= t.multiple <= ss.Length1
    }

    /** The table entry for a multiple; a negative one is the conjugate of the positive one. */
    ghost function Lookup(t: Term): Pair
      requires Valid() && InTable(t) && t.multiple != 0
      reads this, ss, cc
    {
      if t.multiple > 0 then Entry(t.angle, t.multiple - 1) else Conj(Entry(t.angle, -t.multiple - 1))
    }

    /** What the source combines from the table, whatever the table holds */
    ghost function Combined(terms: seq<Term>): Combination
      requires Valid() && forall i | 0 <= i < |terms| :: InTable(terms[i])
      reads this, ss, cc
    {
      if terms == [] then NOTHING
      else
        var t := terms[|terms| - 1];
        var c := Combined(terms[..|terms| - 1]);
        if t.multiple == 0 then c else Join(c, Lookup(t))
    }

    /** The step of both inner loops */
    method Combine(c: Combination, t: Term) returns (c': Combination)
      requires Valid() && InTable(t)
      ensures c' == if t.multiple == 0 then c else Join(c, Lookup(t))
    {
      var j := t.multiple;
      c' := c;
      if j != 0 {
        var k := if j < 0 then -j else j;
        var su, cu := ss[t.angle, k - 1], cc[t.angle, k - 1];
        if j < 0 { su := -su; }
        if !c.started {
          c' := Combination(true, Pair(cu, su));
        } else {
          c' := Combination(true, Pair(cu * c.v.c - su * c.v.s, su * c.v.c + cu * c.v.s));
        }
      }
    }

    /** Harmonics that sscc has filled in */
    ghost predicate Tabulated(base: seq<Pair>, counts: seq<int>)
      requires Valid() && |base| == |counts| == ss.Length0
      reads this, ss, cc
    {
      forall m | 0 <= m < ss.Length0 :: Filled(m, base[m], counts[m])
    }

    predicate WithinCounts(counts: seq<int>, terms: seq<Term>)
      requires |counts| == ss.Length0
      reads this
    {
      forall i | 0 <= i < |terms| ::
        InTable(terms[i]) && -counts[terms[i].angle] <= terms[i].multiple <= counts[terms[i].angle]
    }

    /** From filled harmonics the source forms the sum of the angles; only a row of zeros gives nothing. */
    lemma {:induction false} CombinedIsSum(base: seq<Pair>, counts: seq<int>, terms: seq<Term>)
      requires Valid() && |base| == |counts| == ss.Length0 && Tabulated(base, counts) && WithinCounts(counts, terms)
      ensures Combined(terms) == if AllZero(terms) then NOTHING else Combination(true, AngleSum(base, terms))
    {
      hide Mul;
      if terms != [] {
        var t, rest := terms[|terms| - 1], terms[..|terms| - 1];
        assert terms == rest + [t];
        CombinedIsSum(base, counts, rest);
        MulOne(AngleSum(base, rest));
        MulOne(Pow(base[t.angle], t.multiple));
        if AllZero(rest) { SumOfZeros(base, rest); }
        if t.multiple != 0 {
          assert Filled(t.angle, base[t.angle], counts[t.angle]);
          assert Lookup(t) == Pow(base[t.angle], t.multiple);
        }
      }
    }
  }

  lemma {:induction false} SumOfZeros(base: seq<Pair>, terms: seq<Term>)
    requires AllZero(terms) && forall i | 0 <= i < |terms| :: 0 <= terms[i].angle < |base|
    ensures AngleSum(base, terms) == ONE
  {
    hide Mul;
    if terms != [] {
      SumOfZeros(base, terms[..|terms| - 1]);
      MulOne(ONE);
    }
  }

  lemma {:induction false} AngleSumUnit(base: seq<Pair>, terms: seq<Term>)
    requires (forall i | 0 <= i < |terms| :: 0 <= terms[i].angle < |base|)
    requires forall m | 0 <= m < |base| :: Unit(base[m])
    ensures Unit(AngleSum(base, terms))
  {
    hide Mul;
    if terms != [] {
      var t := terms[|terms| - 1];
      AngleSumUnit(base, terms[..|terms| - 1]);
      UnitPow(base[t.angle], t.multiple);
      UnitMul(Pow(base[t.angle], t.multiple), AngleSum(base, terms[..|terms| - 1]));
    }
  }

  /** Reduction of arc seconds modulo a full circle */
  function Mods3600(x: real): real { x - 1296000.0 * (x / 1296000.0).Floor as real }

  lemma FloorShift(y: real, k: int)
    ensures (y + k as real).Floor == y.Floor + k
  {}

  lemma Mods3600Reduces(x: real, k: int)
    ensures 0.0 <= Mods3600(x) < 1296000.0
    ensures Mods3600(x + 1296000.0 * k as real) == Mods3600(x)
  {
    var y := x / 1296000.0;
    assert (x + 1296000.0 * k as real) / 1296000.0 == y + k as real;
    FloorShift(y, k);
    assert Mods3600(x) == 1296000.0 * (y - y.Floor as real);
  }
}
