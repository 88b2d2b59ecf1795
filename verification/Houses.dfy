/** Porphyry and Pullen SD houses, and the house position of a point (eph/sweph/src/swehouse.c).

    swe_degnorm and swe_difdeg2n are taken as the reductions modulo a circle that they stand for. The ascendant and
    the midheaven are inputs. Degrees throughout. */
module Houses {

  // ------------------------------------------------------------------ the circle

  /** swe_degnorm: to [0, 360) */
  function Degnorm(x: real): (y: real)
    ensures 0.0 <= y < 360.0
  {
    x - 360.0 * (x / 360.0).Floor as real
  }

  /** swe_difdeg2n: p1 - p2 in [-180, 180) */
  function Difdeg2n(p1: real, p2: real): real {
    var dif := Degnorm(p1 - p2);
    if dif >= 180.0 then dif - 360.0 else dif
  }

  lemma DegnormIs(x: real, y: real, k: int)
    requires 0.0 <= y < 360.0 && x == y + 360.0 * k as real
    ensures Degnorm(x) == y
  {
    assert x / 360.0 == y / 360.0 + k as real;
    assert (x / 360.0).Floor == k;
  }

  lemma DegnormTurns(x: real, k: int)
    ensures Degnorm(x + 360.0 * k as real) == Degnorm(x)
  {
    var n := (x / 360.0).Floor;
    DegnormIs(x + 360.0 * k as real, Degnorm(x), n + k);
  }

  /** Reducing before or after adding makes no difference. */
  lemma DegnormSum(a: real, b: real)
    ensures Degnorm(Degnorm(a) + b) == Degnorm(a + b)
    ensures Degnorm(b - Degnorm(a)) == Degnorm(b - a)
  {
    var n := (a / 360.0).Floor;
    assert Degnorm(a) + b == a + b + 360.0 * (-n) as real;
    DegnormTurns(a + b, -n);
    DegnormTurns(b - a, n);
  }

  // ------------------------------------------------------------------ house systems

  datatype System = Porphyry | PullenSD

  /** Longitudes of the house cusps, counted in degrees from the ascendant; `acmc` is the arc from the midheaven to
      the ascendant. House 13 stands for the end of house 12. */
  function Offset(sys: System, acmc: real, i: int): real
    requires 1 <= i <= 13
  {
    if i == 13 then 360.0
    else if i > 6 then 180.0 + First(sys, acmc, i - 6)
    else First(sys, acmc, i)
  }

  function First(sys: System, acmc: real, i: int): real
    requires 1 <= i <= 6
  {
    var q1 := 180.0 - acmc;
    if i <= 3 then Third(sys, q1, i - 1) else q1 + Third(sys, acmc, i - 4)
  }

  /** Cusps inside a quadrant of `q` degrees. Porphyry trisects it. Pullen makes the middle house wider or narrower
      than 30 degrees twice as much as its neighbours, but not narrower than nothing. */
  function Third(sys: System, q: real, k: int): real
    requires 0 <= k <= 2
  {
    if k == 0 then 0.0
    else if sys == Porphyry then (if k == 1 then q / 3.0 else q / 3.0 * 2.0)
    else if q <= 30.0 then q / 2.0
    else if k == 1 then 30.0 + (q - 90.0) / 4.0
    else 60.0 + 3.0 * ((q - 90.0) / 4.0)
  }

  /** What the systems promise of the three houses of a quadrant of q degrees */
  lemma QuadrantShape(sys: System, q: real)
    requires 0.0 <= q <= 180.0
    ensures var first, middle, last := Third(sys, q, 1), Third(sys, q, 2) - Third(sys, q, 1), q - Third(sys, q, 2);
      && first == last
      && (sys == Porphyry ==> middle == first)
      && (sys == PullenSD && q > 30.0 ==> middle - 30.0 == 2.0 * (first - 30.0))
      && (sys == PullenSD && q <= 30.0 ==> middle == 0.0)
  {}

  /** The cusps lie in the order of the zodiac, fill the circle, and opposite ones are 180 degrees apart. */
  lemma OffsetsOrdered(sys: System, acmc: real, i: int)
    requires 0.0 <= acmc < 180.0 && 1 <= i <= 12
    ensures 0.0 <= Offset(sys, acmc, i) <= Offset(sys, acmc, i + 1) <= 360.0
    ensures i <= 6 ==> Offset(sys, acmc, i + 6) == Offset(sys, acmc, i) + 180.0
    ensures Offset(sys, acmc, 1) == 0.0 && Offset(sys, acmc, 13) == 360.0
    ensures Offset(sys, acmc, 10) == 360.0 - acmc
  {
    hide Third;
    ThirdsOrdered(sys, acmc);
    ThirdsOrdered(sys, 180.0 - acmc);
  }

  class Cusps {
    var ac: real
    var mc: real
    var cusp: array<real>

    ghost predicate Valid()
      reads this
    {
      cusp.Length == 37 && 0.0 <= ac < 360.0 && 0.0 <= mc < 360.0
    }

    /** The cusps are where the system puts them. */
    ghost predicate Divided(sys: System)
      requires Valid()
      reads this, cusp
    {
      var acmc := Difdeg2n(ac, mc);
      0.0 <= acmc < 180.0 && forall i | 1 <= i <= 12 :: cusp[i] == Degnorm(ac + Offset(sys, acmc, i))
    }

    /** CalcH, first step of both systems: the ascendant changes sides if it lies behind the midheaven. */
    method SwapAscendant() returns (acmc: real)
      requires Valid()
      modifies this`ac, cusp
      ensures Valid() && 0.0 <= acmc < 180.0 && acmc == Difdeg2n(ac, mc)
      ensures ac == if Difdeg2n(old(ac), mc) < 0.0 then Degnorm(old(ac) + 180.0) else old(ac)
      ensures cusp[1] == if Difdeg2n(old(ac), mc) < 0.0 then ac else old(cusp[1])
      ensures forall i | 0 <= i < 37 && i != 1 :: cusp[i] == old(cusp[i])
    {
      acmc := Difdeg2n(ac, mc);
      if acmc < 0.0 {
        SwapMakesPositive(ac, mc);
        ac := Degnorm(ac + 180.0);
        cusp[1] := ac;
        acmc := Difdeg2n(ac, mc);
      }
    }

    /** CalcH, last step: the opposite cusps */
    method Opposite()
      requires Valid()
      modifies cusp
      ensures cusp[4] == Degnorm(old(cusp[10]) + 180.0) && cusp[7] == Degnorm(old(cusp[1]) + 180.0)
      ensures cusp[5] == Degnorm(old(cusp[11]) + 180.0) && cusp[8] == Degnorm(old(cusp[2]) + 180.0)
      ensures cusp[6] == Degnorm(old(cusp[12]) + 180.0) && cusp[9] == Degnorm(old(cusp[3]) + 180.0)
      ensures forall i | 0 <= i < 37 && !(4 <= i <= 9) :: cusp[i] == old(cusp[i])
    {
      hide Degnorm;
      cusp[4] := Degnorm(cusp[10] + 180.0);
      cusp[5] := Degnorm(cusp[11] + 180.0);
      cusp[6] := Degnorm(cusp[12] + 180.0);
      cusp[7] := Degnorm(cusp[1] + 180.0);
      cusp[8] := Degnorm(cusp[2] + 180.0);
      cusp[9] := Degnorm(cusp[3] + 180.0);
    }

    /** CalcH, case 'O' */
    method CalcPorphyry()
      requires Valid()
      modifies this`ac, cusp
      ensures Valid() && Divided(Porphyry)
      ensures ac == if Difdeg2n(old(ac), mc) < 0.0 then Degnorm(old(ac) + 180.0) else old(ac)
    {
      hide Degnorm, Difdeg2n, Divided, Third;
      var acmc := SwapAscendant();
      PorphyryThirds(acmc);
      PorphyryThirds(180.0 - acmc);
      cusp[1] := ac;
      cusp[10] := mc;
      cusp[2] := Degnorm(ac + (180.0 - acmc) / 3.0);
      cusp[3] := Degnorm(ac + (180.0 - acmc) / 3.0 * 2.0);
      cusp[11] := Degnorm(mc + acmc / 3.0);
      cusp[12] := Degnorm(mc + acmc / 3.0 * 2.0);
      Opposite();
      AllCusps(Porphyry, acmc);
    }

    /** CalcH, case 'L' */
    method CalcPullen()
      requires Valid()
      modifies this`ac, cusp
      ensures Valid() && Divided(PullenSD)
      ensures ac == if Difdeg2n(old(ac), mc) < 0.0 then Degnorm(old(ac) + 180.0) else old(ac)
    {
      hide Degnorm, Difdeg2n, Divided, Third;
      cusp[1] := ac;
      cusp[10] := mc;
      var acmc := SwapAscendant();
      cusp[11], cusp[12] := PullenQuadrant(mc, acmc);
      cusp[2], cusp[3] := PullenQuadrant(ac, 180.0 - acmc);
      Opposite();
      AllCusps(PullenSD, acmc);
    }

    /** The two cusps inside a quadrant of `q` degrees that starts at `from` */
    static method PullenQuadrant(from: real, q: real) returns (c1: real, c2: real)
      ensures c1 == Degnorm(from + Third(PullenSD, q, 1)) && c2 == Degnorm(from + Third(PullenSD, q, 2))
    {
      hide Degnorm;
      var d := (q - 90.0) / 4.0;
      if q <= 30.0 {
        c2 := Degnorm(from + q / 2.0);
        c1 := c2;
      } else {
        c1 := Degnorm(from + 30.0 + d);
        c2 := Degnorm(from + 60.0 + 3.0 * d);
      }
    }

    /** From the cusps of two quadrants, and their opposites, all twelve follow. */
    lemma AllCusps(sys: System, acmc: real)
      requires Valid() && acmc == Difdeg2n(ac, mc) && 0.0 <= acmc < 180.0
      requires cusp[1] == ac && cusp[10] == mc
      requires cusp[2] == Degnorm(ac + Third(sys, 180.0 - acmc, 1))
      requires cusp[3] == Degnorm(ac + Third(sys, 180.0 - acmc, 2))
      requires cusp[11] == Degnorm(mc + Third(sys, acmc, 1)) && cusp[12] == Degnorm(mc + Third(sys, acmc, 2))
      requires cusp[4] == Degnorm(cusp[10] + 180.0) && cusp[7] == Degnorm(cusp[1] + 180.0)
      requires cusp[5] == Degnorm(cusp[11] + 180.0) && cusp[8] == Degnorm(cusp[2] + 180.0)
      requires cusp[6] == Degnorm(cusp[12] + 180.0) && cusp[9] == Degnorm(cusp[3] + 180.0)
      ensures Divided(sys)
    {
      hide Degnorm, Difdeg2n, Third, Offset;
      for i := 1 to 4
        invariant forall k | 1 <= k < i || 7 <= k < i + 6 :: cusp[k] == Degnorm(ac + Offset(sys, acmc, k))
      {
        EasternCusp(sys, acmc, i);
      }
      for i := 4 to 7
        invariant forall k | 1 <= k < i || 7 <= k < i + 6 :: cusp[k] == Degnorm(ac + Offset(sys, acmc, k))
      {
        WesternCusp(sys, acmc, i);
      }
    }

    lemma EasternCusp(sys: System, acmc: real, i: int)
      requires Valid() && 1 <= i <= 3
      requires cusp[i] == if i == 1 then ac else Degnorm(ac + Third(sys, 180.0 - acmc, i - 1))
      requires cusp[i + 6] == Degnorm(cusp[i] + 180.0)
      ensures cusp[i] == Degnorm(ac + Offset(sys, acmc, i))
      ensures cusp[i + 6] == Degnorm(ac + Offset(sys, acmc, i + 6))
    {
      hide Degnorm, Third;
      var o := Third(sys, 180.0 - acmc, i - 1);
      ThirdStart(sys, 180.0 - acmc);
      FirstCusp(ac, o);
      assert Offset(sys, acmc, i) == o;
      assert Offset(sys, acmc, i + 6) == 180.0 + o;
      assert cusp[i] == Degnorm(ac + o) by {
        if i == 1 { assert ac + o == ac + 0.0; }
      }
    }

    lemma WesternCusp(sys: System, acmc: real, i: int)
      requires Valid() && 4 <= i <= 6 && acmc == Difdeg2n(ac, mc)
      requires cusp[i + 6] == if i == 4 then mc else Degnorm(mc + Third(sys, acmc, i - 4))
      requires cusp[i] == Degnorm(cusp[i + 6] + 180.0)
      ensures cusp[i] == Degnorm(ac + Offset(sys, acmc, i))
      ensures cusp[i + 6] == Degnorm(ac + Offset(sys, acmc, i + 6))
    {
      hide Degnorm, Difdeg2n, Third;
      var o := Third(sys, acmc, i - 4);
      ThirdStart(sys, acmc);
      MidheavenCusp(ac, mc, acmc, o);
      assert Offset(sys, acmc, i) == 180.0 - acmc + o;
      assert Offset(sys, acmc, i + 6) == 180.0 + (180.0 - acmc + o);
      assert cusp[i + 6] == Degnorm(mc + o) by {
        if i == 4 { assert mc + o == mc + 0.0; }
      }
    }
  }

  lemma ThirdStart(sys: System, q: real)
    ensures Third(sys, q, 0) == 0.0
  {}

  lemma PorphyryThirds(q: real)
    ensures Third(Porphyry, q, 1) == q / 3.0 && Third(Porphyry, q, 2) == q / 3.0 * 2.0
  {}

  lemma ThirdsOrdered(sys: System, q: real)
    requires 0.0 <= q <= 180.0
    ensures 0.0 == Third(sys, q, 0) <= Third(sys, q, 1) <= Third(sys, q, 2) <= q
    ensures q > 0.0 ==> Third(sys, q, 2) < q
  {}

  lemma SwapMakesPositive(ac: real, mc: real)
    requires Difdeg2n(ac, mc) < 0.0
    ensures 0.0 <= Difdeg2n(Degnorm(ac + 180.0), mc) < 180.0
  {
    var d := Degnorm(ac - mc);
    DegnormSum(ac + 180.0, -mc);
    DegnormIs(ac + 180.0 - mc, d - 180.0, ((ac - mc) / 360.0).Floor + 1);
  }

  lemma FirstCusp(ac: real, o: real)
    requires 0.0 <= ac < 360.0
    ensures Degnorm(ac + 0.0) == ac
    ensures Degnorm(Degnorm(ac + o) + 180.0) == Degnorm(ac + (180.0 + o))
  {
    DegnormIs(ac, ac, 0);
    DegnormSum(ac + o, 180.0);
  }

  lemma MidheavenCusp(ac: real, mc: real, acmc: real, o: real)
    requires 0.0 <= mc < 360.0 && acmc == Difdeg2n(ac, mc)
    ensures Degnorm(mc + 0.0) == mc
    ensures Degnorm(mc + o) == Degnorm(ac + (180.0 + (180.0 - acmc + o)))
    ensures Degnorm(Degnorm(mc + o) + 180.0) == Degnorm(ac + (180.0 - acmc + o))
  {
    DegnormIs(mc, mc, 0);
    var n := ((ac - mc) / 360.0).Floor;
    var k := if Degnorm(ac - mc) >= 180.0 then n + 1 else n;
    assert acmc == ac - mc - 360.0 * k as real;
    DegnormTurns(mc + o, k + 1);
    DegnormSum(mc + o, 180.0);
    DegnormTurns(mc + o + 180.0, k);
  }

  // ------------------------------------------------------------------ the position of a point in the houses

  /** a thousandth of an arcsecond, MILLIARCSEC */
  const MILLIARCSEC := 1.0 / 3600000.0

  /** The point `o` degrees past the ascendant lies in house i. */
  predicate InHouse(sys: System, acmc: real, o: real, i: int) {
    1 <= i <= 12 && Offset(sys, acmc, i) <= o < Offset(sys, acmc, i + 1)
  }

  /** The house number, plus the part of the house that lies behind the point */
  function Through(sys: System, acmc: real, o: real, i: int): (p: real)
    requires InHouse(sys, acmc, o, i)
    ensures i as real <= p < i as real + 1.0
  {
    i as real + Ratio(o - Offset(sys, acmc, i), Offset(sys, acmc, i + 1) - Offset(sys, acmc, i))
  }

  function Ratio(a: real, b: real): (r: real)
    requires 0.0 <= a < b
    ensures 0.0 <= r < 1.0
  {
    Fraction(a, b);
    a / b
  }

  lemma Fraction(a: real, b: real)
    requires 0.0 <= a < b
    ensures 0.0 <= a / b < 1.0
  {}

  /** Every point of the circle lies in exactly one house. */
  lemma {:induction false} OneHouse(sys: System, acmc: real, o: real, n: int) returns (i: int)
    requires 0.0 <= acmc < 180.0 && 1 <= n <= 12 && 0.0 <= o < Offset(sys, acmc, n + 1)
    ensures i <= n && InHouse(sys, acmc, o, i)
    ensures forall j | InHouse(sys, acmc, o, j) :: j == i
    decreases n
  {
    hide Offset;
    OffsetsOrdered(sys, acmc, n);
    if o < Offset(sys, acmc, n) && n > 1 {
      i := OneHouse(sys, acmc, o, n - 1);
    } else {
      i := n;
      forall j | InHouse(sys, acmc, o, j)
        ensures j == i
      {
        if j < i { OffsetsIncrease(sys, acmc, j + 1, i); }
        if i < j { OffsetsIncrease(sys, acmc, i + 1, j); }
      }
    }
  }

  lemma {:induction false} OffsetsIncrease(sys: System, acmc: real, i: int, j: int)
    requires 0.0 <= acmc < 180.0 && 1 <= i <= j <= 13
    ensures Offset(sys, acmc, i) <= Offset(sys, acmc, j)
    decreases j
  {
    hide Offset;
    if i < j {
      OffsetsOrdered(sys, acmc, j - 1);
      OffsetsIncrease(sys, acmc, i, j - 1);
    }
  }

  /** The point lies on cusp i, within a milliarcsecond. */
  predicate OnCusp(lon: real, cusp: real) {
    -MILLIARCSEC < Difdeg2n(lon, cusp) < MILLIARCSEC
  }

  /** swe_house_pos: a point of latitude 0 on a cusp has the number of that cusp. The last one counts. */
  method CuspPosition(c: Cusps, lon: real, lat: real) returns (hpos: int)
    requires c.Valid()
    ensures 0 <= hpos <= 12
    ensures hpos > 0 ==> lat == 0.0 && OnCusp(lon, c.cusp[hpos])
    ensures lat == 0.0 ==> forall i | hpos < i <= 12 :: !OnCusp(lon, c.cusp[i])
  {
    hide Difdeg2n, OnCusp;
    hpos := 0;
    for i := 1 to 13
      invariant 0 <= hpos < i
      invariant hpos > 0 ==> lat == 0.0 && OnCusp(lon, c.cusp[hpos])
      invariant lat == 0.0 ==> forall k | hpos < k < i :: !OnCusp(lon, c.cusp[k])
    {
      if OnCusp(lon, c.cusp[i]) && lat == 0.0 {
        hpos := i;
      }
    }
  }

  /** swe_house_pos, case 'O', for a point whose distance past the ascendant, plus a milliarcsecond, is x */
  method PorphyryPosition(x: real, acmc: real) returns (hpos: real)
    requires 0.0 <= x < 360.0 && 0.0 <= acmc < 180.0
    ensures forall i | InHouse(Porphyry, acmc, x, i) :: hpos == Through(Porphyry, acmc, x, i)
  {
    hide Thirds, Ratio;
    var xp := x;
    if xp < 180.0 {
      hpos := 1.0;
    } else {
      hpos := 7.0;
      xp := xp - 180.0;
    }
    if xp < 180.0 - acmc {
      hpos := hpos + Thirds(xp, 180.0 - acmc);
    } else {
      hpos := hpos + 3.0 + Thirds(xp - 180.0 + acmc, acmc);
    }
    forall i | InHouse(Porphyry, acmc, x, i)
      ensures hpos == Through(Porphyry, acmc, x, i)
    {
      ThirdOfQuadrant(acmc, x, i, hpos);
    }
  }

  function Thirds(x: real, q: real): real
    requires q > 0.0
  {
    x * 3.0 / q
  }

  /** Counting thirds of a quadrant from its start is counting houses. */
  lemma ThirdOfQuadrant(acmc: real, x: real, i: int, hpos: real)
    requires 0.0 <= x < 360.0 && 0.0 <= acmc < 180.0 && InHouse(Porphyry, acmc, x, i)
    requires var xp := if x < 180.0 then x else x - 180.0;
      var first := if x < 180.0 then 1.0 else 7.0;
      hpos == if xp < 180.0 - acmc then first + Thirds(xp, 180.0 - acmc)
              else first + 3.0 + Thirds(xp - 180.0 + acmc, acmc)
    ensures hpos == Through(Porphyry, acmc, x, i)
  {
    hide Ratio, Thirds;
    var xp := if x < 180.0 then x else x - 180.0;
    var q1 := 180.0 - acmc;
    var k := if i <= 6 then i else i - 6;
    if k <= 3 {
      CountThirds(q1, xp, k - 1);
    } else {
      CountThirds(acmc, xp - q1, k - 4);
    }
  }

  lemma CountThirds(q: real, x: real, k: int)
    requires 0 <= k <= 2 && 0.0 <= x - Third(Porphyry, q, k) < q / 3.0
    ensures k as real + Ratio(x - Third(Porphyry, q, k), q / 3.0) == Thirds(x, q)
  {
    assert (x - Third(Porphyry, q, k)) / (q / 3.0) == x * 3.0 / q - k as real;
  }

  /** swe_house_pos, default case: search the house, in either direction round the circle */
  method SimplifiedPosition(c: Cusps, sys: System, lon: real) returns (hpos: real)
    requires c.Valid() && c.Divided(sys)
    ensures var acmc := Difdeg2n(c.ac, c.mc);
      var o := Degnorm(lon - c.ac);
      && (acmc > 0.0 ==> forall i | InHouse(sys, acmc, o, i) :: hpos == Through(sys, acmc, o, i))
      && (acmc == 0.0 && sys == PullenSD ==> hpos == Retrograde(o))
  {
    hide Degnorm, Difdeg2n, Offset, InHouse, Retrograde;
    ghost var acmc, o := Difdeg2n(c.ac, c.mc), Degnorm(lon - c.ac);
    FirstCusp(c.ac, 0.0);
    assert c.cusp[1] == c.ac by { OffsetsOrdered(sys, acmc, 1); assert c.ac + Offset(sys, acmc, 1) == c.ac + 0.0; }
    SixthCusp(c, sys, acmc);
    if Difdeg2n(c.cusp[6], c.cusp[1]) > 0.0 {
      hpos := SearchDirect(c, sys, lon);
    } else {
      hpos := SearchRetrograde(c, sys, lon);
    }
  }

  method SearchDirect(c: Cusps, sys: System, lon: real) returns (hpos: real)
    requires c.Valid() && c.Divided(sys) && c.cusp[1] == c.ac
    requires Difdeg2n(c.ac, c.mc) > 0.0
    ensures var acmc := Difdeg2n(c.ac, c.mc);
      var o := Degnorm(lon - c.ac);
      forall i | InHouse(sys, acmc, o, i) :: hpos == Through(sys, acmc, o, i)
  {
    hide Degnorm, Difdeg2n, Offset;
    ghost var acmc := Difdeg2n(c.ac, c.mc);
    var d := Degnorm(lon - c.cusp[1]);
    ArcToCusp(c, sys, acmc, 1);
    var i, c2 := 1, 0.0;
    while i <= 12
      invariant 1 <= i <= 13 && Offset(sys, acmc, i) <= d
    {
      ArcToCusp(c, sys, acmc, i);
      c2 := if i + 1 > 12 then 360.0 else Degnorm(c.cusp[i + 1] - c.cusp[1]);
      if d < c2 { break; }
      i := i + 1;
    }
    OffsetsOrdered(sys, acmc, if i > 12 then 12 else i);
    ArcToCusp(c, sys, acmc, if i > 12 then 12 else i);
    var c1 := Degnorm(c.cusp[i] - c.cusp[1]);
    var hsize := c2 - c1;
    hpos := if hsize == 0.0 then i as real else i as real + (d - c1) / hsize;
    ghost var j := OneHouse(sys, acmc, d, 12);
    assert InHouse(sys, acmc, d, i);
  }

  /** As distances from the ascendant the cusps have their offsets again. */
  lemma ArcToCusp(c: Cusps, sys: System, acmc: real, i: int)
    requires c.Valid() && c.Divided(sys) && c.cusp[1] == c.ac && acmc == Difdeg2n(c.ac, c.mc) && 1 <= i <= 12
    requires acmc > 0.0
    ensures Degnorm(c.cusp[i] - c.cusp[1]) == Offset(sys, acmc, i)
    ensures i < 12 ==> Degnorm(c.cusp[i + 1] - c.cusp[1]) == Offset(sys, acmc, i + 1)
    ensures i == 12 ==> Offset(sys, acmc, i + 1) == 360.0
    ensures i == 1 ==> Offset(sys, acmc, i) == 0.0
  {
    hide Degnorm, Difdeg2n;
    assert Offset(sys, acmc, 13) == 360.0 && Offset(sys, acmc, 1) == 0.0;
    OneArc(c, sys, acmc, i);
    if i < 12 { OneArc(c, sys, acmc, i + 1); }
  }

  lemma OneArc(c: Cusps, sys: System, acmc: real, i: int)
    requires c.Valid() && c.Divided(sys) && acmc == Difdeg2n(c.ac, c.mc) && 1 <= i <= 12
    ensures acmc > 0.0 ==> Degnorm(c.cusp[i] - c.ac) == Offset(sys, acmc, i)
    ensures Degnorm(c.ac - c.cusp[i]) == Degnorm(-Offset(sys, acmc, i))
  {
    hide Degnorm, Difdeg2n, Offset;
    var o := Offset(sys, acmc, i);
    DegnormSum(c.ac + o, -c.ac);
    DegnormSum(c.ac + o, c.ac);
    assert c.cusp[i] == Degnorm(c.ac + o);
    assert c.ac + o + -c.ac == o;
    assert c.ac - (c.ac + o) == -o;
    if acmc > 0.0 {
      OffsetsOrdered(sys, acmc, i);
      BelowCircle(sys, acmc, i);
      DegnormIs(o, o, 0);
      assert c.cusp[i] - c.ac == Degnorm(c.ac + o) + -c.ac;
    }
  }

  /** If the ascendant and the midheaven differ, all cusps lie before the end of the circle. */
  lemma BelowCircle(sys: System, acmc: real, i: int)
    requires 0.0 < acmc < 180.0 && 1 <= i <= 12
    ensures Offset(sys, acmc, i) < 360.0
  {
    hide Third;
    ThirdsOrdered(sys, acmc);
    ThirdsOrdered(sys, 180.0 - acmc);
  }

  /** The test for retrograde houses tells whether the ascendant is on the midheaven. */
  lemma SixthCusp(c: Cusps, sys: System, acmc: real)
    requires c.Valid() && c.Divided(sys) && c.cusp[1] == c.ac && acmc == Difdeg2n(c.ac, c.mc)
    ensures Difdeg2n(c.cusp[6], c.cusp[1]) > 0.0 <==> acmc > 0.0
  {
    hide Degnorm, Third;
    var o := Offset(sys, acmc, 6);
    ThirdsOrdered(sys, acmc);
    DegnormSum(c.ac + o, -c.ac);
    assert c.ac + o + -c.ac == o;
    assert c.cusp[6] - c.ac == Degnorm(c.ac + o) + -c.ac;
    DegnormIs(o, o, 0);
  }

  method SearchRetrograde(c: Cusps, sys: System, lon: real) returns (hpos: real)
    requires c.Valid() && c.Divided(sys) && c.cusp[1] == c.ac
    ensures Difdeg2n(c.ac, c.mc) == 0.0 && sys == PullenSD ==> hpos == Retrograde(Degnorm(lon - c.ac))
  {
    hide Degnorm, Difdeg2n, Offset, Retrograde;
    ghost var o := Degnorm(lon - c.ac);
    ghost var pullen := Difdeg2n(c.ac, c.mc) == 0.0 && sys == PullenSD;
    var d := Degnorm(c.cusp[1] - lon);
    OtherWayRound(c, lon);
    var i, c2 := 1, 0.0;
    while i <= 12
      invariant 1 <= i <= 13
      invariant pullen && i > 1 ==> 0.0 < o <= 52.5
      invariant i == 13 ==> d >= 360.0
    {
      if pullen && i < 12 { ArcBack(c, i + 1); }
      c2 := if i + 1 > 12 then 360.0 else Degnorm(c.cusp[1] - c.cusp[i + 1]);
      if d < c2 { break; }
      i := i + 1;
    }
    if pullen { ArcBack(c, i); RetrogradeIs(o); }
    var c1 := Degnorm(c.cusp[1] - c.cusp[i]);
    var hsize := c2 - c1;
    hpos := if hsize == 0.0 then i as real else i as real + (d - c1) / hsize;
  }

  /** What the retrograde search finds if the ascendant is on the midheaven */
  function Retrograde(o: real): real {
    if o == 0.0 then 1.0
    else if o > 52.5 then 1.0 + (360.0 - o) / 307.5
    else 12.0 + (360.0 - o) / 360.0
  }

  lemma RetrogradeIs(o: real)
    ensures o == 0.0 ==> Retrograde(o) == 1.0
    ensures o > 52.5 ==> Retrograde(o) == 1.0 + (360.0 - o) / 307.5
    ensures 0.0 < o <= 52.5 ==> Retrograde(o) == 12.0 + (360.0 - o) / 360.0
  {}

  /** That is the wrong house position for every point but the ascendant. */
  lemma RetrogradeWrong(o: real, i: int)
    requires InHouse(PullenSD, 0.0, o, i)
    ensures Retrograde(o) == Through(PullenSD, 0.0, o, i) <==> o == 0.0
  {
    OffsetsOrdered(PullenSD, 0.0, i);
    if i > 2 {
      OffsetsIncrease(PullenSD, 0.0, 3, i);
    }
  }

  lemma OtherWayRound(c: Cusps, lon: real)
    requires c.Valid() && c.cusp[1] == c.ac
    ensures var o := Degnorm(lon - c.ac);
      Degnorm(c.cusp[1] - lon) == if o == 0.0 then 0.0 else 360.0 - o
  {
    var o := Degnorm(lon - c.ac);
    var n := ((lon - c.ac) / 360.0).Floor;
    if o == 0.0 {
      DegnormIs(c.ac - lon, 0.0, -n);
    } else {
      DegnormIs(c.ac - lon, 360.0 - o, -n - 1);
    }
  }

  lemma ArcBack(c: Cusps, i: int)
    requires c.Valid() && c.Divided(PullenSD) && c.cusp[1] == c.ac && Difdeg2n(c.ac, c.mc) == 0.0 && 1 <= i <= 12
    ensures var arc := Degnorm(c.cusp[1] - c.cusp[i]);
      arc <= 307.5 && (i == 2 ==> arc == 307.5) && (i == 1 || i == 12 ==> arc == 0.0)
  {
    hide Degnorm, Difdeg2n;
    OneArc(c, PullenSD, 0.0, i);
    var o := Offset(PullenSD, 0.0, i);
    if o == 0.0 || o == 360.0 {
      DegnormIs(-o, 0.0, if o == 0.0 then 0 else -1);
    } else {
      DegnormIs(-o, 360.0 - o, -1);
    }
  }

  /** swe_house_pos for both systems */
  method HousePos(c: Cusps, sys: System, lon: real, lat: real) returns (hpos: real)
    requires c.Valid() && c.Divided(sys)
    ensures var acmc := Difdeg2n(c.ac, c.mc);
      var o := Degnorm(lon - c.ac);
      var x := Degnorm(o + MILLIARCSEC);
      if lat == 0.0 && exists i | 1 <= i <= 12 :: OnCusp(lon, c.cusp[i]) then
        exists i | 1 <= i <= 12 ::
          OnCusp(lon, c.cusp[i]) && hpos == i as real && forall k | i < k <= 12 :: !OnCusp(lon, c.cusp[k])
      else if sys == Porphyry then
        forall i | InHouse(sys, acmc, x, i) :: hpos == Through(sys, acmc, x, i)
      else if acmc > 0.0 then
        forall i | InHouse(sys, acmc, o, i) :: hpos == Through(sys, acmc, o, i)
      else
        hpos == Retrograde(o)
  {
    hide Degnorm, Difdeg2n, InHouse, OnCusp, Retrograde;
    var near := CuspPosition(c, lon, lat);
    if near > 0 {
      hpos := near as real;
    } else if sys == Porphyry {
      var xp := Degnorm(lon - c.ac);
      xp := Degnorm(xp + MILLIARCSEC);
      hpos := PorphyryPosition(xp, Difdeg2n(c.ac, c.mc));
    } else {
      hpos := SimplifiedPosition(c, sys, lon);
    }
  }

  /** A point more than a milliarcsecond from the cusps is still in its house a milliarcsecond further on. */
  lemma SameHouse(c: Cusps, sys: System, lon: real, i: int)
    requires c.Valid() && c.Divided(sys)
    requires InHouse(sys, Difdeg2n(c.ac, c.mc), Degnorm(lon - c.ac), i)
    requires forall k | 1 <= k <= 12 :: !OnCusp(lon, c.cusp[k]) && Difdeg2n(lon, c.cusp[k]) != -MILLIARCSEC
    ensures var acmc := Difdeg2n(c.ac, c.mc);
      var o := Degnorm(lon - c.ac);
      var x := Degnorm(o + MILLIARCSEC);
      && InHouse(sys, acmc, x, i)
      && (Through(sys, acmc, x, i) - Through(sys, acmc, o, i)) * (Offset(sys, acmc, i + 1) - Offset(sys, acmc, i))
         == 1.0 / 3600000.0
  {
    hide Degnorm, Difdeg2n, Offset, Through;
    var acmc, o := Difdeg2n(c.ac, c.mc), Degnorm(lon - c.ac);
    OffsetsOrdered(sys, acmc, i);
    NextCuspAhead(c, sys, lon, i);
    DegnormIs(o + MILLIARCSEC, o + MILLIARCSEC, 0);
    FurtherOn(sys, acmc, o, MILLIARCSEC, i);
  }

  /** The position grows evenly inside a house. */
  lemma FurtherOn(sys: System, acmc: real, o: real, e: real, i: int)
    requires InHouse(sys, acmc, o, i) && InHouse(sys, acmc, o + e, i)
    ensures (Through(sys, acmc, o + e, i) - Through(sys, acmc, o, i)) *
      (Offset(sys, acmc, i + 1) - Offset(sys, acmc, i)) == e
  {
    hide Offset;
  }

  lemma NextCuspAhead(c: Cusps, sys: System, lon: real, i: int)
    requires c.Valid() && c.Divided(sys)
    requires InHouse(sys, Difdeg2n(c.ac, c.mc), Degnorm(lon - c.ac), i)
    ensures var k := if i == 12 then 1 else i + 1;
      var ahead := Offset(sys, Difdeg2n(c.ac, c.mc), i + 1) - Degnorm(lon - c.ac);
      0.0 < ahead <= 180.0 ==> Difdeg2n(lon, c.cusp[k]) == -ahead
  {
    hide Offset;
    var acmc, o := Difdeg2n(c.ac, c.mc), Degnorm(lon - c.ac);
    var next := Offset(sys, acmc, i + 1);
    var k := if i == 12 then 1 else i + 1;
    if 0.0 < next - o <= 180.0 {
      assert c.cusp[k] == Degnorm(c.ac + next) by {
        hide Degnorm, Difdeg2n;
        if i == 12 {
          OffsetsOrdered(sys, acmc, 12);
          DegnormTurns(c.ac, 1);
          assert c.ac + 360.0 * 1 as real == c.ac + next && c.ac + Offset(sys, acmc, 1) == c.ac;
        }
      }
      var n := ((lon - c.ac) / 360.0).Floor;
      DegnormSum(c.ac + next, lon);
      DegnormIs(lon - (c.ac + next), 360.0 - (next - o), n - 1);
    }
  }
}
