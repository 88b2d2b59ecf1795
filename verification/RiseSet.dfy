/** The search for rises and settings (swe_rise_trans_true_hor in eph/sweph/src/swecl.c): heights sampled every two
    hours, culminations inserted among them, and bisection between neighbours on opposite sides of the horizon.

    `height` is the height of the body over the horizon at a time, and `known` says where it can be computed;
    where it cannot, the source returns ERR. */
module RiseSet {
  import opened Numbers

  datatype Status = OK | ERR | NotFound

  const TWO_HOURS := 1.0 / 12.0

  // ------------------------------------------------------------------ culminations

  /** find_maximum: the extremum of the parabola through three heights at distance dx; time from the last of them */
  function FindMaximum(y00: real, y11: real, y2: real, dx: real): (real, real)
    requires y00 + y2 != 2.0 * y11
  {
    var c := y11;
    var b := (y2 - y00) / 2.0;
    var a := (y2 + y00) / 2.0 - c;
    var x := -b / 2.0 / a;
    ((x - 1.0) * dx, (4.0 * a * c - b * b) / 4.0 / a)
  }

  /** The parabola with those heights at u = -1, 0 and 1 */
  function Parabola(y00: real, y11: real, y2: real, u: real): real {
    ((y2 + y00) / 2.0 - y11) * u * u + (y2 - y00) / 2.0 * u + y11
  }

  lemma CompleteSquare(a: real, b: real, c: real, u: real)
    requires a != 0.0
    ensures var x := -b / 2.0 / a;
      a * u * u + b * u + c == a * (u - x) * (u - x) + (4.0 * a * c - b * b) / 4.0 / a
  {
    var x := -b / 2.0 / a;
    assert b == -2.0 * a * x;
    assert (4.0 * a * c - b * b) / 4.0 / a == c - a * x * x by {
      assert 4.0 * a * c - b * b == 4.0 * a * (c - a * x * x);
    }
    assert a * (u - x) * (u - x) == a * u * u - 2.0 * a * x * u + a * x * x;
  }

  lemma VertexNearMiddle(a: real, b: real)
    requires a != 0.0 && -(if a < 0.0 then -a else a) < b < (if a < 0.0 then -a else a)
    ensures -0.5 < -b / 2.0 / a < 0.5
  {
    var x := -b / 2.0 / a;
    assert b == -2.0 * a * x;
    if a > 0.0 {
      assert a * (1.0 - 2.0 * x) > 0.0 && a * (1.0 + 2.0 * x) > 0.0;
    } else {
      assert -a * (1.0 - 2.0 * x) > 0.0 && -a * (1.0 + 2.0 * x) > 0.0;
    }
  }

  lemma SquareSign(a: real, d: real)
    ensures a > 0.0 ==> a * d * d >= 0.0
    ensures a < 0.0 ==> a * d * d <= 0.0
  {
    assert d * d >= 0.0;
    assert a * d * d == a * (d * d);
  }

  /** For a sample higher (or lower) than both neighbours, find_maximum returns the highest (or lowest) point of the
      parabola through the three, less than half a step from that sample. */
  lemma CulminationFound(y00: real, y11: real, y2: real, dx: real, u: real)
    requires dx > 0.0 && ((y11 > y00 && y11 > y2) || (y11 < y00 && y11 < y2))
    ensures var (dt, y) := FindMaximum(y00, y11, y2, dx);
      && Parabola(y00, y11, y2, -1.0) == y00 && Parabola(y00, y11, y2, 0.0) == y11 && Parabola(y00, y11, y2, 1.0) == y2
      && -0.5 * dx < dt + dx < 0.5 * dx
      && Parabola(y00, y11, y2, (dt + dx) / dx) == y
      && (if y11 > y00 then Parabola(y00, y11, y2, u) <= y else Parabola(y00, y11, y2, u) >= y)
  {
    var a, b := (y2 + y00) / 2.0 - y11, (y2 - y00) / 2.0;
    var x := -b / 2.0 / a;
    VertexNearMiddle(a, b);
    CompleteSquare(a, b, y11, u);
    CompleteSquare(a, b, y11, x);
    SquareSign(a, u - x);
    var (dt, y) := FindMaximum(y00, y11, y2, dx);
    assert dt + dx == x * dx;
    assert (dt + dx) / dx == x;
    assert (0.5 - x) * dx > 0.0 && (x + 0.5) * dx > 0.0;
  }

  // ------------------------------------------------------------------ inserting a culmination

  predicate Sorted(s: seq<real>) { forall i, j | 0 <= i < j < |s| :: s[i] <= s[j] }

  /** First place from j on whose time is later than v */
  function Place(s: seq<real>, v: real, j: nat): (p: nat)
    requires j <= |s|
    ensures j <= p <= |s|
    ensures forall i | j <= i < p :: s[i] <= v
    ensures p < |s| ==> v < s[p]
    decreases |s| - j
  {
    if j == |s| || v < s[j] then j else Place(s, v, j + 1)
  }

  /** The samples with v inserted; a time after all of them is left out, and the first sample keeps its place. */
  function Inserted(s: seq<real>, v: real): seq<real>
    requires s != []
  {
    var p := Place(s, v, 1);
    if p == |s| then s else s[..p] + [v] + s[p..]
  }

  function InsertedAll(s: seq<real>, vs: seq<real>): (r: seq<real>)
    requires s != []
    ensures r != [] && r[0] == s[0]
    decreases |vs|
  {
    if vs == [] then s else InsertedAll(Inserted(s, vs[0]), vs[1..])
  }

  /** Inserting keeps the samples in order exactly if the culmination is not before the first sample. */
  lemma InsertedSorted(s: seq<real>, v: real)
    requires |s| >= 2 && Sorted(s)
    ensures Sorted(Inserted(s, v)) <==> s[0] <= v
  {
    var p := Place(s, v, 1);
    var r := Inserted(s, v);
    if p < |s| {
      if s[0] <= v {
        forall i, j | 0 <= i < j < |r|
          ensures r[i] <= r[j]
        {
          assert r[i] == if i < p then s[i] else if i == p then v else s[i - 1];
          assert r[j] == if j < p then s[j] else if j == p then v else s[j - 1];
        }
      } else {
        assert r[0] == s[0] && r[p] == v;
      }
    }
  }

  /** No sample is lost; the culmination is one more, unless it comes after all of them. */
  lemma InsertedContents(s: seq<real>, v: real)
    requires s != []
    ensures multiset(Inserted(s, v)) == multiset(s) + (if Place(s, v, 1) < |s| then multiset{v} else multiset{})
  {
    var p := Place(s, v, 1);
    if p < |s| { assert s == s[..p] + s[p..]; }
  }

  lemma FirstTooLate(s: seq<real>, vs: seq<real>)
    requires s != [] && exists i :: 0 < i < |s| && s[i] < s[0]
    ensures !Sorted(InsertedAll(s, vs))
    decreases |vs|
  {
    if vs != [] {
      var i :| 0 < i < |s| && s[i] < s[0];
      var r, p := Inserted(s, vs[0]), Place(s, vs[0], 1);
      assert r[if p == |s| || i < p then i else i + 1] == s[i] && r[0] == s[0];
      FirstTooLate(r, vs[1..]);
    }
  }

  /** All insertions: the samples stay sorted exactly if no culmination lies before the first of them. */
  lemma InsertedAllSorted(s: seq<real>, vs: seq<real>)
    requires |s| >= 2 && Sorted(s)
    ensures Sorted(InsertedAll(s, vs)) <==> forall i | 0 <= i < |vs| :: s[0] <= vs[i]
    decreases |vs|
  {
    if vs != [] {
      InsertedSorted(s, vs[0]);
      var r := Inserted(s, vs[0]);
      if s[0] <= vs[0] {
        InsertedAllSorted(r, vs[1..]);
        assert forall i | 0 <= i < |vs[1..]| :: vs[1..][i] == vs[i + 1];
        assert forall i | 0 < i < |vs| :: vs[i] == vs[1..][i - 1];
      } else {
        assert Place(s, vs[0], 1) == 1;
        assert r[1] < r[0];
        FirstTooLate(r, vs[1..]);
      }
    }
  }

  // ------------------------------------------------------------------ bisection

  /** Two times around a crossing of the horizon, and the last midpoint */
  datatype Bracket = Bracket(lo: real, hi: real, mid: real)

  function Halve(height: real -> real, b: Bracket): Bracket {
    var t := (b.lo + b.hi) / 2.0;
    if height(t) * height(b.lo) <= 0.0 then Bracket(b.lo, t, t) else Bracket(t, b.hi, t)
  }

  function Bisect(height: real -> real, b: Bracket, n: nat): Bracket {
    if n == 0 then b else Halve(height, Bisect(height, b, n - 1))
  }

  /** The body goes from one side of the horizon to the other: upwards for a rise, downwards for a setting. */
  predicate Crosses(height: real -> real, b: Bracket, up: bool) {
    if up then height(b.lo) < 0.0 <= height(b.hi) else height(b.hi) <= 0.0 < height(b.lo)
  }

  lemma ProductSign(a: real, b: real)
    ensures a < 0.0 ==> (b * a <= 0.0 <==> b >= 0.0)
    ensures a > 0.0 ==> (b * a <= 0.0 <==> b <= 0.0)
  {
    if a < 0.0 && b > 0.0 { assert b * -a > 0.0; }
    if a < 0.0 && b < 0.0 { assert -b * -a > 0.0; }
    if a > 0.0 && b < 0.0 { assert -b * a > 0.0; }
    if a > 0.0 && b > 0.0 { assert b * a > 0.0; }
  }

  /** Every halving keeps the crossing, in the same direction, and the midpoint is an end of it. */
  lemma {:induction false} BisectKeepsCrossing(height: real -> real, b: Bracket, n: nat, up: bool)
    requires Crosses(height, b, up) && b.lo <= b.hi
    ensures var r := Bisect(height, b, n);
      && Crosses(height, r, up)
      && b.lo <= r.lo <= r.hi <= b.hi
      && (n > 0 ==> r.mid == r.lo || r.mid == r.hi)
  {
    if n > 0 {
      BisectKeepsCrossing(height, b, n - 1, up);
      var q := Bisect(height, b, n - 1);
      ProductSign(height(q.lo), height((q.lo + q.hi) / 2.0));
    }
  }

  lemma {:induction false} BisectHalves(height: real -> real, b: Bracket, n: nat)
    ensures var r := Bisect(height, b, n); (r.hi - r.lo) * Power(2.0, n) == b.hi - b.lo
  {
    hide Power;
    Powers2(n);
    if n > 0 {
      BisectHalves(height, b, n - 1);
      var q, r := Bisect(height, b, n - 1), Bisect(height, b, n);
      HalfTimesDouble(q.hi - q.lo, r.hi - r.lo, Power(2.0, n - 1));
    }
  }

  lemma Powers2(n: nat)
    ensures Power(2.0, n) == if n == 0 then 1.0 else 2.0 * Power(2.0, n - 1)
  {}

  lemma HalfTimesDouble(w: real, w': real, p: real)
    requires w' == w / 2.0
    ensures w' * (2.0 * p) == w * p
  {}

  // ------------------------------------------------------------------ the search

  /** Heights of neighbours with opposite signs, in a direction that is asked for */
  predicate Candidate(height: real -> real, samples: seq<real>, i: nat, rise: bool, set_: bool)
    requires 0 < i < |samples|
  {
    var h0, h1 := height(samples[i - 1]), height(samples[i]);
    h0 * h1 < 0.0 && (h0 < h1 ==> rise) && (h0 > h1 ==> set_)
  }

  /** The time that 20 halvings between neighbours i - 1 and i lead to */
  function CrossingTime(height: real -> real, samples: seq<real>, i: nat): real
    requires 0 < i < |samples|
  {
    Bisect(height, Bracket(samples[i - 1], samples[i], samples[i]), 20).mid
  }

  /** No crossing before place n leads to a time after the start. */
  ghost predicate NoneBefore(height: real -> real, samples: seq<real>, n: int, rise: bool, set_: bool, tjd: real)
    requires n <= |samples|
  {
    forall i | 0 < i < n && Candidate(height, samples, i, rise, set_) :: CrossingTime(height, samples, i) <= tjd
  }

  /** The body crosses the horizon between neighbours i - 1 and i, in a direction that is asked for. */
  predicate CrossesAt(height: real -> real, samples: seq<real>, i: nat, rise: bool, set_: bool)
    requires 0 < i < |samples|
  {
    var b := Bracket(samples[i - 1], samples[i], samples[i]);
    (rise && Crosses(height, b, true)) || (set_ && Crosses(height, b, false))
  }

  /** A crossing is a candidate if and only if the later sample is not on the horizon: at a sample of height 0 the
      search passes over both pairs of neighbours. */
  lemma CandidateExactly(height: real -> real, samples: seq<real>, i: nat, rise: bool, set_: bool)
    requires 0 < i < |samples|
    ensures Candidate(height, samples, i, rise, set_) <==>
      CrossesAt(height, samples, i, rise, set_) && height(samples[i]) != 0.0
    ensures i + 1 < |samples| && height(samples[i]) == 0.0 ==> !Candidate(height, samples, i + 1, rise, set_)
  {
    ProductSign(height(samples[i - 1]), height(samples[i]));
    ProductSign(height(samples[i]), height(samples[i - 1]));
  }

  /** A crossing before place n leads to a time after the start. */
  ghost predicate CrossingAfter(height: real -> real, samples: seq<real>, n: int, rise: bool, set_: bool, tjd: real)
    requires n <= |samples|
  {
    exists i | 0 < i < n :: CrossesAt(height, samples, i, rise, set_) && CrossingTime(height, samples, i) > tjd
  }

  /** The same with a sample of height 0 at the end of the crossing */
  ghost predicate ZeroAfter(height: real -> real, samples: seq<real>, n: int, rise: bool, set_: bool, tjd: real)
    requires n <= |samples|
  {
    exists i | 0 < i < n ::
      CrossesAt(height, samples, i, rise, set_) && height(samples[i]) == 0.0 && CrossingTime(height, samples, i) > tjd
  }

  /** What the search has passed over: crossings that end at a sample of height 0, and no others after the start */
  ghost predicate PassedOver(height: real -> real, samples: seq<real>, n: int, rise: bool, set_: bool, tjd: real)
    requires n <= |samples|
  {
    && NoneBefore(height, samples, n, rise, set_, tjd)
    && (CrossingAfter(height, samples, n, rise, set_, tjd) <==> ZeroAfter(height, samples, n, rise, set_, tjd))
  }

  lemma NoneIsPassedOver(height: real -> real, samples: seq<real>, n: int, rise: bool, set_: bool, tjd: real)
    requires n <= |samples|
    ensures NoneBefore(height, samples, n, rise, set_, tjd) <==>
      forall i | 0 < i < n && CrossesAt(height, samples, i, rise, set_) && CrossingTime(height, samples, i) > tjd ::
        height(samples[i]) == 0.0
    ensures NoneBefore(height, samples, n, rise, set_, tjd) ==> PassedOver(height, samples, n, rise, set_, tjd)
  {
    hide CrossesAt, Candidate, CrossingTime;
    forall i | 0 < i < n
      ensures Candidate(height, samples, i, rise, set_) <==>
        CrossesAt(height, samples, i, rise, set_) && height(samples[i]) != 0.0
    {
      CandidateExactly(height, samples, i, rise, set_);
    }
  }

  /** Three samples, the middle one on the horizon */
  lemma ZeroSkipped(height: real -> real, samples: seq<real>)
    requires |samples| == 3
    requires height(samples[0]) == -1.0 && height(samples[1]) == 0.0 && height(samples[2]) == 1.0
    ensures CrossesAt(height, samples, 1, true, false)
    ensures forall i | 0 < i < 3 :: !Candidate(height, samples, i, true, false)
  {
    CandidateExactly(height, samples, 1, true, false);
  }

  /** Fifteen times, two hours apart, the first two hours before the start */
  function Sampled(tjd: real, n: nat): seq<real> {
    if n == 0 then [] else Sampled(tjd, n - 1) + [tjd - TWO_HOURS + (n - 1) as real * TWO_HOURS]
  }

  ghost predicate HeightsAt(tc: array<real>, h: array<real>, n: int, height: real -> real)
    requires tc.Length == h.Length == 20
    reads tc, h
  {
    0 <= n <= 20 && forall k | 0 <= k < n :: h[k] == height(tc[k])
  }

  method Sample(tjd: real, tc: array<real>, h: array<real>, known: real -> bool, height: real -> real)
      returns (status: Status)
    requires tc.Length == h.Length == 20 && tc != h
    modifies tc, h
    ensures status == OK ==> tc[..15] == Sampled(tjd, 15) && HeightsAt(tc, h, 15, height)
    ensures status != OK ==> status == ERR && exists t :: !known(t)
  {
    var t := tjd - TWO_HOURS;
    for ii := 0 to 15
      invariant t == tjd - TWO_HOURS + ii as real * TWO_HOURS
      invariant tc[..ii] == Sampled(tjd, ii) && HeightsAt(tc, h, ii, height)
    {
      tc[ii] := t;
      if !known(t) { return ERR; }
      h[ii] := height(t);
      t := t + TWO_HOURS;
      assert tc[..ii + 1] == tc[..ii] + [tc[ii]];
    }
    return OK;
  }

  lemma PlaceStep(s: seq<real>, v: real, j: nat)
    requires j <= |s|
    ensures Place(s, v, j) == if j == |s| || v < s[j] then j else Place(s, v, j + 1)
  {}

  lemma InsertedAt(s: seq<real>, v: real)
    requires s != []
    ensures var p := Place(s, v, 1); Inserted(s, v) == if p == |s| then s else s[..p] + [v] + s[p..]
  {}

  /** The loop body that inserts one culmination, shifting both arrays in place */
  method InsertCulmination(tc: array<real>, h: array<real>, jmax: int, v: real,
                           known: real -> bool, height: real -> real)
      returns (status: Status, jmax': int)
    requires tc.Length == h.Length == 20 && tc != h && 0 <= jmax < 19 && HeightsAt(tc, h, jmax + 1, height)
    modifies tc, h
    ensures status == OK ==> jmax <= jmax' <= jmax + 1 && HeightsAt(tc, h, jmax' + 1, height)
    ensures status == OK ==> tc[..jmax' + 1] == Inserted(old(tc[..jmax + 1]), v)
    ensures status != OK ==> status == ERR && exists t :: !known(t)
  {
    hide Inserted, Place;
    ghost var s := tc[..jmax + 1];
    jmax' := jmax;
    var j := 1;
    while j <= jmax && v >= tc[j]
      modifies {}
      invariant 1 <= j <= jmax + 1 && Place(s, v, 1) == Place(s, v, j)
    {
      PlaceStep(s, v, j);
      j := j + 1;
    }
    PlaceStep(s, v, j);
    InsertedAt(s, v);
    if j <= jmax {
      assert s[..j] == tc[..j] && s[j..] == tc[j..jmax + 1];
      status := InsertAt(tc, h, jmax, j, v, known, height);
      jmax' := if status == OK then jmax + 1 else jmax;
    } else {
      status := OK;
    }
  }

  method InsertAt(tc: array<real>, h: array<real>, jmax: int, j: int, v: real,
                  known: real -> bool, height: real -> real)
      returns (status: Status)
    requires tc.Length == h.Length == 20 && tc != h && 0 <= j <= jmax < 19 && HeightsAt(tc, h, jmax + 1, height)
    modifies tc, h
    ensures status == OK ==> HeightsAt(tc, h, jmax + 2, height)
    ensures status == OK ==> tc[..jmax + 2] == old(tc[..j]) + [v] + old(tc[j..jmax + 1])
    ensures status != OK ==> status == ERR && exists t :: !known(t)
  {
    Shift(tc, h, jmax, j);
    tc[j] := v;
    if !known(v) { return ERR; }
    h[j] := height(v);
    return OK;
  }

  method Shift(tc: array<real>, h: array<real>, jmax: int, j: int)
    requires tc.Length == h.Length == 20 && tc != h && 0 <= j <= jmax < 19
    modifies tc, h
    ensures forall m | 0 <= m < 20 ::
      tc[m] == if j < m <= jmax + 1 then old(tc[m - 1]) else old(tc[m])
    ensures forall m | 0 <= m < 20 ::
      h[m] == if j < m <= jmax + 1 then old(h[m - 1]) else old(h[m])
  {
    var k := jmax;
    while k >= j
      invariant j - 1 <= k <= jmax
      invariant forall m | 0 <= m < 20 :: tc[m] == if k + 1 < m <= jmax + 1 then old(tc[m - 1]) else old(tc[m])
      invariant forall m | 0 <= m < 20 :: h[m] == if k + 1 < m <= jmax + 1 then old(h[m - 1]) else old(h[m])
    {
      tc[k + 1] := tc[k];
      h[k + 1] := h[k];
      k := k - 1;
    }
  }

  method InsertCulminations(tc: array<real>, h: array<real>, tculm: seq<real>,
                            known: real -> bool, height: real -> real)
      returns (status: Status, jmax: int)
    requires tc.Length == h.Length == 20 && tc != h && |tculm| <= 4 && HeightsAt(tc, h, 15, height)
    modifies tc, h
    ensures status == OK ==> 14 <= jmax <= 14 + |tculm| && HeightsAt(tc, h, jmax + 1, height)
    ensures status == OK ==> tc[..jmax + 1] == InsertedAll(old(tc[..15]), tculm)
    ensures status != OK ==> status == ERR && exists t :: !known(t)
  {
    jmax := 14;
    for i := 0 to |tculm|
      invariant 14 <= jmax <= 14 + i && HeightsAt(tc, h, jmax + 1, height)
      invariant InsertedAll(tc[..jmax + 1], tculm[i..]) == InsertedAll(old(tc[..15]), tculm)
    {
      assert tculm[i..][1..] == tculm[i + 1..];
      status, jmax := InsertCulmination(tc, h, jmax, tculm[i], known, height);
      if status != OK { return; }
    }
    status := OK;
  }

  /** Twenty halvings */
  method Refine(t0: real, t1: real, known: real -> bool, height: real -> real) returns (status: Status, t: real)
    ensures status == OK ==> t == Bisect(height, Bracket(t0, t1, t1), 20).mid
    ensures status != OK ==> status == ERR && exists u :: !known(u)
  {
    hide Halve;
    var dc0, t2 := height(t0), Bracket(t0, t1, t1);
    t := t1;
    for i := 0 to 20
      invariant t2 == Bisect(height, Bracket(t0, t1, t1), i) && t == t2.mid && dc0 == height(t2.lo)
    {
      t := (t2.lo + t2.hi) / 2.0;
      if !known(t) { return ERR, t; }
      var aha := height(t);
      HalveStep(height, t2);
      if aha * dc0 <= 0.0 {
        t2 := Bracket(t2.lo, t, t);
      } else {
        dc0 := aha;
        t2 := Bracket(t, t2.hi, t);
      }
    }
    status := OK;
  }

  lemma HalveStep(height: real -> real, b: Bracket)
    ensures var t := (b.lo + b.hi) / 2.0;
      Halve(height, b) == if height(t) * height(b.lo) <= 0.0 then Bracket(b.lo, t, t) else Bracket(t, b.hi, t)
  {}

  /** swe_rise_trans_true_hor from the sampling on. `tculm` are the culmination times found on the way; neither
      direction asked for means a rise. */
  method RiseTrans(tjd: real, rise: bool, set_: bool, tculm: seq<real>, known: real -> bool, height: real -> real)
      returns (status: Status, tret: real, at: int)
    requires |tculm| <= 4
    ensures (forall t :: known(t)) ==> status != ERR
    ensures var samples, up := InsertedAll(Sampled(tjd, 15), tculm), rise || !set_;
      && (status == OK ==> 0 < at < |samples| && Candidate(height, samples, at, up, set_))
      && (status == OK ==> tret == CrossingTime(height, samples, at) > tjd)
      && (status == OK ==> PassedOver(height, samples, at, up, set_, tjd))
      && (status == NotFound ==> PassedOver(height, samples, |samples|, up, set_, tjd))
      && (status == OK && (forall i | 0 <= i < |tculm| :: tjd - TWO_HOURS <= tculm[i]) ==>
            AtCrossing(height, samples, at, up, set_, tret))
  {
    hide Sampled, InsertedAll, PassedOver, Candidate, CrossingTime, AtCrossing, Sorted;
    var up := rise || !set_;
    var tc, h := new real[20], new real[20];
    tret, at := 0.0, 0;
    status := Sample(tjd, tc, h, known, height);
    if status != OK { return; }
    var jmax;
    status, jmax := InsertCulminations(tc, h, tculm, known, height);
    if status != OK { return; }
    status, tret, at := FindCrossing(tc, h, jmax, tjd, up, set_, known, height);
    SampledSorted(tjd);
    if status == OK && (forall i | 0 <= i < |tculm| :: tjd - TWO_HOURS <= tculm[i]) {
      InsertedAllSorted(Sampled(tjd, 15), tculm);
      FoundCrossing(height, InsertedAll(Sampled(tjd, 15), tculm), at, up, set_);
    }
  }

  /** The height of a body that rises steadily, at t0 */
  function Climb(t0: real): real -> real { t => t - t0 }

  /** A body that rises at the third sample: the search does not find it, though it rises two hours after the start. */
  method RiseMissed(tjd: real) returns (status: Status)
    ensures status == NotFound
    ensures |Sampled(tjd, 15)| == 15
    ensures CrossingAfter(Climb(tjd + TWO_HOURS), Sampled(tjd, 15), 15, true, false, tjd)
  {
    hide Sampled, Climb, CrossingAfter, Candidate;
    ClimbMissed(tjd);
    var tret, at;
    status, tret, at := RiseTrans(tjd, true, false, [], _ => true, Climb(tjd + TWO_HOURS));
  }

  lemma ClimbMissed(tjd: real)
    ensures var height, samples := Climb(tjd + TWO_HOURS), Sampled(tjd, 15);
      && |samples| == 15
      && CrossingAfter(height, samples, 15, true, false, tjd)
      && forall i | 0 < i < 15 :: !Candidate(height, samples, i, true, false)
  {
    hide Sampled, Bisect, Candidate;
    var height, samples := Climb(tjd + TWO_HOURS), Sampled(tjd, 15);
    SampledAt(tjd, 15);
    assert forall i | 0 <= i < 15 :: height(samples[i]) == (i - 2) as real * TWO_HOURS;
    forall i | 0 < i < 15
      ensures !Candidate(height, samples, i, true, false)
    {
      CandidateExactly(height, samples, i, true, false);
    }
    var b := Bracket(samples[1], samples[2], samples[2]);
    BisectKeepsCrossing(height, b, 20, true);
    BisectHalves(height, b, 20);
    Half(Bisect(height, b, 20).hi - Bisect(height, b, 20).lo);
    assert CrossesAt(height, samples, 2, true, false) && CrossingTime(height, samples, 2) > tjd;
  }

  /** 2^20 is at least 2. */
  lemma Half(w: real)
    requires w >= 0.0
    ensures w * Power(2.0, 20) >= 2.0 * w
  {
    hide Power;
    PowerGrows(20);
  }

  lemma {:induction false} PowerGrows(n: nat)
    requires n > 0
    ensures Power(2.0, n) >= 2.0
  {
    hide Power;
    Powers2(n);
    Powers2(n - 1);
    if n > 1 { PowerGrows(n - 1); }
  }

  lemma {:induction false} SampledAt(tjd: real, n: nat)
    ensures |Sampled(tjd, n)| == n
    ensures forall i | 0 <= i < n :: Sampled(tjd, n)[i] == tjd - TWO_HOURS + i as real * TWO_HOURS
  {
    if n > 0 { SampledAt(tjd, n - 1); }
  }

  /** The samples reach from two hours before the start to 26 hours after it, two hours apart. */
  lemma SamplesReach(tjd: real)
    ensures |Sampled(tjd, 15)| == 15
    ensures Sampled(tjd, 15)[0] == tjd - 1.0 / 12.0 && Sampled(tjd, 15)[14] == tjd + 13.0 / 12.0
    ensures forall i | 0 < i < 15 :: Sampled(tjd, 15)[i] - Sampled(tjd, 15)[i - 1] == 1.0 / 12.0
  {
    hide Sampled;
    SampledAt(tjd, 15);
  }

  lemma SampledSorted(tjd: real)
    ensures |Sampled(tjd, 15)| == 15 && Sorted(Sampled(tjd, 15)) && Sampled(tjd, 15)[0] == tjd - TWO_HOURS
  {
    SampledAt(tjd, 15);
  }

  /** The loop over neighbouring samples */
  method FindCrossing(tc: array<real>, h: array<real>, jmax: int, tjd: real, rise: bool, set_: bool,
                      known: real -> bool, height: real -> real) returns (status: Status, tret: real, at: int)
    requires tc.Length == h.Length == 20 && 0 <= jmax < 20 && HeightsAt(tc, h, jmax + 1, height)
    ensures (forall t :: known(t)) ==> status != ERR
    ensures var samples := tc[..jmax + 1];
      && (status == OK ==> 0 < at < |samples| && Candidate(height, samples, at, rise, set_))
      && (status == OK ==> tret == CrossingTime(height, samples, at) > tjd)
      && (status == OK ==> PassedOver(height, samples, at, rise, set_, tjd))
      && (status == NotFound ==> PassedOver(height, samples, |samples|, rise, set_, tjd))
  {
    hide Bisect, PassedOver, CrossesAt, NoneBefore, CrossingTime;
    ghost var samples := tc[..jmax + 1];
    tret, at := 0.0, 0;
    NoneYet(height, samples, rise, set_, tjd);
    for ii := 1 to jmax + 1
      modifies {}
      invariant NoneBefore(height, samples, ii, rise, set_, tjd)
    {
      NoneStep(height, samples, ii, rise, set_, tjd);
      if h[ii - 1] * h[ii] >= 0.0 { continue; }
      if h[ii - 1] < h[ii] && !rise { continue; }
      if h[ii - 1] > h[ii] && !set_ { continue; }
      var t;
      status, t := Refine(tc[ii - 1], tc[ii], known, height);
      if status != OK { return; }
      RefinedTime(height, samples, ii);
      if t > tjd {
        NoneIsPassedOver(height, samples, ii, rise, set_, tjd);
        return OK, t, ii;
      }
    }
    NoneIsPassedOver(height, samples, jmax + 1, rise, set_, tjd);
    status := NotFound;
  }

  lemma NoneYet(height: real -> real, samples: seq<real>, rise: bool, set_: bool, tjd: real)
    requires samples != []
    ensures NoneBefore(height, samples, 1, rise, set_, tjd)
  {}

  lemma NoneStep(height: real -> real, samples: seq<real>, i: int, rise: bool, set_: bool, tjd: real)
    requires 0 < i < |samples| && NoneBefore(height, samples, i, rise, set_, tjd)
    ensures NoneBefore(height, samples, i + 1, rise, set_, tjd) <==>
      !Candidate(height, samples, i, rise, set_) || CrossingTime(height, samples, i) <= tjd
  {
    hide Candidate, CrossingTime;
  }

  lemma RefinedTime(height: real -> real, samples: seq<real>, i: int)
    requires 0 < i < |samples|
    ensures CrossingTime(height, samples, i) == Bisect(height, Bracket(samples[i - 1], samples[i], samples[i]), 20).mid
  {
    hide Bisect;
  }

  /** t is an end of a bracket, 2^20 times shorter than the distance of the neighbouring samples around it, in which the
      body crosses the horizon in the direction asked for. */
  ghost predicate AtCrossing(height: real -> real, samples: seq<real>, at: nat, rise: bool, set_: bool, t: real)
    requires 0 < at < |samples|
  {
    exists b: Bracket, up: bool ::
      && Crosses(height, b, up) && (if up then rise else set_)
      && samples[at - 1] <= b.lo <= b.hi <= samples[at]
      && (b.hi - b.lo) * Power(2.0, 20) == samples[at] - samples[at - 1]
      && (t == b.lo || t == b.hi)
  }

  /** What an OK result means */
  lemma FoundCrossing(height: real -> real, samples: seq<real>, at: nat, rise: bool, set_: bool)
    requires 0 < at < |samples| && Sorted(samples) && Candidate(height, samples, at, rise, set_)
    ensures AtCrossing(height, samples, at, rise, set_, CrossingTime(height, samples, at))
  {
    var start := Bracket(samples[at - 1], samples[at], samples[at]);
    var up := height(start.lo) < height(start.hi);
    ProductSign(height(start.lo), height(start.hi));
    BisectKeepsCrossing(height, start, 20, up);
    BisectHalves(height, start, 20);
    assert Crosses(height, Bisect(height, start, 20), up);
  }
}
