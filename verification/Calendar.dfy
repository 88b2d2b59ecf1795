/** Calendar dates and Julian day numbers (eph/sweph/src/swedate.c).

    `JulDay` and `RevJul` are the closed forms of `swe_julday` and `swe_revjul`, over exact reals.
    The reference they are compared with is `DateOf`, which reaches a day by stepping a calendar
    one day at a time under the leap-year rules. */
module Calendar {
  import opened Division

  /** SE_JUL_CAL and SE_GREG_CAL */
  datatype System = Julian | Gregorian

  datatype Date = Date(year: int, month: int, day: int)

  datatype Instant = Instant(date: Date, hour: real)

  datatype Status = OK | ERR

  // ------------------------------------------------------------------ the source's closed forms

  /** swe_julday */
  function JulDay(year: int, month: int, day: int, hour: real, sys: System): real {
    var u := if month < 3 then year as real - 1.0 else year as real;
    var u0 := u + 4712.0;
    var u1 := if month as real + 1.0 < 4.0 then month as real + 1.0 + 12.0 else month as real + 1.0;
    var jd := (u0 * 365.25).Floor as real + (30.6 * u1 + 0.000001).Floor as real + day as real + hour / 24.0 - 63.5;
    if sys == Julian then jd else jd - CenturyTerm(u)
  }

  /** What swe_julday subtracts for the Gregorian calendar; u is the year of the preceding March. */
  function CenturyTerm(u: real): real {
    var abs := if u < 0.0 then -u else u;
    var c := ((abs / 100.0).Floor - (abs / 400.0).Floor) as real;
    var u2 := if u < 0.0 then -c else c;
    if u < 0.0 && u / 100.0 == (u / 100.0).Floor as real && u / 400.0 != (u / 400.0).Floor as real
    then u2 - 2.0 + 1.0 else u2 - 2.0
  }

  /** swe_revjul: days from 1 March -4800, moved to the Julian calendar by two century corrections ... */
  function JulianCount(jd: real, sys: System): real {
    var u0 := jd + 32082.5;
    if sys == Julian then u0
    else
      var u1 := u0 + (u0 / 36525.0).Floor as real - (u0 / 146100.0).Floor as real - 38.0;
      var u1' := if jd >= 1830691.5 then u1 + 1.0 else u1;
      u0 + (u1' / 36525.0).Floor as real - (u1' / 146100.0).Floor as real - 38.0
  }

  /** ... then split into year, month and day */
  function SplitCount(u2: real): Date {
    var u3 := ((u2 - 122.2) / 365.25).Floor as real;
    var u4 := ((u2 - (365.25 * u3).Floor as real) / 30.6001).Floor as real;
    var mon := if (u4 - 1.0).Floor > 12 then (u4 - 1.0).Floor - 12 else (u4 - 1.0).Floor;
    var day := (u2 - (365.25 * u3).Floor as real - (30.6001 * u4).Floor as real).Floor;
    var year := (u3 + ((u4 - 2.0) / 12.0).Floor as real - 4800.0).Floor;
    Date(year, mon, day)
  }

  function RevJul(jd: real, sys: System): Instant {
    Instant(SplitCount((JulianCount(jd, sys) + 123.0).Floor as real), (jd - (jd + 0.5).Floor as real + 0.5) * 24.0)
  }

  function CalendarOf(c: char): System { if c == 'g' then Gregorian else Julian }

  /** swe_date_conversion: the Julian day, and whether the date is a legal one */
  function DateConversion(y: int, m: int, d: int, uttime: real, c: char): (Status, real) {
    var sys := CalendarOf(c);
    var jd := JulDay(y, m, d, uttime, sys);
    (if RevJul(jd, sys).date == Date(y, m, d) then OK else ERR, jd)
  }

  // ------------------------------------------------------------------ the calendars themselves

  predicate Leap(year: int, sys: System) {
    year % 4 == 0 && (sys == Gregorian && year % 100 == 0 ==> year % 400 == 0)
  }

  function MonthLength(year: int, month: int, sys: System): int {
    if month == 2 then (if Leap(year, sys) then 29 else 28)
    else if month in {4, 6, 9, 11} then 30
    else 31
  }

  predicate Legal(date: Date, sys: System) {
    1 <= date.month <= 12 && 1 <= date.day <= MonthLength(date.year, date.month, sys)
  }

  function Succ(date: Date, sys: System): Date {
    if date.day < MonthLength(date.year, date.month, sys) then date.(day := date.day + 1)
    else if date.month < 12 then Date(date.year, date.month + 1, 1)
    else Date(date.year + 1, 1, 1)
  }

  function Pred(date: Date, sys: System): Date {
    if date.day > 1 then date.(day := date.day - 1)
    else if date.month > 1 then Date(date.year, date.month - 1, MonthLength(date.year, date.month - 1, sys))
    else Date(date.year - 1, 12, 31)
  }

  /** The day `n` days after 1 January -4712 of the Julian calendar, found by stepping day by day.
      In the Gregorian calendar that day is 24 November -4713. */
  ghost function DateOf(n: int, sys: System): Date
    decreases if n < 0 then -n else n
  {
    if n == 0 then (if sys == Julian then Date(-4712, 1, 1) else Date(-4713, 11, 24))
    else if n > 0 then Succ(DateOf(n - 1, sys), sys)
    else Pred(DateOf(n + 1, sys), sys)
  }

  predicate Before(a: Date, b: Date) {
    a.year < b.year || (a.year == b.year && (a.month < b.month || (a.month == b.month && a.day < b.day)))
  }

  // ------------------------------------------------------------------ integer form of the day number

  /** The year that starts on 1 March */
  function MarchYear(date: Date): int { if date.month < 3 then date.year - 1 else date.year }

  /** Days by which the Julian calendar is ahead in a March year: one per century but not per fourth century */
  function Gap(u: int): int { u / 100 - u / 400 - 2 }

  function SystemGap(u: int, sys: System): int { if sys == Julian then 0 else Gap(u) }

  /** Position inside the March year, plus 122 */
  function InYear(date: Date): int {
    153 * (if date.month < 3 then date.month + 13 else date.month + 1) / 5 + date.day
  }

  function DayNumber(date: Date, sys: System): int {
    1461 * (MarchYear(date) + 4712) / 4 + InYear(date) - 63 - SystemGap(MarchYear(date), sys)
  }

  /** The floors of swe_julday in integer arithmetic; 0.000001 only guards against rounding. */
  lemma FloorsOfJulDay(k: int)
    ensures (k as real * 365.25).Floor == 1461 * k / 4
    ensures (30.6 * k as real + 0.000001).Floor == 153 * k / 5
    ensures (k as real / 100.0).Floor == k / 100
    ensures (k as real / 400.0).Floor == k / 400
  {
    var q, r := 1461 * k / 4, 1461 * k % 4;
    assert 1461 * k == 4 * q + r;
    assert k as real * 365.25 == q as real + r as real / 4.0;
    var q', r' := 153 * k / 5, 153 * k % 5;
    assert 153 * k == 5 * q' + r';
    assert 30.6 * k as real == q' as real + r' as real / 5.0;
    assert k == 100 * (k / 100) + k % 100;
    assert k as real / 100.0 == (k / 100) as real + (k % 100) as real / 100.0;
    assert k == 400 * (k / 400) + k % 400;
    assert k as real / 400.0 == (k / 400) as real + (k % 400) as real / 400.0;
  }

  lemma NegatedQuotient(u: int, d: int)
    requires d > 0
    ensures (-u) / d == -(u / d) - (if u % d == 0 then 0 else 1)
  {
    var q, r := u / d, u % d;
    assert -u == d * (-q) - r;
    if r == 0 {
      Quotient(-u, d, -q, 0);
    } else {
      assert -u == d * (-q - 1) + (d - r);
      Quotient(-u, d, -q - 1, d - r);
    }
  }

  lemma TowardsZero(u: int)
    ensures var a := if u < 0 then -u else u;
      var c := a / 100 - a / 400;
      Gap(u) == (if u < 0 then -c else c) - 2 + (if u < 0 && u % 100 == 0 && u % 400 != 0 then 1 else 0)
  {
    NegatedQuotient(u, 100);
    NegatedQuotient(u, 400);
    FourCenturies(u);
  }

  lemma FourCenturies(u: int)
    ensures u % 400 == 0 ==> u % 100 == 0
  {
    if u % 400 == 0 { Quotient(u, 100, 4 * (u / 400), 0); }
  }

  lemma WholeCenturies(u: int)
    ensures u as real / 100.0 == (u as real / 100.0).Floor as real <==> u % 100 == 0
    ensures u as real / 400.0 == (u as real / 400.0).Floor as real <==> u % 400 == 0
  {
    FloorsOfJulDay(u);
  }

  /** For negative years the source rounds towards zero and takes one more day off in some century years;
      the result is the floor-division gap in every year. */
  lemma CenturyTermIsGap(u: int)
    ensures CenturyTerm(u as real) == Gap(u) as real
  {
    TowardsZero(u);
    WholeCenturies(u);
    FloorsOfJulDay(if u < 0 then -u else u);
  }

  /** swe_julday is the integer day number, less half a day, plus the hour. */
  lemma JulDayIsDayNumber(date: Date, hour: real, sys: System)
    ensures JulDay(date.year, date.month, date.day, hour, sys) == DayNumber(date, sys) as real - 0.5 + hour / 24.0
  {
    FloorsOfJulDay(MarchYear(date) + 4712);
    FloorsOfJulDay(if date.month < 3 then date.month + 13 else date.month + 1);
    CenturyTermIsGap(MarchYear(date));
  }

  // ------------------------------------------------------------------ integer form of the inverse

  /** The gap read off a count of days from 1 March -4800 */
  function GapAt(x: int): int { x / 36525 - x / 146100 - 38 }

  /** What swe_revjul first adds for the Gregorian calendar, with x days from 1 March -4800 */
  function FirstEstimate(x: int): int { x + GapAt(x) + (if x >= 1862774 then 1 else 0) }

  function Correction(x: int, sys: System): int { if sys == Julian then 0 else GapAt(FirstEstimate(x)) }

  /** The date in the Julian calendar, y days from 1 March -4800, as swe_revjul splits it */
  function Split(y: int): Date {
    var u2 := y + 123;
    var u3 := (20 * u2 - 2444) / 7305;
    var w := u2 - 1461 * u3 / 4;
    var u4 := 10000 * w / 306001;
    Date(u3 + (u4 - 2) / 12 - 4800, if u4 - 1 > 12 then u4 - 13 else u4 - 1, w - 306001 * u4 / 10000)
  }

  lemma FloorsOfCentury(n: int, f: real)
    requires 0.0 <= f < 1.0
    ensures ((n as real + f) / 36525.0).Floor == n / 36525
    ensures ((n as real + f) / 146100.0).Floor == n / 146100
  {
    assert n == 36525 * (n / 36525) + n % 36525;
    assert (n as real + f) / 36525.0 == (n / 36525) as real + ((n % 36525) as real + f) / 36525.0;
    assert n == 146100 * (n / 146100) + n % 146100;
    assert (n as real + f) / 146100.0 == (n / 146100) as real + ((n % 146100) as real + f) / 146100.0;
  }

  lemma FloorsOfSplit(k: int)
    ensures ((k as real - 122.2) / 365.25).Floor == (20 * k - 2444) / 7305
    ensures (365.25 * k as real).Floor == 1461 * k / 4
    ensures (k as real / 30.6001).Floor == 10000 * k / 306001
    ensures (30.6001 * k as real).Floor == 306001 * k / 10000
    ensures ((k as real - 2.0) / 12.0).Floor == (k - 2) / 12
  {
    var a := 20 * k - 2444;
    assert a == 7305 * (a / 7305) + a % 7305;
    assert (k as real - 122.2) / 365.25 == (a / 7305) as real + (a % 7305) as real / 7305.0;
    var b := 1461 * k;
    assert b == 4 * (b / 4) + b % 4;
    assert 365.25 * k as real == (b / 4) as real + (b % 4) as real / 4.0;
    var c := 10000 * k;
    assert c == 306001 * (c / 306001) + c % 306001;
    assert k as real / 30.6001 == (c / 306001) as real + (c % 306001) as real / 306001.0;
    var d := 306001 * k;
    assert d == 10000 * (d / 10000) + d % 10000;
    assert 30.6001 * k as real == (d / 10000) as real + (d % 10000) as real / 10000.0;
    var e := k - 2;
    assert e == 12 * (e / 12) + e % 12;
    assert (k as real - 2.0) / 12.0 == (e / 12) as real + (e % 12) as real / 12.0;
  }

  lemma JulianCountIsInteger(n: int, f: real, sys: System)
    requires 0.0 <= f < 1.0
    ensures var x := n + 32082; JulianCount(n as real - 0.5 + f, sys) == (x + Correction(x, sys)) as real + f
  {
    var x := n + 32082;
    FloorsOfCentury(x, f);
    FloorsOfCentury(FirstEstimate(x), f);
  }

  lemma SplitCountIsSplit(y: int)
    ensures SplitCount((y + 123) as real) == Split(y)
  {
    var u2 := y + 123;
    FloorsOfSplit(u2);
    var u3 := (20 * u2 - 2444) / 7305;
    FloorsOfSplit(u3);
    var w := u2 - 1461 * u3 / 4;
    FloorsOfSplit(w);
    FloorsOfSplit(10000 * w / 306001);
  }

  lemma RevJulIsSplit(n: int, f: real, sys: System)
    requires 0.0 <= f < 1.0
    ensures var x := n + 32082;
      RevJul(n as real - 0.5 + f, sys) == Instant(Split(x + Correction(x, sys)), f * 24.0)
  {
    var x := n + 32082;
    JulianCountIsInteger(n, f, sys);
    SplitCountIsSplit(x + Correction(x, sys));
    assert (n as real - 0.5 + f + 0.5).Floor == n;
    assert ((x + Correction(x, sys)) as real + f + 123.0).Floor == x + Correction(x, sys) + 123;
  }

  // ------------------------------------------------------------------ day counting

  lemma SuccAddsOne(date: Date, sys: System)
    requires Legal(date, sys)
    ensures Legal(Succ(date, sys), sys)
    ensures DayNumber(Succ(date, sys), sys) == DayNumber(date, sys) + 1
  {
    var next := Succ(date, sys);
    if MarchYear(next) != MarchYear(date) {
      MarchStep(date.year - 1, sys);
    } else {
      assert InYear(next) == InYear(date) + 1;
    }
  }

  /** The March years u and u + 1 start 365 days apart, or 366 when February of u + 1 has 29 days. */
  lemma MarchStep(u: int, sys: System)
    ensures 1461 * (u + 1 + 4712) / 4 - SystemGap(u + 1, sys) ==
      1461 * (u + 4712) / 4 - SystemGap(u, sys) + 337 + MonthLength(u + 1, 2, sys)
  {
    QuarterDays(u + 4712);
    QuarterDays(u + 4713);
    QuarterStep(u);
    CenturyStep(u);
    hide Gap;
  }

  lemma QuarterStep(u: int)
    ensures (u + 4713) / 4 == (u + 4712) / 4 + (if (u + 1) % 4 == 0 then 1 else 0)
  {
    Quotient(u + 4712, 4, u / 4 + 1178, u % 4);
    Quotient(u + 4713, 4, (u + 1) / 4 + 1178, (u + 1) % 4);
    NextQuotient(u, 4);
  }

  lemma CenturyStep(u: int)
    ensures Gap(u + 1) == Gap(u) + (if (u + 1) % 100 == 0 && (u + 1) % 400 != 0 then 1 else 0)
    ensures (u + 1) % 400 == 0 ==> (u + 1) % 100 == 0
    ensures (u + 1) % 100 == 0 ==> (u + 1) % 4 == 0
  {
    var v := u + 1;
    NextQuotient(u, 100);
    NextQuotient(u, 400);
    FourCenturies(v);
    if v % 100 == 0 { Quotient(v, 4, 25 * (v / 100), 0); }
  }

  lemma NextQuotient(x: int, d: int)
    requires d > 0
    ensures (x + 1) / d == x / d + (if (x + 1) % d == 0 then 1 else 0)
    ensures (x + 1) % d == if x % d == d - 1 then 0 else x % d + 1
  {
    var q, r := x / d, x % d;
    assert x == d * q + r;
    if r == d - 1 {
      assert d * (q + 1) == d * q + d;
      Quotient(x + 1, d, q + 1, 0);
    } else {
      Quotient(x + 1, d, q, r + 1);
    }
  }

  lemma QuarterDays(v: int)
    ensures 1461 * v / 4 == 365 * v + v / 4
  {
    Quotient(1461 * v, 4, 365 * v + v / 4, v % 4);
  }

  lemma PredUndoesSucc(date: Date, sys: System)
    requires Legal(date, sys)
    ensures Legal(Pred(date, sys), sys)
    ensures Succ(Pred(date, sys), sys) == date
    ensures Pred(Succ(date, sys), sys) == date
  {}

  /** The closed form of swe_julday counts days: the n-th day reached by stepping has day number n. */
  lemma {:induction false} DayNumberCounts(n: int, sys: System)
    ensures Legal(DateOf(n, sys), sys)
    ensures DayNumber(DateOf(n, sys), sys) == n
    decreases if n < 0 then -n else n
  {
    if n > 0 {
      DayNumberCounts(n - 1, sys);
      SuccAddsOne(DateOf(n - 1, sys), sys);
    } else if n < 0 {
      DayNumberCounts(n + 1, sys);
      var next := DateOf(n + 1, sys);
      PredUndoesSucc(next, sys);
      SuccAddsOne(Pred(next, sys), sys);
    }
  }

  lemma {:induction false} MarchStarts(u: int, v: int, sys: System)
    requires u < v
    ensures 1461 * (u + 4712) / 4 - SystemGap(u, sys) + 337 + MonthLength(u + 1, 2, sys)
      <= 1461 * (v + 4712) / 4 - SystemGap(v, sys)
    decreases v - u
  {
    MarchStep(u, sys);
    if u + 1 < v { MarchStarts(u + 1, v, sys); }
  }

  lemma InYearBounds(date: Date, sys: System)
    requires Legal(date, sys)
    ensures 123 <= InYear(date) < 123 + 337 + MonthLength(MarchYear(date) + 1, 2, sys)
  {}

  lemma DayNumberIncreases(a: Date, b: Date, sys: System)
    requires Legal(a, sys) && Legal(b, sys) && Before(a, b)
    ensures DayNumber(a, sys) < DayNumber(b, sys)
  {
    InYearBounds(a, sys);
    InYearBounds(b, sys);
    if MarchYear(a) < MarchYear(b) {
      MarchStarts(MarchYear(a), MarchYear(b), sys);
    } else {
      assert MarchYear(a) == MarchYear(b);
      assert InYear(a) < InYear(b);
    }
  }

  lemma DayNumberInjective(a: Date, b: Date, sys: System)
    requires Legal(a, sys) && Legal(b, sys) && DayNumber(a, sys) == DayNumber(b, sys)
    ensures a == b
  {
    if Before(a, b) { DayNumberIncreases(a, b, sys); }
    if Before(b, a) { DayNumberIncreases(b, a, sys); }
  }

  /** Counting and the closed form are inverse: the date with day number n is the n-th day. */
  lemma DateOfDayNumber(date: Date, sys: System)
    requires Legal(date, sys)
    ensures DateOf(DayNumber(date, sys), sys) == date
  {
    var n := DayNumber(date, sys);
    DayNumberCounts(n, sys);
    DayNumberInjective(DateOf(n, sys), date, sys);
  }

  // ------------------------------------------------------------------ the inverse

  /** Splitting a Julian-calendar day count gives back the date it came from. */
  lemma SplitInverts(date: Date)
    requires Legal(date, Julian)
    ensures Split(DayNumber(date, Julian) + 32082) == date
  {
    SplitYear(date);
    SplitMonth(date);
  }

  lemma SplitYear(date: Date)
    requires Legal(date, Julian)
    ensures var k := MarchYear(date) + 4800;
      var u2 := DayNumber(date, Julian) + 32082 + 123;
      u2 == 1461 * k / 4 + InYear(date) && (20 * u2 - 2444) / 7305 == k
  {
    var k, w := MarchYear(date) + 4800, InYear(date);
    var q, r := k / 4, k % 4;
    Quotient(1461 * k, 4, 1461 * q + 365 * r, r);
    Quotient(1461 * (k - 88), 4, 1461 * (q - 22) + 365 * r, r);
    InYearBounds(date, Julian);
    LeapQuarter(k);
    Quotient(20 * (1461 * k / 4 + w) - 2444, 7305, k, 20 * w - 5 * r - 2444);
  }

  lemma LeapQuarter(k: int)
    ensures MonthLength(k - 4800 + 1, 2, Julian) == (if k % 4 == 3 then 29 else 28)
  {
    var q, r := k / 4, k % 4;
    if r == 3 {
      Quotient(k - 4799, 4, q - 1199, 0);
    } else {
      Quotient(k - 4799, 4, q - 1200, r + 1);
    }
  }

  lemma SplitMonth(date: Date)
    requires Legal(date, Julian)
    ensures var w := InYear(date);
      var u4 := 10000 * w / 306001;
      u4 == (if date.month < 3 then date.month + 13 else date.month + 1) && w - 306001 * u4 / 10000 == date.day
  {}

  /** The century gap can be read off the day count as well as off the year. */
  lemma GapAtIsGap(date: Date)
    requires Legal(date, Julian)
    ensures GapAt(DayNumber(date, Julian) + 32082) == Gap(MarchYear(date))
  {
    var k := MarchYear(date) + 4800;
    SplitYear(date);
    InYearBounds(date, Julian);
    LeapQuarter(k);
    DaysInCenturies(k, InYear(date) - 123);
    GapShift(k);
  }

  lemma GapShift(k: int)
    ensures Gap(k - 4800) == k / 100 - k / 400 - 38
  {
    Quotient(k - 4800, 100, k / 100 - 48, k % 100);
    Quotient(k - 4800, 400, k / 400 - 12, k % 400);
  }

  lemma DaysInCenturies(k: int, i: int)
    requires 0 <= i < 365 || (i == 365 && k % 4 == 3)
    ensures (1461 * k / 4 + i) / 36525 == k / 100
    ensures (1461 * k / 4 + i) / 146100 == k / 400
  {
    var c, j := k / 100, k % 100;
    Quotient(1461 * k, 4, 36525 * c + 1461 * j / 4, 1461 * j % 4);
    Quotient(1461 * k / 4 + i, 36525, c, 1461 * j / 4 + i);
    var c', j' := k / 400, k % 400;
    Quotient(1461 * k, 4, 146100 * c' + 1461 * j' / 4, 1461 * j' % 4);
    Quotient(1461 * k / 4 + i, 146100, c', 1461 * j' / 4 + i);
  }

  /** Whether the first century estimate of swe_revjul lands in a century with the right gap */
  predicate EstimateHits(date: Date, sys: System) {
    sys == Julian || GapAt(FirstEstimate(DayNumber(date, sys) + 32082)) == Gap(MarchYear(date))
  }

  /** Within this range, about 4.8 million years either way, the two calendars are less than a Julian century apart. */
  predicate GapBelowCentury(date: Date) { -36525 < Gap(MarchYear(date)) < 36525 }

  lemma EstimateHitsInRange(date: Date, sys: System)
    requires Legal(date, sys) && GapBelowCentury(date)
    ensures EstimateHits(date, sys)
  {
    hide DayNumber, Legal, Gap, GapAt, FirstEstimate, MarchYear;
    if sys == Gregorian {
      var y := DayNumber(date, Julian) + 32082;
      var g := Gap(MarchYear(date));
      DayNumbersApart(date);
      GapAtIsGap(date);
      EstimateOffByOne(y - g, g);
      NoLostLeapDay(date);
    }
  }

  lemma DayNumbersApart(date: Date)
    ensures DayNumber(date, Julian) == DayNumber(date, Gregorian) + Gap(MarchYear(date))
    ensures Legal(date, Gregorian) ==> Legal(date, Julian)
  {}

  lemma EstimateOffByOne(x: int, g: int)
    requires -36525 < g < 36525 && GapAt(x + g) == g
    ensures FirstEstimate(x) == x + g || FirstEstimate(x) == x + g + 1
  {
    if g >= 1 {
      GapAtMonotone(x, x + g);
      GapAtMonotone(x + g - 36525, x);
    } else {
      GapAtMonotone(x + g, x);
      GapAtMonotone(x, x + g + 36525);
    }
  }

  lemma GapAtMonotone(x: int, y: int)
    requires x <= y
    ensures GapAt(x) <= GapAt(y)
    ensures GapAt(x + 36525) <= GapAt(x) + 1
  {
    assert (x + 36525) / 36525 == x / 36525 + 1;
    assert x / 146100 == x / 36525 / 4;
    assert y / 146100 == y / 36525 / 4;
    assert (x + 36525) / 146100 == (x + 36525) / 36525 / 4;
  }

  /** The day after a legal Gregorian date never starts a Julian century that the Gregorian calendar skips. */
  lemma NoLostLeapDay(date: Date)
    requires Legal(date, Gregorian)
    ensures GapAt(DayNumber(date, Julian) + 32082 + 1) == Gap(MarchYear(date))
  {
    var next := Succ(date, Julian);
    SuccAddsOne(date, Julian);
    GapAtIsGap(next);
    GapUnchanged(date);
  }

  lemma GapUnchanged(date: Date)
    requires Legal(date, Gregorian)
    ensures Gap(MarchYear(Succ(date, Julian))) == Gap(MarchYear(date))
  {
    var u, v := MarchYear(date), MarchYear(Succ(date, Julian));
    assert v == u || v == u + 1;
    if v == u + 1 {
      assert v % 100 == 0 ==> v % 400 == 0;
      assert v / 100 == u / 100 + (if v % 100 == 0 then 1 else 0);
      assert v / 400 == u / 400 + (if v % 400 == 0 then 1 else 0);
    }
  }

  /** Days since the gap last changed: a century start, of four consecutive ones the first does not change it */
  function SinceChange(y: int): int { y % 36525 + if y / 36525 % 4 == 0 then 36525 else 0 }

  function UntilChange(y: int): int { 36525 - y % 36525 + if y / 36525 % 4 == 3 then 36525 else 0 }

  /** How many days the first estimate of swe_revjul falls short of the day count of the Julian calendar */
  function Shortfall(date: Date): int {
    DayNumber(date, Julian) + 32082 - FirstEstimate(DayNumber(date, Gregorian) + 32082)
  }

  /** The estimate hits if and only if it falls short by no more days than have passed since the gap last changed, and
      goes too far by fewer days than there are until it changes next. */
  lemma EstimateHitsInDays(date: Date)
    requires Legal(date, Gregorian)
    ensures var y := DayNumber(date, Julian) + 32082;
      EstimateHits(date, Gregorian) <==> -UntilChange(y) < Shortfall(date) <= SinceChange(y)
  {
    hide DayNumber, Gap, GapAt, SinceChange, UntilChange;
    var y := DayNumber(date, Julian) + 32082;
    GapAtIsGap(date);
    GapConstant(y, y - Shortfall(date));
  }

  lemma GapConstant(y: int, z: int)
    ensures GapAt(z) == GapAt(y) <==> y - SinceChange(y) <= z < y + UntilChange(y)
  {
    GapAround(y);
    hide GapAt, SinceChange, UntilChange;
    var first, next := y - SinceChange(y), y + UntilChange(y);
    if z < first {
      GapAtMonotone(z, first - 1);
    } else if z < next {
      GapAtMonotone(first, z);
      GapAtMonotone(z, next - 1);
    } else {
      GapAtMonotone(next, z);
    }
  }

  lemma GapAround(y: int)
    ensures var first, next := y - SinceChange(y), y + UntilChange(y);
      && GapAt(first) == GapAt(y) == GapAt(next - 1)
      && GapAt(first - 1) == GapAt(y) - 1 && GapAt(next) == GapAt(y) + 1
  {
    var q, r := y / 36525, y % 36525;
    var a, b := q - (if q % 4 == 0 then 1 else 0), q + (if q % 4 == 3 then 2 else 1);
    assert y - SinceChange(y) == 36525 * a && y + UntilChange(y) == 36525 * b;
    GapOfCentury(q, r);
    GapOfCentury(a, 0);
    GapOfCentury(a - 1, 36524);
    GapOfCentury(b - 1, 36524);
    GapOfCentury(b, 0);
  }

  lemma GapOfCentury(q: int, r: int)
    requires 0 <= r < 36525
    ensures GapAt(36525 * q + r) == q - q / 4 - 38
  {
    Quotient(36525 * q + r, 36525, q, r);
    Quotient(36525 * q + r, 146100, q / 4, 36525 * (q % 4) + r);
  }

  /** swe_revjul undoes swe_julday on exactly those legal dates whose first century estimate hits,
      and then returns the hour unchanged as well. */
  lemma RoundTrip(date: Date, hour: real, sys: System)
    requires Legal(date, sys) && 0.0 <= hour < 24.0
    ensures RevJul(JulDay(date.year, date.month, date.day, hour, sys), sys) == Instant(date, hour)
      <==> EstimateHits(date, sys)
  {
    RevJulOfJulDay(date, hour, sys);
    HitDecides(date, sys);
  }

  lemma RevJulOfJulDay(date: Date, hour: real, sys: System)
    requires 0.0 <= hour < 24.0
    ensures var x := DayNumber(date, sys) + 32082;
      RevJul(JulDay(date.year, date.month, date.day, hour, sys), sys) == Instant(Split(x + Correction(x, sys)), hour)
  {
    JulDayIsDayNumber(date, hour, sys);
    RevJulIsSplit(DayNumber(date, sys), hour / 24.0, sys);
  }

  lemma HitDecides(date: Date, sys: System)
    requires Legal(date, sys)
    ensures var x := DayNumber(date, sys) + 32082;
      Split(x + Correction(x, sys)) == date <==> EstimateHits(date, sys)
  {
    var x := DayNumber(date, sys) + 32082;
    CorrectionHits(date, sys);
    hide Split, DayNumber, Correction, EstimateHits, SystemGap;
    SplitOnlyFrom(date, x + Correction(x, sys));
  }

  lemma CorrectionHits(date: Date, sys: System)
    ensures DayNumber(date, Julian) == DayNumber(date, sys) + SystemGap(MarchYear(date), sys)
    ensures var x := DayNumber(date, sys) + 32082;
      EstimateHits(date, sys) <==> Correction(x, sys) == SystemGap(MarchYear(date), sys)
  {}

  lemma SplitOnlyFrom(date: Date, y: int)
    requires Legal(date, Julian)
    ensures Split(y) == date <==> y == DayNumber(date, Julian) + 32082
  {
    hide Split, DayNumber, Legal;
    SplitInverts(date);
    SplitCovers(y);
  }

  /** Every day count splits into a legal Julian date with that count. */
  lemma SplitCovers(y: int)
    ensures Legal(Split(y), Julian) && DayNumber(Split(y), Julian) + 32082 == y
  {
    var date := DateOf(y - 32082, Julian);
    DayNumberCounts(y - 32082, Julian);
    SplitInverts(date);
  }

  /** Outside the range the correction does fail: 1 March 4870300 comes back as 29 February,
      a day that year does not have. */
  lemma RoundTripFails()
    ensures Legal(Date(4870300, 3, 1), Gregorian) && !Legal(Date(4870300, 2, 29), Gregorian)
    ensures RevJul(JulDay(4870300, 3, 1, 0.0, Gregorian), Gregorian) == Instant(Date(4870300, 2, 29), 0.0)
  {
    FailingCorrection();
    FailingDates();
    RevJulOfJulDay(Date(4870300, 3, 1), 0.0, Gregorian);
  }

  lemma FailingDates()
    ensures DayNumber(Date(4870300, 3, 1), Gregorian) == 1780561667
    ensures Split(1780630274) == Date(4870300, 2, 29)
  {
    SplitInverts(Date(4870300, 2, 29));
  }

  lemma FailingCorrection()
    ensures Correction(1780593749, Gregorian) == 36525
  {
    assert FirstEstimate(1780593749) == 1780630274;
  }

  /** A day the conversion is exact on: any in the Julian calendar; in the Gregorian one, any whose date has a gap below
      a Julian century */
  ghost predicate InRange(n: int, sys: System) { sys == Julian || GapBelowCentury(DateOf(n, sys)) }

  lemma RangeHits(date: Date, sys: System)
    requires Legal(date, sys) && InRange(DayNumber(date, sys), sys)
    ensures EstimateHits(date, sys)
  {
    hide EstimateHits;
    DateOfDayNumber(date, sys);
    if sys == Gregorian {
      EstimateHitsInRange(date, sys);
    } else {
      JulianHits(date);
    }
  }

  lemma JulianHits(date: Date)
    ensures EstimateHits(date, Julian)
  {}

  const JD_LIMIT := 1750000000

  /** Days up to this limit, 4.79 million years either way, are all in range. */
  lemma BelowLimit(n: int, sys: System)
    requires -JD_LIMIT <= n <= JD_LIMIT
    ensures InRange(n, sys)
  {
    hide DateOf;
    var date := DateOf(n, sys);
    DayNumberCounts(n, sys);
    InYearBounds(date, sys);
  }

  /** swe_revjul finds the date that counting days finds, and swe_julday leads back from it. */
  lemma RevJulFindsDate(jd: real, sys: System)
    requires InRange((jd + 0.5).Floor, sys)
    ensures var t := RevJul(jd, sys);
      && t.date == DateOf((jd + 0.5).Floor, sys)
      && Legal(t.date, sys)
      && 0.0 <= t.hour < 24.0
      && JulDay(t.date.year, t.date.month, t.date.day, t.hour, sys) == jd
  {
    var n := (jd + 0.5).Floor;
    var hour := (jd + 0.5 - n as real) * 24.0;
    var date := DateOf(n, sys);
    DayNumberCounts(n, sys);
    RangeHits(date, sys);
    JulDayIsDayNumber(date, hour, sys);
    RoundTrip(date, hour, sys);
  }

  /** swe_date_conversion accepts exactly the legal dates, and counts an overlong day on from the start of its month. */
  lemma DateConversionExact(y: int, m: int, d: int, uttime: real, c: char, sys: System)
    requires sys == if c == 'g' then Gregorian else Julian
    requires 0.0 <= uttime < 24.0 && InRange(DayNumber(Date(y, m, d), sys), sys)
    ensures DateConversion(y, m, d, uttime, c).0 == OK <==> Legal(Date(y, m, d), sys)
    ensures DateConversion(y, m, d, uttime, c).1 == JulDay(y, m, 1, uttime, sys) + (d - 1) as real
  {
    hide RevJul, JulDay, DateOf, DayNumber, Legal, InRange;
    JulDayIsDayNumber(Date(y, m, d), uttime, sys);
    JulDayIsDayNumber(Date(y, m, 1), uttime, sys);
    DayOfMonth(y, m, d, sys);
    RevJulAfterJulDay(Date(y, m, d), uttime, sys);
    if Legal(Date(y, m, d), sys) { DateOfDayNumber(Date(y, m, d), sys); }
  }

  lemma DayOfMonth(y: int, m: int, d: int, sys: System)
    ensures DayNumber(Date(y, m, d), sys) == DayNumber(Date(y, m, 1), sys) + d - 1
  {}

  lemma RevJulAfterJulDay(date: Date, hour: real, sys: System)
    requires 0.0 <= hour < 24.0 && InRange(DayNumber(date, sys), sys)
    ensures var t := RevJul(JulDay(date.year, date.month, date.day, hour, sys), sys);
      t == Instant(DateOf(DayNumber(date, sys), sys), hour) && Legal(t.date, sys)
  {
    var n := DayNumber(date, sys);
    DayNumberCounts(n, sys);
    RangeHits(DateOf(n, sys), sys);
    RoundTrip(DateOf(n, sys), hour, sys);
    JulDayIsDayNumber(date, hour, sys);
    JulDayIsDayNumber(DateOf(n, sys), hour, sys);
  }
}
