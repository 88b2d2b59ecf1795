/** UTC with its leap seconds, and ephemeris time (eph/sweph/src/swedate.c).

    The leap-second table is a sequence of dates written as the integers yyyymmdd. `deltat` stands for
    swe_deltat_ex, which is not part of this model. */
module TimeScales {
  import opened Calendar
  import opened Division
  import opened TimeZones

  datatype Conversion = Invalid | Jd(et: real, ut1: real)

  const J1972 := 2441317.5
  const DAY_1972 := 2441318
  const NLEAP_INIT := 10

  const LEAP_SECONDS := [
    19720630, 19721231, 19731231, 19741231, 19751231, 19761231, 19771231, 19781231, 19791231,
    19810630, 19820630, 19830630, 19850630, 19871231, 19891231, 19901231, 19920630, 19930630,
    19940630, 19951231, 19970630, 19981231, 20051231, 20081231, 20120630, 20150630, 20161231]

  function Encode(date: Date): int { date.year * 10000 + date.month * 100 + date.day }

  function Decode(ndat: int): Date { Date(ndat / 10000, ndat % 10000 / 100, ndat % 100) }

  // ------------------------------------------------------------------ the conversions

  /** Table entries passed over before one not earlier than `ndat` */
  function CountBefore(leaps: seq<int>, ndat: int): nat {
    if leaps == [] || ndat <= leaps[0] then 0 else 1 + CountBefore(leaps[1..], ndat)
  }

  /** Two rounds of the correction that turns ephemeris time into UT1 */
  function Ut1Of(deltat: real -> real, et: real): real { et - deltat(et - deltat(et - deltat(et))) }

  predicate ValidTime(t: Label, midnight: real) {
    && 0 <= t.hour <= 23 && 0 <= t.min <= 59 && 0.0 <= t.sec < 61.0
    && (t.sec >= 60.0 ==> t.min == 59 && t.hour == 23 && midnight >= J1972)
  }

  /** The source takes its input as UT1 when the leap-second table looks out of date. */
  predicate TableOutdated(dt: real, nleap: int) { dt * 86400.0 - nleap as real - 32.184 >= 1.0 }

  const ET_1972 := J1972 + (32.184 + NLEAP_INIT as real) / 86400.0

  function EtOf(midnight: real, t: Label, nleap: int): real {
    var d := midnight - J1972 + (t.hour as real / 24.0 + t.min as real / 1440.0 + t.sec / 86400.0);
    ET_1972 + d + (nleap - NLEAP_INIT) as real / 86400.0
  }

  function FromUt1(deltat: real -> real, ut1: real): Conversion { Jd(ut1 + deltat(ut1), ut1) }

  /** swe_utc_to_jd */
  function UtcToJd(leaps: seq<int>, deltat: real -> real, t: Label, sys: System): Conversion {
    var midnight := JulDay(t.date.year, t.date.month, t.date.day, 0.0, sys);
    if RevJul(midnight, sys).date != t.date || !ValidTime(t, midnight) then Invalid
    else if midnight < J1972 then
      FromUt1(deltat, JulDay(t.date.year, t.date.month, t.date.day, Hours(t), sys))
    else
      var greg := if sys == Julian then RevJul(midnight, Gregorian).date else t.date;
      var nleap := NLEAP_INIT + CountBefore(leaps, Encode(greg));
      if TableOutdated(deltat(midnight), nleap) then FromUt1(deltat, midnight + Hours(t) / 24.0)
      else if t.sec >= 60.0 && Encode(greg) !in leaps then Invalid
      else var et := EtOf(midnight, t, nleap); Jd(et, Ut1Of(deltat, et))
  }

  /** The midnight after the leap second at table place i, as ephemeris time: swe_utc_to_jd of the day after it */
  function EtAfterLeap(leaps: seq<int>, deltat: real -> real, i: nat): Conversion
    requires i < |leaps|
  {
    var date := Decode(leaps[i]);
    var next := RevJul(JulDay(date.year, date.month, date.day, 0.0, Gregorian) + 1.0, Gregorian).date;
    UtcToJd(leaps, deltat, Label(next, 0, 0, 0.0), Gregorian)
  }

  /** Leap seconds before `et`, and 1 inside a leap second; `passed` counts those certainly past. */
  function SettleLeap(leaps: seq<int>, deltat: real -> real, et: real, passed: nat): (int, int) {
    if passed >= |leaps| || EtAfterLeap(leaps, deltat, passed).Invalid? then (passed, 0)
    else
      var d := et - EtAfterLeap(leaps, deltat, passed).et;
      if d >= 0.0 then (passed + 1, 0)
      else if d > -1.0 / 86400.0 then (passed, 1)
      else (passed, 0)
  }

  function LabelOfUt1(ut: real, sys: System): Label { var r := RevJul(ut, sys); AtHours(r.date, r.hour) }

  /** swe_jdet_to_utc */
  function JdetToUtc(leaps: seq<int>, deltat: real -> real, et: real, sys: System): Label {
    if et < ET_1972 then LabelOfUt1(Ut1Of(deltat, et), sys)
    else
      var yesterday := RevJul(Ut1Of(deltat, et) - 1.0, Gregorian).date;
      var (nleap, second60) := SettleLeap(leaps, deltat, et, CountBefore(leaps, Encode(yesterday)));
      var utc := LabelOfUt1(J1972 + (et - ET_1972) - (nleap + second60) as real / 86400.0, Gregorian);
      var dt := deltat(et - deltat(et));
      var out := if TableOutdated(dt, nleap + NLEAP_INIT) then LabelOfUt1(et - dt, Gregorian)
                 else utc.(sec := utc.sec + second60 as real);
      if sys == Julian
      then out.(date := RevJul(JulDay(out.date.year, out.date.month, out.date.day, 0.0, Gregorian), Julian).date)
      else out
  }

  // ------------------------------------------------------------------ the leap-second table

  function LeapDay(leaps: seq<int>, i: int): int
    requires 0 <= i < |leaps|
  {
    DayNumber(Decode(leaps[i]), Gregorian)
  }

  /** Legal dates from 1972 on, in order and at least two days apart, and no more than the source has room for */
  ghost predicate GoodTable(leaps: seq<int>) {
    && |leaps| <= 100
    && (forall i | 0 <= i < |leaps| ::
          Legal(Decode(leaps[i]), Gregorian) && DAY_1972 <= LeapDay(leaps, i) < JD_LIMIT - 2)
    && (forall i, j | 0 <= i < j < |leaps| :: LeapDay(leaps, i) + 2 <= LeapDay(leaps, j))
  }

  /** Leap seconds inserted before the start of day n */
  ghost function LeapsBefore(leaps: seq<int>, n: int): nat { CountBefore(leaps, Encode(DateOf(n, Gregorian))) }

  ghost predicate IsLeapDay(leaps: seq<int>, n: int) { exists i | 0 <= i < |leaps| :: LeapDay(leaps, i) == n }

  /** Ends of June and December from 1972 on, in order: where the rules for UTC put leap seconds first of all */
  predicate HalfYearEnds(leaps: seq<int>) {
    && |leaps| <= 100
    && (forall i | 0 <= i < |leaps| :: leaps[i] % 10000 in {630, 1231} && 19720630 <= leaps[i] < 40000000000)
    && (forall i | 0 < i < |leaps| :: leaps[i - 1] < leaps[i])
  }

  lemma {:induction false} EarlierIsLess(leaps: seq<int>, i: int, j: int)
    requires HalfYearEnds(leaps) && 0 <= i < j < |leaps|
    ensures leaps[i] < leaps[j]
  {
    if i < j - 1 { EarlierIsLess(leaps, i, j - 1); }
  }

  lemma HalfYearEndsAreGood(leaps: seq<int>)
    requires HalfYearEnds(leaps)
    ensures GoodTable(leaps)
  {
    hide DayNumber;
    forall i | 0 <= i < |leaps|
      ensures Legal(Decode(leaps[i]), Gregorian) && DAY_1972 <= LeapDay(leaps, i) < JD_LIMIT - 2
    {
      HalfYearEndInRange(leaps[i]);
    }
    forall i, j | 0 <= i < j < |leaps|
      ensures LeapDay(leaps, i) + 2 <= LeapDay(leaps, j)
    {
      EarlierIsLess(leaps, i, j);
      HalfYearEndsApart(leaps[i], leaps[j]);
    }
  }

  lemma DecodeHalfYearEnd(e: int)
    requires e % 10000 in {630, 1231}
    ensures Decode(e) == Date(e / 10000, if e % 10000 == 630 then 6 else 12, if e % 10000 == 630 then 30 else 31)
  {}

  lemma HalfYearEndInRange(e: int)
    requires e % 10000 in {630, 1231} && 19720630 <= e < 40000000000
    ensures Legal(Decode(e), Gregorian) && DAY_1972 <= DayNumber(Decode(e), Gregorian) < JD_LIMIT - 2
  {
    hide Decode;
    DecodeHalfYearEnd(e);
    assert 1972 <= e / 10000 < 4000000;
    YearInRange(Decode(e));
  }

  lemma YearInRange(date: Date)
    requires Legal(date, Gregorian) && 1972 <= date.year < 4000000 && date != Date(1972, 1, 1)
    ensures DAY_1972 <= DayNumber(date, Gregorian) < JD_LIMIT - 2
  {
    var first, last := Date(1972, 1, 1), Date(4000000, 1, 1);
    assert DayNumber(first, Gregorian) == DAY_1972 && DayNumber(last, Gregorian) < JD_LIMIT - 2;
    hide DayNumber;
    DayNumberIncreases(first, date, Gregorian);
    DayNumberIncreases(date, last, Gregorian);
  }

  lemma HalfYearEndsApart(e: int, e': int)
    requires e % 10000 in {630, 1231} && e' % 10000 in {630, 1231} && e < e'
    ensures DayNumber(Decode(e), Gregorian) + 2 <= DayNumber(Decode(e'), Gregorian)
  {
    hide DayNumber, Decode;
    DecodeHalfYearEnd(e);
    DecodeHalfYearEnd(e');
    assert e / 10000 <= e' / 10000;
    assert e / 10000 == e' / 10000 ==> e % 10000 < e' % 10000;
    SuccAddsOne(Decode(e), Gregorian);
    DayNumberIncreases(Succ(Decode(e), Gregorian), Decode(e'), Gregorian);
  }

  lemma SourceTableIsGood()
    ensures GoodTable(LEAP_SECONDS)
  {
    hide GoodTable;
    SourceTableEnds();
    SourceTableRises();
    assert |LEAP_SECONDS| == 27;
    hide LEAP_SECONDS;
    HalfYearEndsAreGood(LEAP_SECONDS);
  }

  lemma SourceTableEnds()
    ensures forall i | 0 <= i < |LEAP_SECONDS| ::
      LEAP_SECONDS[i] % 10000 in {630, 1231} && 19720630 <= LEAP_SECONDS[i] < 40000000000
  {}

  lemma SourceTableRises()
    ensures forall i | 0 < i < |LEAP_SECONDS| :: LEAP_SECONDS[i - 1] < LEAP_SECONDS[i]
  {}

  lemma EncodeOrder(a: Date, b: Date)
    requires Legal(a, Gregorian) && Legal(b, Gregorian)
    ensures Encode(a) < Encode(b) <==> DayNumber(a, Gregorian) < DayNumber(b, Gregorian)
    ensures Encode(a) == Encode(b) <==> DayNumber(a, Gregorian) == DayNumber(b, Gregorian)
  {
    hide DayNumber, Encode, Before, Legal;
    EncodeBefore(a, b);
    EncodeBefore(b, a);
    if Before(a, b) { DayNumberIncreases(a, b, Gregorian); }
    if Before(b, a) { DayNumberIncreases(b, a, Gregorian); }
  }

  lemma EncodeBefore(a: Date, b: Date)
    requires Legal(a, Gregorian) && Legal(b, Gregorian)
    ensures Before(a, b) ==> Encode(a) < Encode(b)
    ensures Before(a, b) || Before(b, a) || a == b
  {}

  lemma EncodeDecode(e: int)
    ensures Encode(Decode(e)) == e
  {
    var rest := e % 10000;
    assert e == 10000 * (e / 10000) + rest;
    assert rest == 100 * (rest / 100) + rest % 100;
    Quotient(e, 100, 100 * (e / 10000) + rest / 100, rest % 100);
  }

  lemma {:induction false} CountBeforeStops(leaps: seq<int>, ndat: int)
    ensures var c := CountBefore(leaps, ndat);
      && c <= |leaps|
      && (forall i | 0 <= i < c :: leaps[i] < ndat)
      && (c < |leaps| ==> ndat <= leaps[c])
  {
    if leaps != [] && ndat > leaps[0] { CountBeforeStops(leaps[1..], ndat); }
  }

  /** The count splits the table: the leap seconds before day n are the first ones, and only those. */
  lemma LeapsBeforeSplits(leaps: seq<int>, n: int)
    requires GoodTable(leaps)
    ensures var c := LeapsBefore(leaps, n);
      && c <= |leaps|
      && (forall i | 0 <= i < |leaps| :: LeapDay(leaps, i) < n <==> i < c)
  {
    var today := DateOf(n, Gregorian);
    var c := LeapsBefore(leaps, n);
    DayNumberCounts(n, Gregorian);
    CountBeforeStops(leaps, Encode(today));
    forall i | 0 <= i < |leaps|
      ensures leaps[i] < Encode(today) <==> LeapDay(leaps, i) < n
    {
      EncodeDecode(leaps[i]);
      EncodeOrder(Decode(leaps[i]), today);
    }
  }

  lemma LeapsBeforeMonotone(leaps: seq<int>, n: int, m: int)
    requires GoodTable(leaps) && n <= m
    ensures LeapsBefore(leaps, n) <= LeapsBefore(leaps, m)
    ensures m <= n + 2 ==> LeapsBefore(leaps, m) <= LeapsBefore(leaps, n) + 1
  {
    LeapsBeforeSplits(leaps, n);
    LeapsBeforeSplits(leaps, m);
    hide LeapsBefore, LeapDay;
    var c, c' := LeapsBefore(leaps, n), LeapsBefore(leaps, m);
    if c > 0 { assert LeapDay(leaps, c - 1) < n; }
    if c < c' { assert LeapDay(leaps, c) >= n && LeapDay(leaps, c' - 1) < m; }
  }

  /** The count goes up by one after a leap day. */
  lemma LeapsBeforeStep(leaps: seq<int>, n: int)
    requires GoodTable(leaps)
    ensures LeapsBefore(leaps, n + 1) == LeapsBefore(leaps, n) + (if IsLeapDay(leaps, n) then 1 else 0)
  {
    LeapsBeforeSplits(leaps, n);
    LeapsBeforeSplits(leaps, n + 1);
    LeapsBeforeMonotone(leaps, n, n + 1);
    hide LeapsBefore, LeapDay;
    var c, c' := LeapsBefore(leaps, n), LeapsBefore(leaps, n + 1);
    if IsLeapDay(leaps, n) {
      var i :| 0 <= i < |leaps| && LeapDay(leaps, i) == n;
      assert c <= i < c';
    } else if c' > 0 {
      assert LeapDay(leaps, c' - 1) < n + 1;
    }
  }

  lemma InTableIsLeapDay(leaps: seq<int>, n: int)
    requires GoodTable(leaps)
    ensures Encode(DateOf(n, Gregorian)) in leaps <==> IsLeapDay(leaps, n)
  {
    var today := DateOf(n, Gregorian);
    DayNumberCounts(n, Gregorian);
    forall i | 0 <= i < |leaps|
      ensures leaps[i] == Encode(today) <==> LeapDay(leaps, i) == n
    {
      EncodeDecode(leaps[i]);
      EncodeOrder(Decode(leaps[i]), today);
    }
  }

  // ------------------------------------------------------------------ UTC to ephemeris time

  function Seconds(t: Label): real { t.hour as real * 3600.0 + t.min as real * 60.0 + t.sec }

  /** Ephemeris time `secs` seconds into day n, when `c` leap seconds came before that day */
  function TimeAt(n: int, secs: real, c: int): real {
    ET_1972 + (n - DAY_1972) as real + (secs + c as real) / 86400.0
  }

  /** A label that the rules for UTC allow: a legal date from 1972 on, and a second 60 only in a leap second */
  ghost predicate ValidUtc(leaps: seq<int>, t: Label, sys: System) {
    && Legal(t.date, sys) && DayNumber(t.date, sys) >= DAY_1972
    && 0 <= t.hour <= 23 && 0 <= t.min <= 59 && 0.0 <= t.sec < 61.0
    && (t.sec >= 60.0 ==> t.hour == 23 && t.min == 59 && IsLeapDay(leaps, DayNumber(t.date, sys)))
  }

  /** Up to day `last`, which comes after all leap seconds of the table, UT1 stays within one second of UTC, also when
      read with the leap-second count of the neighbouring day during the quarter of an hour around midnight. */
  ghost predicate TracksUtc(deltat: real -> real, leaps: seq<int>, last: int) {
    && (forall i | 0 <= i < |leaps| :: LeapDay(leaps, i) < last)
    && forall n: int, jd: real | DAY_1972 <= n <= last && n as real - 0.51 <= jd <= n as real + 0.51 ::
         -1.0 < deltat(jd) * 86400.0 - 32.184 - (NLEAP_INIT + LeapsBefore(leaps, n)) as real < 1.0
  }

  /** Days that every conversion below is exact on, with the day after them */
  predicate Convertible(n: int) { DAY_1972 <= n < JD_LIMIT - 1 }

  /** ... and on which UT1 is known to track UTC */
  predicate Covered(n: int, last: int) { Convertible(n) && n <= last }

  /** A delta T that follows the leap seconds, half a second early and late around each */
  ghost function Following(leaps: seq<int>, jd: real): real {
    (42.184 + (LeapsBefore(leaps, (jd + 0.485).Floor) + LeapsBefore(leaps, (jd + 0.515).Floor)) as real / 2.0) / 86400.0
  }

  lemma FollowingNear(leaps: seq<int>, n: int, jd: real)
    requires n as real - 0.51 <= jd <= n as real + 0.51
    ensures Following(leaps, jd) * 86400.0 - 42.184 in {
      LeapsBefore(leaps, n) as real,
      (LeapsBefore(leaps, n - 1) + LeapsBefore(leaps, n)) as real / 2.0,
      (LeapsBefore(leaps, n) + LeapsBefore(leaps, n + 1)) as real / 2.0}
  {
    hide LeapsBefore;
    var a, b := (jd + 0.485).Floor, (jd + 0.515).Floor;
    assert n - 1 <= a <= n && n <= b <= n + 1 && b <= a + 1;
  }

  /** The hypothesis can be met for every table, up to any day after its leap seconds. */
  lemma TracksUtcCanBeMet(leaps: seq<int>, last: int)
    requires GoodTable(leaps) && forall i | 0 <= i < |leaps| :: LeapDay(leaps, i) < last
    ensures TracksUtc(jd => Following(leaps, jd), leaps, last)
  {
    forall n: int, jd: real | DAY_1972 <= n <= last && n as real - 0.51 <= jd <= n as real + 0.51
      ensures -1.0 < Following(leaps, jd) * 86400.0 - 32.184 - (NLEAP_INIT + LeapsBefore(leaps, n)) as real < 1.0
    {
      hide LeapsBefore, GoodTable, Following;
      LeapsBeforeMonotone(leaps, n - 1, n);
      LeapsBeforeMonotone(leaps, n, n + 1);
      FollowingNear(leaps, n, jd);
    }
    hide Following, LeapsBefore;
  }

  lemma MidnightOf(date: Date, sys: System)
    ensures JulDay(date.year, date.month, date.day, 0.0, sys) == DayNumber(date, sys) as real - 0.5
    ensures InRange(DayNumber(date, sys), sys) ==>
      RevJul(JulDay(date.year, date.month, date.day, 0.0, sys), sys).date == DateOf(DayNumber(date, sys), sys)
  {
    hide RevJul, JulDay, DayNumber;
    JulDayIsDayNumber(date, 0.0, sys);
    if InRange(DayNumber(date, sys), sys) { RevJulAfterJulDay(date, 0.0, sys); }
  }

  lemma DateAt(n: int, f: real, sys: System)
    requires 0.0 <= f < 1.0 && InRange(n, sys)
    ensures RevJul(n as real - 0.5 + f, sys) == Instant(DateOf(n, sys), f * 24.0)
  {
    hide RevJul, JulDay, DayNumber, Legal;
    DayNumberCounts(n, sys);
    var date := DateOf(n, sys);
    JulDayIsDayNumber(date, f * 24.0, sys);
    RevJulAfterJulDay(date, f * 24.0, sys);
  }

  /** From 1972 on, swe_utc_to_jd accepts exactly the valid UTC labels, and counts SI seconds. */
  lemma UtcToJdCounts(leaps: seq<int>, deltat: real -> real, last: int, t: Label, sys: System)
    requires GoodTable(leaps) && TracksUtc(deltat, leaps, last) && Covered(DayNumber(t.date, sys), last)
    ensures UtcToJd(leaps, deltat, t, sys) ==
      if ValidUtc(leaps, t, sys) then
        var n := DayNumber(t.date, sys);
        var et := TimeAt(n, Seconds(t), LeapsBefore(leaps, n));
        Jd(et, Ut1Of(deltat, et))
      else Invalid
  {
    hide RevJul, JulDay, DayNumber, Hours, Ut1Of;
    var n := DayNumber(t.date, sys);
    MidnightOf(t.date, sys);
    DayNumberCounts(n, sys);
    BelowLimit(n, Gregorian);
    DateAt(n, 0.0, Gregorian);
    DateOfIsLegal(t.date, sys);
    InTableIsLeapDay(leaps, n);
    assert !TableOutdated(deltat(n as real - 0.5), NLEAP_INIT + LeapsBefore(leaps, n));
  }

  lemma DateOfIsLegal(date: Date, sys: System)
    ensures DateOf(DayNumber(date, sys), sys) == date <==> Legal(date, sys)
  {
    DayNumberCounts(DayNumber(date, sys), sys);
    if Legal(date, sys) { DateOfDayNumber(date, sys); }
  }

  // ------------------------------------------------------------------ ephemeris time counts SI seconds

  /** A UTC day has one second more if a leap second was inserted at its end. */
  ghost function DayLength(leaps: seq<int>, n: int): int { if IsLeapDay(leaps, n) then 86401 else 86400 }

  ghost function SecondsSince1972(leaps: seq<int>, n: int): int
    requires n >= DAY_1972
    decreases n
  {
    if n == DAY_1972 then 0 else SecondsSince1972(leaps, n - 1) + DayLength(leaps, n - 1)
  }

  /** Ephemeris time runs on through midnight and leap second alike: it is the count of UTC seconds since 1972. */
  lemma {:induction false} EtCountsSeconds(leaps: seq<int>, n: int, secs: real)
    requires GoodTable(leaps) && n >= DAY_1972
    ensures TimeAt(n, secs, LeapsBefore(leaps, n)) ==
      ET_1972 + (SecondsSince1972(leaps, n) as real + secs) / 86400.0
    decreases n
  {
    hide LeapsBefore, IsLeapDay;
    if n == DAY_1972 {
      LeapsBeforeSplits(leaps, n);
      if leaps != [] { assert LeapDay(leaps, 0) >= DAY_1972; }
    } else {
      EtCountsSeconds(leaps, n - 1, secs);
      LeapsBeforeStep(leaps, n - 1);
    }
  }

  lemma {:induction false} SecondsIncrease(leaps: seq<int>, n: int, m: int)
    requires DAY_1972 <= n < m
    ensures SecondsSince1972(leaps, n) + DayLength(leaps, n) <= SecondsSince1972(leaps, m)
    decreases m
  {
    hide IsLeapDay;
    if n < m - 1 { SecondsIncrease(leaps, n, m - 1); }
  }

  /** Different labels are different instants, in the order of the labels. */
  lemma EtIncreases(leaps: seq<int>, deltat: real -> real, last: int, t: Label, t': Label, sys: System)
    requires GoodTable(leaps) && TracksUtc(deltat, leaps, last) && ValidUtc(leaps, t, sys) && ValidUtc(leaps, t', sys)
    requires Covered(DayNumber(t.date, sys), last) && Covered(DayNumber(t'.date, sys), last)
    requires Before(t.date, t'.date) || (t.date == t'.date && Seconds(t) < Seconds(t'))
    ensures var a, b := UtcToJd(leaps, deltat, t, sys), UtcToJd(leaps, deltat, t', sys);
      a.Jd? && b.Jd? && a.et < b.et
  {
    hide UtcToJd, Ut1Of, DayNumber, Legal, IsLeapDay, LeapsBefore, TimeAt;
    UtcToJdCounts(leaps, deltat, last, t, sys);
    UtcToJdCounts(leaps, deltat, last, t', sys);
    if Before(t.date, t'.date) { DayNumberIncreases(t.date, t'.date, sys); }
    var n, n' := DayNumber(t.date, sys), DayNumber(t'.date, sys);
    EtCountsSeconds(leaps, n, Seconds(t));
    EtCountsSeconds(leaps, n', Seconds(t'));
    if n < n' { SecondsIncrease(leaps, n, n'); }
  }

  // ------------------------------------------------------------------ and back

  lemma Ut1Near(leaps: seq<int>, deltat: real -> real, last: int, n: int, secs: real)
    requires GoodTable(leaps) && TracksUtc(deltat, leaps, last) && DAY_1972 <= n <= last && 0.0 <= secs < 86401.0
    ensures var et := TimeAt(n, secs, LeapsBefore(leaps, n));
      && n as real - 0.5 + (secs - 1.0) / 86400.0 < Ut1Of(deltat, et) < n as real - 0.5 + (secs + 1.0) / 86400.0
      && !TableOutdated(deltat(et - deltat(et)), LeapsBefore(leaps, n) + NLEAP_INIT)
  {
    LeapsBeforeSplits(leaps, n);
    hide LeapsBefore, LeapDay;
    var c := LeapsBefore(leaps, n);
    var et := TimeAt(n, secs, c);
    assert et == n as real - 0.5 + (42.184 + secs + c as real) / 86400.0;
    Tracked(leaps, deltat, last, n, et);
    Tracked(leaps, deltat, last, n, et - deltat(et));
    Tracked(leaps, deltat, last, n, et - deltat(et - deltat(et)));
  }

  lemma Tracked(leaps: seq<int>, deltat: real -> real, last: int, n: int, jd: real)
    requires TracksUtc(deltat, leaps, last) && DAY_1972 <= n <= last && n as real - 0.51 <= jd <= n as real + 0.51
    ensures -1.0 < deltat(jd) * 86400.0 - 42.184 - LeapsBefore(leaps, n) as real < 1.0
  {
    hide LeapsBefore;
  }

  /** The day before by UT1 is at most two days back, so it misses at most one leap second. */
  lemma CountOfYesterday(leaps: seq<int>, n: int, secs: real, ut: real)
    requires GoodTable(leaps) && Convertible(n) && 0.0 <= secs < 86401.0
    requires n as real - 0.5 + (secs - 1.0) / 86400.0 < ut < n as real - 0.5 + (secs + 1.0) / 86400.0
    ensures var passed := CountBefore(leaps, Encode(RevJul(ut - 1.0, Gregorian).date));
      && passed <= LeapsBefore(leaps, n) <= passed + 1
      && (secs >= 86400.0 && IsLeapDay(leaps, n) ==> passed == LeapsBefore(leaps, n))
  {
    hide RevJul, Encode, IsLeapDay, GoodTable, JulDay, Legal;
    var m := (ut - 1.0 + 0.5).Floor;
    assert n - 2 <= m <= n;
    BelowLimit(m, Gregorian);
    RevJulFindsDate(ut - 1.0, Gregorian);
    LeapsBeforeMonotone(leaps, m, n);
    if secs >= 86400.0 && IsLeapDay(leaps, n) {
      LeapsBeforeMonotone(leaps, m, n + 1);
      LeapsBeforeStep(leaps, n);
    }
  }

  /** After leap second i, i + 1 leap seconds have passed. */
  lemma CountAfterLeap(leaps: seq<int>, i: nat)
    requires GoodTable(leaps) && i < |leaps|
    ensures LeapsBefore(leaps, LeapDay(leaps, i) + 1) == i + 1
  {
    var l := LeapDay(leaps, i);
    LeapsBeforeSplits(leaps, l + 1);
    hide LeapsBefore, LeapDay;
    assert LeapDay(leaps, i) < l + 1;
    if i + 1 < |leaps| { assert LeapDay(leaps, i + 1) >= l + 2; }
  }

  lemma EtAfterLeapIsMidnight(leaps: seq<int>, deltat: real -> real, i: nat)
    requires GoodTable(leaps) && i < |leaps|
    ensures EtAfterLeap(leaps, deltat, i) ==
      UtcToJd(leaps, deltat, Label(DateOf(LeapDay(leaps, i) + 1, Gregorian), 0, 0, 0.0), Gregorian)
  {
    hide RevJul, JulDay, UtcToJd, DayNumber, Legal, Decode;
    MidnightOf(Decode(leaps[i]), Gregorian);
    BelowLimit(LeapDay(leaps, i), Gregorian);
    BelowLimit(LeapDay(leaps, i) + 1, Gregorian);
    DateAt(LeapDay(leaps, i) + 1, 0.0, Gregorian);
  }

  lemma MidnightIsValid(leaps: seq<int>, n: int)
    requires n >= DAY_1972
    ensures var t := Label(DateOf(n, Gregorian), 0, 0, 0.0);
      ValidUtc(leaps, t, Gregorian) && DayNumber(t.date, Gregorian) == n && Seconds(t) == 0.0
  {
    DayNumberCounts(n, Gregorian);
  }

  lemma UtcToJdOfMidnight(leaps: seq<int>, deltat: real -> real, last: int, n: int)
    requires GoodTable(leaps) && TracksUtc(deltat, leaps, last) && Covered(n, last)
    ensures var jd := UtcToJd(leaps, deltat, Label(DateOf(n, Gregorian), 0, 0, 0.0), Gregorian);
      jd.Jd? && jd.et == TimeAt(n, 0.0, LeapsBefore(leaps, n))
  {
    hide UtcToJd, LeapsBefore, DayNumber, TimeAt, GoodTable, TracksUtc, DateOf, Ut1Of, ValidUtc, Seconds;
    MidnightIsValid(leaps, n);
    UtcToJdCounts(leaps, deltat, last, Label(DateOf(n, Gregorian), 0, 0, 0.0), Gregorian);
  }

  lemma EtAfterLeapCounts(leaps: seq<int>, deltat: real -> real, last: int, i: nat)
    requires GoodTable(leaps) && TracksUtc(deltat, leaps, last) && i < |leaps|
    ensures EtAfterLeap(leaps, deltat, i).Jd?
    ensures EtAfterLeap(leaps, deltat, i).et == TimeAt(LeapDay(leaps, i) + 1, 0.0, i + 1)
  {
    hide EtAfterLeap, UtcToJd, LeapsBefore, LeapDay, TimeAt, TracksUtc, DateOf, Decode, Legal;
    EtAfterLeapIsMidnight(leaps, deltat, i);
    LeapDayCovered(leaps, deltat, last, i);
    CountAfterLeap(leaps, i);
    UtcToJdOfMidnight(leaps, deltat, last, LeapDay(leaps, i) + 1);
  }

  lemma LeapDayCovered(leaps: seq<int>, deltat: real -> real, last: int, i: nat)
    requires GoodTable(leaps) && TracksUtc(deltat, leaps, last) && i < |leaps|
    ensures Covered(LeapDay(leaps, i) + 1, last)
  {
    hide LeapDay, LeapsBefore, Decode, Legal;
  }

  lemma NextLeap(leaps: seq<int>, n: int)
    requires GoodTable(leaps)
    ensures var c := LeapsBefore(leaps, n);
      && c <= |leaps|
      && (c < |leaps| ==> LeapDay(leaps, c) >= n)
      && (IsLeapDay(leaps, n) <==> c < |leaps| && LeapDay(leaps, c) == n)
      && (c > 0 ==> LeapDay(leaps, c - 1) < n)
  {
    LeapsBeforeSplits(leaps, n);
    hide LeapsBefore, LeapDay;
    if IsLeapDay(leaps, n) {
      var i :| 0 <= i < |leaps| && LeapDay(leaps, i) == n;
      assert LeapsBefore(leaps, n) <= i;
    }
  }

  lemma EndOfLeapSecond(n: int, l: int, secs: real, c: int)
    requires 0.0 <= secs < 86401.0
    ensures l < n ==> TimeAt(n, secs, c) - TimeAt(l + 1, 0.0, c) >= 0.0
    ensures l == n ==> TimeAt(n, secs, c) - TimeAt(l + 1, 0.0, c + 1) == (secs - 86401.0) / 86400.0
    ensures l > n && secs < 86400.0 ==> TimeAt(n, secs, c) - TimeAt(l + 1, 0.0, c + 1) < -1.0
  {
    var d, k := TimeAt(n, secs, c) - TimeAt(l + 1, 0.0, c), n - l - 1;
    assert d == k as real + secs / 86400.0;
    assert l < n ==> k as real >= 0.0;
    assert l > n ==> k as real <= -2.0;
  }

  /** Comparing with the end of the next leap second settles the count, and tells whether `et` lies inside it. */
  lemma SettleLeapCounts(leaps: seq<int>, deltat: real -> real, last: int, n: int, secs: real, passed: nat)
    requires GoodTable(leaps) && TracksUtc(deltat, leaps, last) && DAY_1972 <= n <= last && 0.0 <= secs < 86401.0
    requires secs >= 86400.0 ==> IsLeapDay(leaps, n) && passed == LeapsBefore(leaps, n)
    requires passed <= LeapsBefore(leaps, n) <= passed + 1
    ensures SettleLeap(leaps, deltat, TimeAt(n, secs, LeapsBefore(leaps, n)), passed) ==
      (LeapsBefore(leaps, n), if secs > 86400.0 then 1 else 0)
  {
    hide LeapsBefore, LeapDay, EtAfterLeap, GoodTable, TracksUtc, IsLeapDay, TimeAt;
    NextLeap(leaps, n);
    if passed < |leaps| {
      EtAfterLeapCounts(leaps, deltat, last, passed);
      EndOfLeapSecond(n, LeapDay(leaps, passed), secs, LeapsBefore(leaps, n));
    }
  }

  /** The label `secs` seconds into a day of 86400 seconds */
  function AtSeconds(date: Date, secs: real): Label { AtHours(date, secs / 3600.0) }

  lemma AtSecondsFacts(date: Date, date': Date, secs: real)
    ensures AtHours(date, secs / 86400.0 * 24.0) == AtSeconds(date, secs)
    ensures AtSeconds(date, secs).(date := date') == AtSeconds(date', secs)
    ensures AtSeconds(date, 0.0) == Label(date, 0, 0, 0.0)
  {
    assert secs / 86400.0 * 24.0 == secs / 3600.0;
  }

  /** What the label of an instant shows: the day and second it was counted from. Only the first instant of a
      leap second, 23:59:60.0 exactly, comes out as 0:00:00 of the next day. */
  ghost function Reading(n: int, secs: real, sys: System): Label {
    if secs < 86400.0 then AtSeconds(DateOf(n, sys), secs)
    else if secs == 86400.0 then Label(DateOf(n + 1, sys), 0, 0, 0.0)
    else var t := AtSeconds(DateOf(n, sys), secs - 1.0); t.(sec := t.sec + 1.0)
  }

  lemma SettledReading(n: int, secs: real, c: int)
    requires Convertible(n) && 0.0 <= secs < 86401.0
    ensures var second60 := if secs > 86400.0 then 1 else 0;
      var utc := LabelOfUt1(J1972 + (TimeAt(n, secs, c) - ET_1972) - (c + second60) as real / 86400.0, Gregorian);
      utc.(sec := utc.sec + second60 as real) == Reading(n, secs, Gregorian)
  {
    hide RevJul, AtHours, AtSeconds, DateOf;
    var second60 := if secs > 86400.0 then 1 else 0;
    var m := if secs == 86400.0 then n + 1 else n;
    var s := if secs == 86400.0 then 0.0 else secs - second60 as real;
    assert J1972 + (TimeAt(n, secs, c) - ET_1972) - (c + second60) as real / 86400.0 == m as real - 0.5 + s / 86400.0;
    BelowLimit(m, Gregorian);
    DateAt(m, s / 86400.0, Gregorian);
    AtSecondsFacts(DateOf(m, Gregorian), DateOf(m, Gregorian), s);
  }

  lemma JdetToUtcReads(leaps: seq<int>, deltat: real -> real, last: int, n: int, secs: real, sys: System)
    requires GoodTable(leaps) && TracksUtc(deltat, leaps, last) && Covered(n, last) && 0.0 <= secs < 86401.0
    requires secs >= 86400.0 ==> IsLeapDay(leaps, n)
    ensures JdetToUtc(leaps, deltat, TimeAt(n, secs, LeapsBefore(leaps, n)), sys) == Reading(n, secs, sys)
  {
    hide RevJul, JulDay, LeapsBefore, GoodTable, TracksUtc, IsLeapDay, SettleLeap, Ut1Of, AtHours, DateOf, LabelOfUt1,
      Reading, CountBefore, Encode;
    var c := LeapsBefore(leaps, n);
    var et := TimeAt(n, secs, c);
    assert et >= ET_1972;
    Ut1Near(leaps, deltat, last, n, secs);
    CountOfYesterday(leaps, n, secs, Ut1Of(deltat, et));
    SettleLeapCounts(leaps, deltat, last, n, secs,
      CountBefore(leaps, Encode(RevJul(Ut1Of(deltat, et) - 1.0, Gregorian).date)));
    SettledReading(n, secs, c);
    ReadingInJulian(n, secs);
  }

  lemma ReadingInJulian(n: int, secs: real)
    requires Convertible(n)
    ensures var t := Reading(n, secs, Gregorian);
      t.(date := RevJul(JulDay(t.date.year, t.date.month, t.date.day, 0.0, Gregorian), Julian).date)
        == Reading(n, secs, Julian)
  {
    hide RevJul, JulDay, AtSeconds, DateOf;
    var m := if secs == 86400.0 then n + 1 else n;
    var s := if secs <= 86400.0 then secs else secs - 1.0;
    DateInJulian(m);
    AtSecondsFacts(DateOf(m, Gregorian), DateOf(m, Julian), s);
    AtSecondsFacts(DateOf(m, Gregorian), DateOf(m, Gregorian), s);
  }

  lemma DateInJulian(n: int)
    requires Convertible(n) || Convertible(n - 1)
    ensures var date := DateOf(n, Gregorian);
      RevJul(JulDay(date.year, date.month, date.day, 0.0, Gregorian), Julian).date == DateOf(n, Julian)
  {
    hide RevJul, JulDay;
    DayNumberCounts(n, Gregorian);
    MidnightOf(DateOf(n, Gregorian), Gregorian);
    DateAt(n, 0.0, Julian);
  }

  lemma ReadingShowsLabel(leaps: seq<int>, t: Label, sys: System)
    requires ValidUtc(leaps, t, sys)
    ensures Reading(DayNumber(t.date, sys), Seconds(t), sys) ==
      if t.sec == 60.0 then Label(DateOf(DayNumber(t.date, sys) + 1, sys), 0, 0, 0.0) else t
  {
    hide IsLeapDay, DayNumber, DateOf, AtHours;
    DateOfDayNumber(t.date, sys);
    AtHoursInvertsHours(if t.sec >= 60.0 then t.(sec := t.sec - 1.0) else t);
    assert Hours(t) == Seconds(t) / 3600.0;
    assert Hours(t.(sec := t.sec - 1.0)) == (Seconds(t) - 1.0) / 3600.0;
  }

  /** UTC labels survive the way to ephemeris time and back, also inside a leap second, in both calendars;
      the one exception is the first instant of a leap second. */
  lemma UtcRoundTrip(leaps: seq<int>, deltat: real -> real, last: int, t: Label, sys: System)
    requires GoodTable(leaps) && TracksUtc(deltat, leaps, last) && Covered(DayNumber(t.date, sys), last)
    requires ValidUtc(leaps, t, sys)
    ensures var jd := UtcToJd(leaps, deltat, t, sys);
      jd.Jd? && (JdetToUtc(leaps, deltat, jd.et, sys) == t <==> t.sec != 60.0)
  {
    hide UtcToJd, JdetToUtc, Reading, TimeAt, LeapsBefore, DayNumber, GoodTable, TracksUtc, DateOf, Ut1Of, IsLeapDay;
    UtcToJdCounts(leaps, deltat, last, t, sys);
    JdetToUtcReads(leaps, deltat, last, DayNumber(t.date, sys), Seconds(t), sys);
    ReadingShowsLabel(leaps, t, sys);
  }

  // ------------------------------------------------------------------ the source's loops

  /** The loop of both conversions that counts table entries before a date */
  method CountLeapSeconds(leaps: seq<int>, ndat: int, start: int) returns (nleap: int)
    ensures nleap == start + CountBefore(leaps, ndat)
  {
    nleap := start;
    var i := 0;
    while i < |leaps|
      invariant 0 <= i <= |leaps| && nleap + CountBefore(leaps[i..], ndat) == start + CountBefore(leaps, ndat)
    {
      assert leaps[i..][1..] == leaps[i + 1..];
      if ndat <= leaps[i] { break; }
      nleap := nleap + 1;
      i := i + 1;
    }
    assert i == |leaps| ==> leaps[i..] == [];
  }

  /** The loop of swe_utc_to_jd that looks a date up in the table */
  method FindLeapSecond(leaps: seq<int>, ndat: int) returns (found: bool)
    ensures found <==> ndat in leaps
  {
    found := false;
    for i := 0 to |leaps|
      invariant !found && ndat !in leaps[..i]
    {
      if ndat == leaps[i] {
        found := true;
        break;
      }
    }
  }

  /** swe_utc_to_jd, step by step */
  method ComputeUtcToJd(leaps: seq<int>, deltat: real -> real, t: Label, sys: System) returns (r: Conversion)
    ensures r == UtcToJd(leaps, deltat, t, sys)
  {
    hide RevJul, JulDay, Hours, Encode, CountBefore, ValidTime, TableOutdated, FromUt1;
    var midnight := JulDay(t.date.year, t.date.month, t.date.day, 0.0, sys);
    if RevJul(midnight, sys).date != t.date { return Invalid; }
    if !ValidTime(t, midnight) { return Invalid; }
    if midnight < J1972 {
      return FromUt1(deltat, JulDay(t.date.year, t.date.month, t.date.day, Hours(t), sys));
    }
    var date := t.date;
    if sys == Julian { date := RevJul(midnight, Gregorian).date; }
    var ndat := Encode(date);
    var nleap := CountLeapSeconds(leaps, ndat, NLEAP_INIT);
    if TableOutdated(deltat(midnight), nleap) { return FromUt1(deltat, midnight + Hours(t) / 24.0); }
    if t.sec >= 60.0 {
      var found := FindLeapSecond(leaps, ndat);
      if !found { return Invalid; }
    }
    var d := midnight - J1972;
    d := d + (t.hour as real / 24.0 + t.min as real / 1440.0 + t.sec / 86400.0);
    var et := ET_1972 + d + (nleap - NLEAP_INIT) as real / 86400.0;
    d := deltat(et);
    var ut1 := et - deltat(et - d);
    ut1 := et - deltat(ut1);
    return Jd(et, ut1);
  }

  /** swe_jdet_to_utc, step by step */
  method ComputeJdetToUtc(leaps: seq<int>, deltat: real -> real, et: real, sys: System) returns (t: Label)
    ensures t == JdetToUtc(leaps, deltat, et, sys)
  {
    hide RevJul, JulDay, AtHours, UtcToJd;
    var d := deltat(et);
    var ut := et - deltat(et - d);
    ut := et - deltat(ut);
    if et < ET_1972 {
      var r := RevJul(ut, sys);
      return AtHours(r.date, r.hour);
    }
    var second60 := 0;
    var nleap := CountLeapSeconds(leaps, Encode(RevJul(ut - 1.0, Gregorian).date), 0);
    if nleap < |leaps| {
      var date := Decode(leaps[nleap]);
      var tjd := JulDay(date.year, date.month, date.day, 0.0, Gregorian);
      date := RevJul(tjd + 1.0, Gregorian).date;
      var next := ComputeUtcToJd(leaps, deltat, Label(date, 0, 0, 0.0), Gregorian);
      if next.Jd? {
        d := et - next.et;
        if d >= 0.0 {
          nleap := nleap + 1;
        } else if d < 0.0 && d > -1.0 / 86400.0 {
          second60 := 1;
        }
      }
    }
    var r := RevJul(J1972 + (et - ET_1972) - (nleap + second60) as real / 86400.0, Gregorian);
    t := AtHours(r.date, r.hour);
    t := t.(sec := t.sec + second60 as real);
    d := deltat(et);
    d := deltat(et - d);
    if TableOutdated(d, nleap + NLEAP_INIT) {
      r := RevJul(et - d, Gregorian);
      t := AtHours(r.date, r.hour);
    }
    if sys == Julian {
      var tjd := JulDay(t.date.year, t.date.month, t.date.day, 0.0, Gregorian);
      t := t.(date := RevJul(tjd, Julian).date);
    }
  }
}
