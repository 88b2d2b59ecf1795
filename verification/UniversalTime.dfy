/** Labels that are read and written as UT1 instead of UTC: those before 1972, and those of days on which the
    leap-second table looks out of date (eph/sweph/src/swedate.c). */
module UniversalTime {
  import opened Calendar
  import opened TimeScales
  import opened TimeZones

  /** The instant that a label names in a time scale without leap seconds */
  function Nominal(t: Label, sys: System): real { DayNumber(t.date, sys) as real - 0.5 + Seconds(t) / 86400.0 }

  /** Delta T at midnight is more than a second ahead of what the leap seconds before day n amount to. */
  ghost predicate Outdated(leaps: seq<int>, deltat: real -> real, n: int) {
    deltat(n as real - 0.5) * 86400.0 >= 43.184 + LeapsBefore(leaps, n) as real
  }

  ghost predicate ReadAsUt1(leaps: seq<int>, deltat: real -> real, n: int) {
    n < DAY_1972 || (Convertible(n) && Outdated(leaps, deltat, n))
  }

  /** A second 60 is accepted at the end of any day from 1972 on. */
  predicate AcceptedTime(t: Label, n: int) {
    && 0 <= t.hour <= 23 && 0 <= t.min <= 59 && 0.0 <= t.sec < 61.0
    && (t.sec >= 60.0 ==> t.hour == 23 && t.min == 59 && n >= DAY_1972)
  }

  // ------------------------------------------------------------------ labels to Julian days

  /** The time of an accepted label is its UT1, and ephemeris time is ahead by delta T at that instant. */
  lemma Ut1Counts(leaps: seq<int>, deltat: real -> real, t: Label, sys: System)
    requires ReadAsUt1(leaps, deltat, DayNumber(t.date, sys))
    ensures var jd := UtcToJd(leaps, deltat, t, sys);
      && (jd.Jd? ==> jd.ut1 == DayNumber(t.date, sys) as real - 0.5 + Seconds(t) / 86400.0)
      && (jd.Jd? ==> jd.et - jd.ut1 == deltat(jd.ut1))
  {
    hide RevJul, JulDay, DayNumber, LeapsBefore;
    var n := DayNumber(t.date, sys);
    MidnightOf(t.date, sys);
    JulDayIsDayNumber(t.date, Hours(t), sys);
    HoursAreSeconds(t);
    if n >= DAY_1972 { GregorianCount(leaps, t, sys); }
  }

  lemma HoursAreSeconds(t: Label)
    ensures Hours(t) / 24.0 == Seconds(t) / 86400.0 && Hours(t) == Seconds(t) / 3600.0
  {}

  /** The leap seconds that the source counts before an accepted label */
  lemma GregorianCount(leaps: seq<int>, t: Label, sys: System)
    requires Convertible(DayNumber(t.date, sys))
    ensures var n := DayNumber(t.date, sys);
      && InRange(n, sys) && RevJul(n as real - 0.5, sys).date == DateOf(n, sys)
      && CountBefore(leaps, Encode(RevJul(n as real - 0.5, Gregorian).date)) == LeapsBefore(leaps, n)
  {
    hide RevJul, JulDay, DayNumber;
    var n := DayNumber(t.date, sys);
    BelowLimit(n, sys);
    BelowLimit(n, Gregorian);
    DateAt(n, 0.0, sys);
    DateAt(n, 0.0, Gregorian);
  }

  /** The labels that are accepted */
  lemma Ut1Accepts(leaps: seq<int>, deltat: real -> real, t: Label, sys: System)
    requires ReadAsUt1(leaps, deltat, DayNumber(t.date, sys)) && InRange(DayNumber(t.date, sys), sys)
    ensures UtcToJd(leaps, deltat, t, sys).Jd? <==> Legal(t.date, sys) && AcceptedTime(t, DayNumber(t.date, sys))
  {
    hide RevJul, JulDay, DayNumber, LeapsBefore, Legal;
    var n := DayNumber(t.date, sys);
    MidnightOf(t.date, sys);
    DateOfIsLegal(t.date, sys);
    if n >= DAY_1972 { GregorianCount(leaps, t, sys); }
  }

  // ------------------------------------------------------------------ Julian days to labels

  /** The label of an instant names it. */
  lemma LabelNames(ut: real, sys: System)
    requires InRange((ut + 0.5).Floor, sys)
    ensures var t := LabelOfUt1(ut, sys);
      Nominal(t, sys) == ut && ClockTime(t) && Legal(t.date, sys) && DayNumber(t.date, sys) == (ut + 0.5).Floor
  {
    hide RevJul, JulDay, DayNumber, Legal, DateOf, AtHours;
    RevJulFindsDate(ut, sys);
    var r := RevJul(ut, sys);
    DayNumberCounts((ut + 0.5).Floor, sys);
    JulDayIsDayNumber(r.date, r.hour, sys);
    HoursInvertsAtHours(r.date, r.hour);
    HoursAreSeconds(AtHours(r.date, r.hour));
  }

  lemma NamedLabel(t: Label, sys: System)
    requires Legal(t.date, sys) && ClockTime(t) && InRange(DayNumber(t.date, sys), sys)
    ensures LabelOfUt1(Nominal(t, sys), sys) == t && (Nominal(t, sys) + 0.5).Floor == DayNumber(t.date, sys)
  {
    hide RevJul, JulDay, DayNumber, Legal, DateOf, AtHours;
    var n := DayNumber(t.date, sys);
    HoursAreSeconds(t);
    AtHoursInvertsHours(t);
    DateOfDayNumber(t.date, sys);
    DateAt(n, Seconds(t) / 86400.0, sys);
  }

  /** The source's change of calendar keeps the day. */
  lemma InCalendar(date: Date, sys: System)
    requires Legal(date, Gregorian)
    ensures RevJul(JulDay(date.year, date.month, date.day, 0.0, Gregorian), Julian).date
      == DateOf(DayNumber(date, Gregorian), Julian)
    ensures DayNumber(DateOf(DayNumber(date, Gregorian), Julian), Julian) == DayNumber(date, Gregorian)
  {
    hide RevJul, JulDay, DayNumber, DateOf, Legal;
    MidnightOf(date, Gregorian);
    DateAt(DayNumber(date, Gregorian), 0.0, Julian);
    DayNumberCounts(DayNumber(date, Gregorian), Julian);
  }

  /** Before 1972 the label names the UT1 that two rounds of correction have found. */
  lemma EarlyLabel(leaps: seq<int>, deltat: real -> real, et: real, sys: System)
    requires et < J1972 + 42.184 / 86400.0
    requires InRange((et - deltat(et - deltat(et - deltat(et))) + 0.5).Floor, sys)
    ensures var t := JdetToUtc(leaps, deltat, et, sys);
      Nominal(t, sys) == et - deltat(et - deltat(et - deltat(et))) && ClockTime(t) && Legal(t.date, sys)
  {
    hide RevJul, LabelOfUt1, Nominal, Legal;
    LabelNames(Ut1Of(deltat, et), sys);
  }

  function Abs(x: real): real { if x < 0.0 then -x else x }

  /** Delta T changes by at most l days per day. */
  ghost predicate ChangesBy(deltat: real -> real, l: real) {
    l >= 0.0 && forall a, b :: Abs(deltat(a) - deltat(b)) <= Times(l, Abs(a - b))
  }

  function Times(a: real, b: real): real { a * b }

  /** Each round makes the error of that UT1 smaller by the factor that delta T changes with. */
  lemma Ut1Converges(deltat: real -> real, et: real, l: real)
    requires ChangesBy(deltat, l)
    ensures var ut := Ut1Of(deltat, et);
      Abs(ut + deltat(ut) - et) <= Times(l, Times(l, Times(l, Abs(deltat(et)))))
  {
    hide ChangesBy, Times;
    var u0 := et - deltat(et);
    var u1 := et - deltat(u0);
    var u2 := et - deltat(u1);
    Round(deltat, l, et, u0, Abs(deltat(et)));
    Round(deltat, l, u0, u1, Times(l, Abs(deltat(et))));
    Round(deltat, l, u1, u2, Times(l, Times(l, Abs(deltat(et)))));
  }

  lemma Round(deltat: real -> real, l: real, a: real, b: real, e: real)
    requires ChangesBy(deltat, l) && Abs(a - b) <= e
    ensures Abs(deltat(a) - deltat(b)) <= Times(l, e)
  {
    assert l * (e - Abs(a - b)) >= 0.0;
    assert Times(l, e) - Times(l, Abs(a - b)) == l * (e - Abs(a - b));
  }

  // ------------------------------------------------------------------ there and back

  lemma Ut1OfConstant(deltat: real -> real, ut1: real)
    requires deltat(ut1 + deltat(ut1)) == deltat(ut1)
    ensures var et := ut1 + deltat(ut1);
      Ut1Of(deltat, et) == ut1 && et - deltat(et - deltat(et)) == ut1
  {}

  /** With delta T the same at both ends, a label before 1972 comes back if it is before 1972 on the scale of UTC too;
      otherwise it does not, as long as UT1 tracks UTC there: it is in the last second of 1971, and read as UTC. */
  lemma EarlyRoundTrip(leaps: seq<int>, deltat: real -> real, t: Label, sys: System)
    requires GoodTable(leaps) && Legal(t.date, sys) && ClockTime(t)
    requires DayNumber(t.date, sys) < DAY_1972 && InRange(DayNumber(t.date, sys), sys)
    requires deltat(Nominal(t, sys) + deltat(Nominal(t, sys))) == deltat(Nominal(t, sys))
    ensures var jd := UtcToJd(leaps, deltat, t, sys);
      && jd.Jd?
      && (jd.et < J1972 + 42.184 / 86400.0 ==> JdetToUtc(leaps, deltat, jd.et, sys) == t)
      && (jd.et >= J1972 + 42.184 / 86400.0 && deltat(jd.ut1) * 86400.0 < 43.184 ==>
            JdetToUtc(leaps, deltat, jd.et, sys) != t)
  {
    hide UtcToJd, JdetToUtc, DayNumber, Legal, GoodTable, LabelOfUt1, LeapsBefore, Ut1Of, Nominal, Settled;
    ReadExactly(leaps, deltat, t, sys);
    var jd := UtcToJd(leaps, deltat, t, sys);
    Ut1OfConstant(deltat, jd.ut1);
    NominalBounds(t, sys);
    NamedLabel(t, sys);
    if jd.et < ET_1972 {
      EarlyIsUt1(leaps, deltat, jd.et, sys);
    } else if deltat(jd.ut1) * 86400.0 < 43.184 {
      SettledBounds(leaps, deltat, jd.et);
      TableFits(leaps);
      LateIsUtc(leaps, deltat, jd.et, sys);
      NotWhole(deltat(jd.ut1), Settled(leaps, deltat, jd.et).0);
    }
  }

  lemma NominalBounds(t: Label, sys: System)
    requires ClockTime(t)
    ensures DayNumber(t.date, sys) as real - 0.5 <= Nominal(t, sys) < DayNumber(t.date, sys) as real + 0.5
    ensures DayNumber(t.date, sys) < DAY_1972 ==> Nominal(t, sys) < J1972
  {
    hide DayNumber;
  }

  lemma TableFits(leaps: seq<int>)
    requires GoodTable(leaps)
    ensures |leaps| <= 100
  {}

  lemma NotWhole(d: real, k: int)
    requires 42.184 < d * 86400.0 < 43.184
    ensures d != (42.184 + k as real) / 86400.0
  {}

  /** What an accepted clock label is converted to */
  lemma ReadExactly(leaps: seq<int>, deltat: real -> real, t: Label, sys: System)
    requires Legal(t.date, sys) && ClockTime(t) && InRange(DayNumber(t.date, sys), sys)
    requires ReadAsUt1(leaps, deltat, DayNumber(t.date, sys))
    ensures UtcToJd(leaps, deltat, t, sys) == Jd(Nominal(t, sys) + deltat(Nominal(t, sys)), Nominal(t, sys))
  {
    hide UtcToJd, DayNumber, Legal, Seconds, LeapsBefore;
    Ut1Accepts(leaps, deltat, t, sys);
    Ut1Counts(leaps, deltat, t, sys);
  }

  lemma EarlyIsUt1(leaps: seq<int>, deltat: real -> real, et: real, sys: System)
    requires et < ET_1972
    ensures JdetToUtc(leaps, deltat, et, sys) == LabelOfUt1(Ut1Of(deltat, et), sys)
  {}

  /** The last step of the conversion, into the calendar wanted */
  function InSystem(t: Label, sys: System): Label {
    if sys == Julian
    then t.(date := RevJul(JulDay(t.date.year, t.date.month, t.date.day, 0.0, Gregorian), Julian).date)
    else t
  }

  lemma InSystemNames(t: Label, sys: System)
    requires Legal(t.date, Gregorian)
    ensures Nominal(InSystem(t, sys), sys) == Nominal(t, Gregorian)
    ensures InSystem(t, sys) == t.(date := DateOf(DayNumber(t.date, Gregorian), sys))
    ensures Legal(InSystem(t, sys).date, sys) && DayNumber(InSystem(t, sys).date, sys) == DayNumber(t.date, Gregorian)
  {
    hide RevJul, JulDay, DayNumber, DateOf, Legal;
    InCalendar(t.date, sys);
    DateOfDayNumber(t.date, Gregorian);
    DayNumberCounts(DayNumber(t.date, Gregorian), sys);
  }

  /** Leap seconds that the source takes to have passed, and 1 if it takes the instant to be inside one */
  function Settled(leaps: seq<int>, deltat: real -> real, et: real): (int, int) {
    SettleLeap(leaps, deltat, et, CountBefore(leaps, Encode(RevJul(Ut1Of(deltat, et) - 1.0, Gregorian).date)))
  }

  lemma SettledBounds(leaps: seq<int>, deltat: real -> real, et: real)
    ensures 0 <= Settled(leaps, deltat, et).0 <= |leaps| && Settled(leaps, deltat, et).1 in {0, 1}
  {
    hide RevJul, Encode, EtAfterLeap, Ut1Of, CountBefore;
    CountBeforeStops(leaps, Encode(RevJul(Ut1Of(deltat, et) - 1.0, Gregorian).date));
  }

  lemma LateReading(leaps: seq<int>, deltat: real -> real, et: real, sys: System)
    requires et >= ET_1972
    ensures var (nleap, second60) := Settled(leaps, deltat, et);
      var dt := deltat(et - deltat(et));
      var utc := LabelOfUt1(J1972 + (et - ET_1972) - (nleap + second60) as real / 86400.0, Gregorian);
      JdetToUtc(leaps, deltat, et, sys) == InSystem(
        if dt * 86400.0 >= 43.184 + nleap as real then LabelOfUt1(et - dt, Gregorian)
        else utc.(sec := utc.sec + second60 as real), sys)
  {
    hide RevJul, JulDay, SettleLeap, CountBefore, Encode, LabelOfUt1, Ut1Of;
  }

  /** From 1972 on a label that is not read as UT1 names the instant less a whole number of leap seconds. */
  lemma LateIsUtc(leaps: seq<int>, deltat: real -> real, et: real, sys: System)
    requires |leaps| <= 100 && ET_1972 <= et <= (JD_LIMIT - 1) as real
    requires deltat(et - deltat(et)) * 86400.0 < 43.184 + Settled(leaps, deltat, et).0 as real
    ensures Nominal(JdetToUtc(leaps, deltat, et, sys), sys)
      == et - (42.184 + Settled(leaps, deltat, et).0 as real) / 86400.0
    ensures var t := JdetToUtc(leaps, deltat, et, sys);
      Settled(leaps, deltat, et).1 == 0 ==>
        ClockTime(t) && Legal(t.date, sys) && -JD_LIMIT <= DayNumber(t.date, sys) <= JD_LIMIT
  {
    hide RevJul, JulDay, DayNumber, Legal, Settled, LabelOfUt1, InSystem, JdetToUtc;
    SettledBounds(leaps, deltat, et);
    LateReading(leaps, deltat, et, sys);
    var (nleap, second60) := Settled(leaps, deltat, et);
    var ut := J1972 + (et - ET_1972) - (nleap + second60) as real / 86400.0;
    BelowLimit((ut + 0.5).Floor, Gregorian);
    LabelNames(ut, Gregorian);
    var utc := LabelOfUt1(ut, Gregorian);
    InSystemNames(utc.(sec := utc.sec + second60 as real), sys);
  }

  /** An instant whose label is read as UT1 */
  lemma LateIsUt1(leaps: seq<int>, deltat: real -> real, t: Label, sys: System, et: real)
    requires et >= ET_1972 && et - deltat(et - deltat(et)) == Nominal(t, sys)
    requires Legal(t.date, sys) && ClockTime(t) && -JD_LIMIT <= DayNumber(t.date, sys) <= JD_LIMIT
    requires deltat(et - deltat(et)) * 86400.0 >= 43.184 + Settled(leaps, deltat, et).0 as real
    ensures JdetToUtc(leaps, deltat, et, sys) == t
  {
    hide JdetToUtc, Settled, LabelOfUt1, Nominal, DayNumber, Legal, InSystem;
    LateReading(leaps, deltat, et, sys);
    Ut1InSystem(t, sys);
  }

  lemma Ut1InSystem(t: Label, sys: System)
    requires Legal(t.date, sys) && ClockTime(t) && -JD_LIMIT <= DayNumber(t.date, sys) <= JD_LIMIT
    ensures InSystem(LabelOfUt1(Nominal(t, sys), Gregorian), sys) == t
  {
    hide RevJul, JulDay, DayNumber, Legal, LabelOfUt1, DateOf, InSystem;
    var n := DayNumber(t.date, sys);
    BelowLimit(n, Gregorian);
    DayNumberCounts(n, Gregorian);
    DateOfDayNumber(t.date, sys);
    var greg := t.(date := DateOf(n, Gregorian));
    NamedLabel(greg, Gregorian);
    InSystemNames(greg, sys);
  }

  /** The count of leap seconds has run ahead of the day: with delta T that far off, the end of the next leap second
      seems to have passed. */
  ghost predicate Overtaken(leaps: seq<int>, deltat: real -> real, n: int, et: real) {
    var c := LeapsBefore(leaps, n);
    !IsLeapDay(leaps, n - 1) && c < |leaps| && EtAfterLeap(leaps, deltat, c).Jd? &&
    et >= EtAfterLeap(leaps, deltat, c).et
  }

  /** With delta T the same at midnight and at both ends, a label of a day on which the table is outdated comes back
      unless the count of leap seconds is overtaken and delta T is between one and two seconds off. */
  lemma OutdatedRoundTrip(leaps: seq<int>, deltat: real -> real, t: Label, sys: System)
    requires GoodTable(leaps) && Legal(t.date, sys) && ClockTime(t)
    requires Convertible(DayNumber(t.date, sys)) && Outdated(leaps, deltat, DayNumber(t.date, sys))
    requires deltat(Nominal(t, sys)) == deltat(DayNumber(t.date, sys) as real - 0.5)
    requires deltat(Nominal(t, sys) + deltat(Nominal(t, sys))) == deltat(Nominal(t, sys))
    ensures var jd := UtcToJd(leaps, deltat, t, sys);
      var n := DayNumber(t.date, sys);
      var c := LeapsBefore(leaps, n) as real;
      jd.Jd? && (JdetToUtc(leaps, deltat, jd.et, sys) == t <==>
        !Overtaken(leaps, deltat, n, jd.et) ||
        deltat(jd.ut1) * 86400.0 >= c + 44.184 || deltat(jd.ut1) * 86400.0 == c + 43.184)
  {
    hide UtcToJd, JdetToUtc, DayNumber, Legal, GoodTable, LabelOfUt1, LeapsBefore, Ut1Of, Overtaken, Settled, Nominal;
    var n := DayNumber(t.date, sys);
    BelowLimit(n, sys);
    ReadExactly(leaps, deltat, t, sys);
    var jd := UtcToJd(leaps, deltat, t, sys);
    Ut1OfConstant(deltat, jd.ut1);
    NominalBounds(t, sys);
    NominalIs(t, sys);
    SettledOnDay(leaps, deltat, n, Seconds(t));
    if deltat(jd.ut1) * 86400.0 >= 43.184 + Settled(leaps, deltat, jd.et).0 as real {
      LateIsUt1(leaps, deltat, t, sys, jd.et);
    } else {
      SettledBounds(leaps, deltat, jd.et);
      TableFits(leaps);
      LateIsUtc(leaps, deltat, jd.et, sys);
      if deltat(jd.ut1) * 86400.0 == LeapsBefore(leaps, n) as real + 43.184 {
        SameName(JdetToUtc(leaps, deltat, jd.et, sys), t, sys);
      }
    }
  }

  /** A label without a leap second is determined by its instant. */
  lemma SameName(t: Label, t': Label, sys: System)
    requires ClockTime(t) && Legal(t.date, sys) && -JD_LIMIT <= DayNumber(t.date, sys) <= JD_LIMIT
    requires ClockTime(t') && Legal(t'.date, sys) && -JD_LIMIT <= DayNumber(t'.date, sys) <= JD_LIMIT
    requires Nominal(t, sys) == Nominal(t', sys)
    ensures t == t'
  {
    hide DayNumber, Legal, LabelOfUt1, Nominal;
    BelowLimit(DayNumber(t.date, sys), sys);
    BelowLimit(DayNumber(t'.date, sys), sys);
    NamedLabel(t, sys);
    NamedLabel(t', sys);
  }

  lemma NominalIs(t: Label, sys: System)
    ensures Nominal(t, sys) == DayNumber(t.date, sys) as real - 0.5 + Seconds(t) / 86400.0
    ensures ClockTime(t) ==> 0.0 <= Seconds(t) < 86400.0
  {
    hide DayNumber;
  }

  lemma SettledOnDay(leaps: seq<int>, deltat: real -> real, n: int, secs: real)
    requires GoodTable(leaps) && Convertible(n) && Outdated(leaps, deltat, n) && 0.0 <= secs < 86400.0
    requires var ut1 := n as real - 0.5 + secs / 86400.0;
      deltat(ut1) == deltat(n as real - 0.5) && deltat(ut1 + deltat(ut1)) == deltat(ut1)
    ensures var ut1 := n as real - 0.5 + secs / 86400.0;
      Settled(leaps, deltat, ut1 + deltat(ut1)).0
        == LeapsBefore(leaps, n) + (if Overtaken(leaps, deltat, n, ut1 + deltat(ut1)) then 1 else 0)
      && (Overtaken(leaps, deltat, n, ut1 + deltat(ut1)) ==> Settled(leaps, deltat, ut1 + deltat(ut1)).1 == 0)
  {
    hide UtcToJd, DayNumber, Legal, GoodTable, LeapsBefore, Ut1Of, Outdated, RevJul, Encode, EtAfterLeap, IsLeapDay,
      CountBefore;
    var ut1 := n as real - 0.5 + secs / 86400.0;
    var et := ut1 + deltat(ut1);
    Ut1OfConstant(deltat, ut1);
    Yesterday(leaps, n, ut1);
    LeapsBeforeStep(leaps, n - 1);
    NextLeap(leaps, n);
    NextLeap(leaps, n - 1);
    if IsLeapDay(leaps, n - 1) {
      MidnightAfterLeap(leaps, deltat, n);
    }
  }

  /** The source counts up to the day before. */
  lemma Yesterday(leaps: seq<int>, n: int, ut1: real)
    requires Convertible(n) && n as real - 0.5 <= ut1 < n as real + 0.5
    ensures CountBefore(leaps, Encode(RevJul(ut1 - 1.0, Gregorian).date)) == LeapsBefore(leaps, n - 1)
  {
    hide RevJul, JulDay, Encode, Legal, DateOf;
    BelowLimit(n - 1, Gregorian);
    assert (ut1 - 1.0 + 0.5).Floor == n - 1;
    RevJulFindsDate(ut1 - 1.0, Gregorian);
  }

  lemma MidnightAfterLeap(leaps: seq<int>, deltat: real -> real, n: int)
    requires GoodTable(leaps) && Convertible(n) && Outdated(leaps, deltat, n) && IsLeapDay(leaps, n - 1)
    ensures 0 < LeapsBefore(leaps, n) <= |leaps|
      && EtAfterLeap(leaps, deltat, LeapsBefore(leaps, n) - 1)
         == Jd(n as real - 0.5 + deltat(n as real - 0.5), n as real - 0.5)
  {
    hide UtcToJd, DayNumber, Legal, GoodTable, LeapsBefore, Outdated, RevJul, Encode, EtAfterLeap, DateOf, Seconds;
    NextLeap(leaps, n - 1);
    LeapsBeforeStep(leaps, n - 1);
    EtAfterLeapIsMidnight(leaps, deltat, LeapsBefore(leaps, n) - 1);
    MidnightIsValid(leaps, n);
    BelowLimit(n, Gregorian);
    var t := Label(DateOf(n, Gregorian), 0, 0, 0.0);
    Ut1Accepts(leaps, deltat, t, Gregorian);
    Ut1Counts(leaps, deltat, t, Gregorian);
  }
}
