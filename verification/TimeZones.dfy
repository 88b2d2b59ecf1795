/** Clock labels and their shift between time zones (eph/sweph/src/swedate.c). */
module TimeZones {
  import opened Calendar
  import opened Numbers

  /** A date with the time of day; `sec` may reach 61 inside a leap second */
  datatype Label = Label(date: Date, hour: int, min: int, sec: real)

  // ------------------------------------------------------------------ time of day

  function Hours(t: Label): real { t.hour as real + t.min as real / 60.0 + t.sec / 3600.0 }

  /** How the source splits decimal hours into hour, minute and second */
  function AtHours(date: Date, dhour: real): Label {
    var d := (dhour - Trunc(dhour) as real) * 60.0;
    Label(date, Trunc(dhour), Trunc(d), (d - Trunc(d) as real) * 60.0)
  }

  predicate ClockTime(t: Label) { 0 <= t.hour <= 23 && 0 <= t.min <= 59 && 0.0 <= t.sec < 60.0 }

  lemma AtHoursInvertsHours(t: Label)
    requires ClockTime(t)
    ensures 0.0 <= Hours(t) < 24.0
    ensures AtHours(t.date, Hours(t)) == t
  {
    assert Hours(t).Floor == t.hour;
    assert (Hours(t) - t.hour as real) * 60.0 == t.min as real + t.sec / 60.0;
  }

  lemma HoursInvertsAtHours(date: Date, dhour: real)
    requires 0.0 <= dhour < 24.0
    ensures ClockTime(AtHours(date, dhour)) && AtHours(date, dhour).date == date
    ensures Hours(AtHours(date, dhour)) == dhour
  {}

  // ------------------------------------------------------------------ time zones

  /** swe_utc_time_zone */
  function TimeZone(t: Label, zone: real): Label {
    var leap := t.sec >= 60.0;
    var sec := if leap then t.sec - 1.0 else t.sec;
    var dhour := t.hour as real + t.min as real / 60.0 + sec / 3600.0 - zone;
    var tjd := JulDay(t.date.year, t.date.month, t.date.day, 0.0, Gregorian);
    var tjd1 := if dhour < 0.0 then tjd - 1.0 else tjd;
    var dhour1 := if dhour < 0.0 then dhour + 24.0 else dhour;
    var tjd2 := if dhour1 >= 24.0 then tjd1 + 1.0 else tjd1;
    var dhour2 := if dhour1 >= 24.0 then dhour1 - 24.0 else dhour1;
    var out := AtHours(RevJul(tjd2 + 0.001, Gregorian).date, dhour2);
    if leap then out.(sec := out.sec + 1.0) else out
  }

  /** The second as a time of day, with a leap second counted as second 59 */
  function Plain(t: Label): Label { if t.sec >= 60.0 then t.(sec := t.sec - 1.0) else t }

  function Carry(dhour: real): int { if dhour < 0.0 then -1 else if dhour >= 24.0 then 1 else 0 }

  ghost predicate Shiftable(t: Label, zone: real) {
    && Legal(t.date, Gregorian)
    && ClockTime(Plain(t))
    && InRange(DayNumber(t.date, Gregorian), Gregorian)
    && InRange(DayNumber(t.date, Gregorian) + Carry(Hours(Plain(t)) - zone), Gregorian)
    && -24.0 <= Hours(Plain(t)) - zone < 48.0
  }

  lemma MidnightMoves(date: Date, k: int)
    requires InRange(DayNumber(date, Gregorian) + k, Gregorian)
    ensures RevJul(JulDay(date.year, date.month, date.day, 0.0, Gregorian) + k as real + 0.001, Gregorian).date
      == DateOf(DayNumber(date, Gregorian) + k, Gregorian)
  {
    var n := DayNumber(date, Gregorian) + k;
    hide RevJul, JulDay, DayNumber;
    JulDayIsDayNumber(date, 0.0, Gregorian);
    var jd := n as real - 0.5 + 0.001;
    assert (jd + 0.5).Floor == n;
    RevJulFindsDate(jd, Gregorian);
  }

  /** The label `dhour` hours after the midnight that starts day n */
  ghost function HoursAfter(n: int, dhour: real): Label {
    AtHours(DateOf(n + Carry(dhour), Gregorian), dhour - 24.0 * Carry(dhour) as real)
  }

  lemma HoursOf(t: Label)
    ensures Hours(t) == t.hour as real + t.min as real / 60.0 + t.sec / 3600.0
  {}

  lemma TimeZoneCarries(t: Label, zone: real)
    requires Shiftable(t, zone) && t.sec < 60.0
    ensures TimeZone(t, zone) == HoursAfter(DayNumber(t.date, Gregorian), Hours(t) - zone)
  {
    hide RevJul, JulDay, DayNumber, Hours, AtHours;
    MidnightMoves(t.date, Carry(Hours(t) - zone));
    assert Hours(t) == t.hour as real + t.min as real / 60.0 + t.sec / 3600.0 by { HoursOf(t); }
  }

  /** Moving a label by the zone gives a legal label from which the opposite move can be made. */
  lemma HoursAfterShiftable(t: Label, zone: real, there: Label)
    requires Shiftable(t, zone) && t.sec < 60.0
    requires there == HoursAfter(DayNumber(t.date, Gregorian), Hours(t) - zone)
    ensures ClockTime(there) && Shiftable(there, -zone)
    ensures DayNumber(there.date, Gregorian) == DayNumber(t.date, Gregorian) + Carry(Hours(t) - zone)
    ensures Hours(there) == Hours(t) - zone - 24.0 * Carry(Hours(t) - zone) as real
  {
    hide DayNumber, Hours, AtHours, Legal;
    var n, k := DayNumber(t.date, Gregorian), Carry(Hours(t) - zone);
    AtHoursInvertsHours(t);
    DayNumberCounts(n + k, Gregorian);
    HoursInvertsAtHours(DateOf(n + k, Gregorian), Hours(t) - zone - 24.0 * k as real);
  }

  lemma HoursAfterInverts(t: Label, zone: real, there: Label)
    requires Shiftable(t, zone) && t.sec < 60.0
    requires there == HoursAfter(DayNumber(t.date, Gregorian), Hours(t) - zone)
    ensures HoursAfter(DayNumber(there.date, Gregorian), Hours(there) + zone) == t
  {
    hide DayNumber, Hours, AtHours, Legal;
    HoursAfterShiftable(t, zone, there);
    AtHoursInvertsHours(t);
    DateOfDayNumber(t.date, Gregorian);
    assert Carry(Hours(there) + zone) == -Carry(Hours(t) - zone);
  }

  /** Without a leap second the shift keeps the instant and undoes itself. */
  lemma TimeZoneInverts(t: Label, zone: real)
    requires Shiftable(t, zone) && t.sec < 60.0
    ensures TimeZone(TimeZone(t, zone), -zone) == t
  {
    hide TimeZone, HoursAfter, Shiftable, Hours, AtHours;
    var there := TimeZone(t, zone);
    TimeZoneCarries(t, zone);
    HoursAfterShiftable(t, zone, there);
    HoursAfterInverts(t, zone, there);
    TimeZoneCarries(there, -zone);
  }

  /** The second, modulo a minute, at which a time of day lands after the shift */
  function ShiftedSecond(t: Label, zone: real): real {
    var minutes := (Hours(t) - zone) * 60.0;
    (minutes - minutes.Floor as real) * 60.0
  }

  lemma SecondAtHours(date: Date, dhour: real)
    requires dhour >= 0.0
    ensures AtHours(date, dhour).date == date
    ensures AtHours(date, dhour).sec == (dhour * 60.0 - (dhour * 60.0).Floor as real) * 60.0
  {
    var h := dhour.Floor;
    assert (dhour * 60.0).Floor == ((dhour - h as real) * 60.0).Floor + 60 * h;
  }

  lemma SecondAfterShift(t: Label, zone: real)
    requires Shiftable(t, zone) && t.sec < 60.0
    ensures TimeZone(t, zone).sec == ShiftedSecond(t, zone)
  {
    hide TimeZone, Hours, AtHours, DateOf, DayNumber;
    var y := Hours(t) - zone;
    var k := Carry(y);
    TimeZoneCarries(t, zone);
    SecondAtHours(DateOf(DayNumber(t.date, Gregorian) + k, Gregorian), y - 24.0 * k as real);
    assert ((y - 24.0 * k as real) * 60.0).Floor == (y * 60.0).Floor - 1440 * k;
  }

  lemma TimeZoneOfLeapSecond(t: Label, zone: real)
    requires 60.0 <= t.sec < 61.0
    ensures TimeZone(t, zone) == var out := TimeZone(Plain(t), zone); out.(sec := out.sec + 1.0)
  {
    hide RevJul, JulDay, AtHours;
  }

  lemma NoNewLeapSecond(t: Label, zone: real)
    requires t.sec < 60.0
    ensures TimeZone(t, zone).sec < 60.0
  {
    hide RevJul, JulDay;
  }

  lemma WholeMinutesKeepSecond(t: Label, zone: real)
    requires ClockTime(t) && zone * 60.0 == (zone * 60.0).Floor as real
    ensures ShiftedSecond(t, zone) == t.sec
  {
    var m := t.hour * 60 + t.min;
    assert Hours(t) * 60.0 == m as real + t.sec / 60.0;
    assert ((Hours(t) - zone) * 60.0).Floor == m - (zone * 60.0).Floor;
  }

  lemma LeapSecondComesBack(t: Label, zone: real)
    requires Shiftable(t, zone) && t.sec >= 60.0 && TimeZone(t, zone).sec >= 60.0
    ensures TimeZone(TimeZone(t, zone), -zone) == t
  {
    hide TimeZone, Hours, DayNumber, Legal;
    TimeZoneOfLeapSecond(t, zone);
    NoNewLeapSecond(Plain(t), zone);
    TimeZoneOfLeapSecond(TimeZone(t, zone), -zone);
    TimeZoneInverts(Plain(t), zone);
  }

  /** A leap second comes back exactly if the shift leaves it in the last second of a minute, as every zone
      of whole minutes does; otherwise the shifted label no longer tells that there was a leap second. */
  lemma TimeZoneInvertsLeapSecond(t: Label, zone: real)
    requires Shiftable(t, zone) && t.sec >= 60.0
    ensures TimeZone(TimeZone(t, zone), -zone) == t <==> ShiftedSecond(Plain(t), zone) >= 59.0
    ensures zone * 60.0 == (zone * 60.0).Floor as real ==> ShiftedSecond(Plain(t), zone) >= 59.0
  {
    hide TimeZone, ShiftedSecond, Hours, DayNumber, Legal;
    var there := TimeZone(t, zone);
    TimeZoneOfLeapSecond(t, zone);
    SecondAfterShift(Plain(t), zone);
    if there.sec >= 60.0 {
      LeapSecondComesBack(t, zone);
    } else {
      NoNewLeapSecond(there, -zone);
    }
    if zone * 60.0 == (zone * 60.0).Floor as real { WholeMinutesKeepSecond(Plain(t), zone); }
  }
}
