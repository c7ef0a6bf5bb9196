/** GPS seconds to civil time (section 3.3.4 of IS-GPS-200 for the week count, section 3.2.1 of ISO 8601:2004
    for the calendar). GPS time starts on 6 January 1980, five days after the calendar's origin here. */
module GpsCalendar {

  const SECONDS_PER_DAY := 86400
  const SECONDS_PER_WEEK := 604800

  // ----- the Gregorian calendar -----

  predicate IsLeap(year: nat) {
    year % 4 == 0 && (year % 100 != 0 || year % 400 == 0)
  }

  function YearLength(year: nat): nat {
    if IsLeap(year) then 366 else 365
  }

  function MonthLength(year: nat, month: nat): nat {
    if month == 2 then (if IsLeap(year) then 29 else 28)
    else if month == 4 || month == 6 || month == 9 || month == 11 then 30
    else 31
  }

  function DaysBeforeYear(year: nat): nat
    requires year >= 1980
  {
    if year == 1980 then 0 else DaysBeforeYear(year - 1) + YearLength(year - 1)
  }

  function DaysBeforeMonth(year: nat, month: nat): nat
    requires 1 <= month <= 13
  {
    if month == 1 then 0 else DaysBeforeMonth(year, month - 1) + MonthLength(year, month - 1)
  }

  datatype Date = Date(year: nat, month: nat, day: nat)
  datatype Clock = Clock(hour: nat, minute: nat, second: nat)
  datatype Civil = Civil(date: Date, clock: Clock)

  predicate Valid(c: Civil) {
    && c.date.year >= 1980 && 1 <= c.date.month <= 12
    && 1 <= c.date.day <= MonthLength(c.date.year, c.date.month)
    && c.clock.hour < 24 && c.clock.minute < 60 && c.clock.second < 60
  }

  function DayNumber(d: Date): nat
    requires d.year >= 1980 && 1 <= d.month <= 12 && d.day >= 1
  {
    DaysBeforeYear(d.year) + DaysBeforeMonth(d.year, d.month) + d.day - 1
  }

  // seconds since the beginning of 1 January 1980
  function Seconds(c: Civil): nat
    requires Valid(c)
  {
    DayNumber(c.date) * SECONDS_PER_DAY + c.clock.hour * 3600 + c.clock.minute * 60 + c.clock.second
  }

  predicate Earlier(a: Civil, b: Civil) {
    || a.date.year < b.date.year
    || (a.date.year == b.date.year && a.date.month < b.date.month)
    || (a.date.year == b.date.year && a.date.month == b.date.month && a.date.day < b.date.day)
    || (a.date == b.date && a.clock.hour < b.clock.hour)
    || (a.date == b.date && a.clock.hour == b.clock.hour && a.clock.minute < b.clock.minute)
    || (a.date == b.date && a.clock.hour == b.clock.hour && a.clock.minute == b.clock.minute
        && a.clock.second < b.clock.second)
  }

  lemma {:induction false} YearsAddUp(a: nat, b: nat)
    requires 1980 <= a < b
    ensures DaysBeforeYear(a) + YearLength(a) <= DaysBeforeYear(b)
  {
    if a + 1 >= b {
    } else {
      YearsAddUp(a, b - 1);
    }
  }

  lemma {:induction false} MonthsAddUp(year: nat, a: nat, b: nat)
    requires 1 <= a < b <= 13
    ensures DaysBeforeMonth(year, a) + MonthLength(year, a) <= DaysBeforeMonth(year, b)
  {
    if a + 1 >= b {
    } else {
      MonthsAddUp(year, a, b - 1);
    }
  }

  // the cumulative day table of the source, without and with the leap day
  lemma {:induction false} MonthTable(year: nat)
    ensures var leap := if IsLeap(year) then 1 else 0;
      && DaysBeforeMonth(year, 1) == 0 && DaysBeforeMonth(year, 2) == 31
      && DaysBeforeMonth(year, 3) == 59 + leap && DaysBeforeMonth(year, 4) == 90 + leap
      && DaysBeforeMonth(year, 5) == 120 + leap && DaysBeforeMonth(year, 6) == 151 + leap
      && DaysBeforeMonth(year, 7) == 181 + leap && DaysBeforeMonth(year, 8) == 212 + leap
      && DaysBeforeMonth(year, 9) == 243 + leap && DaysBeforeMonth(year, 10) == 273 + leap
      && DaysBeforeMonth(year, 11) == 304 + leap && DaysBeforeMonth(year, 12) == 334 + leap
      && DaysBeforeMonth(year, 13) == YearLength(year)
  {
  }

  lemma {:induction false} EarlierDayIsSmaller(a: Civil, b: Civil)
    requires Valid(a) && Valid(b)
    requires a.date != b.date && Earlier(a, b)
    ensures DayNumber(a.date) < DayNumber(b.date)
  {
    MonthTable(a.date.year);
    if a.date.year < b.date.year {
      MonthsAddUp(a.date.year, a.date.month, 13);
      YearsAddUp(a.date.year, b.date.year);
    } else if a.date.month < b.date.month {
      MonthsAddUp(a.date.year, a.date.month, b.date.month);
    }
  }

  lemma {:induction false} EarlierIsSmaller(a: Civil, b: Civil)
    requires Valid(a) && Valid(b) && Earlier(a, b)
    ensures Seconds(a) < Seconds(b)
  {
    if a.date != b.date {
      EarlierDayIsSmaller(a, b);
    }
  }

  /** The count of seconds orders valid dates and times exactly as the calendar does: a later count is a later
      civil time, and each count belongs to at most one of them. */
  lemma {:induction false} SecondsOrderCivilTime(a: Civil, b: Civil)
    requires Valid(a) && Valid(b)
    ensures Seconds(a) < Seconds(b) <==> Earlier(a, b)
    ensures Seconds(a) == Seconds(b) <==> a == b
  {
    if a != b {
      if Earlier(a, b) { EarlierIsSmaller(a, b); } else { EarlierIsSmaller(b, a); }
    }
  }

  // ----- the conversion -----

  // the source's two tests for a leap year, on years elapsed since 1980
  predicate LeapOffset(elapsed: nat) {
    if elapsed % 100 == 20 then elapsed % 400 == 20 else elapsed % 4 == 0
  }

  lemma {:induction false} FourYears(elapsed: nat)
    ensures (1980 + elapsed) % 4 == elapsed % 4
  {
  }

  lemma {:induction false} Centuries(elapsed: nat)
    ensures (1980 + elapsed) % 100 == 0 <==> elapsed % 100 == 20
    ensures elapsed % 100 == 20 ==> elapsed % 4 == 0
  {
    var century, rest := elapsed / 100, elapsed % 100;
    if rest < 20 {
      Remainder100(1980 + elapsed, century + 19, rest + 80);
    } else {
      Remainder100(1980 + elapsed, century + 20, rest - 20);
    }
  }

  lemma {:induction false} Remainder100(n: int, q: int, r: int)
    requires n == 100 * q + r && 0 <= r < 100
    ensures n % 100 == r
  {
  }

  lemma {:induction false} Remainder400(n: int, q: int, r: int)
    requires n == 400 * q + r && 0 <= r < 400
    ensures n % 400 == r
  {
  }

  lemma {:induction false} FourCenturies(elapsed: nat)
    ensures (1980 + elapsed) % 400 == 0 <==> elapsed % 400 == 20
    ensures elapsed % 400 == 20 ==> elapsed % 100 == 20
  {
    var age, rest := elapsed / 400, elapsed % 400;
    if rest < 20 {
      Remainder400(1980 + elapsed, age + 4, rest + 380);
    } else {
      Remainder400(1980 + elapsed, age + 5, rest - 20);
    }
    if rest == 20 {
      Remainder100(elapsed, 4 * age, 20);
    }
  }

  lemma {:induction false} LeapOffsetIsLeap(elapsed: nat)
    ensures LeapOffset(elapsed) == IsLeap(1980 + elapsed)
  {
    FourYears(elapsed);
    Centuries(elapsed);
    FourCenturies(elapsed);
  }

  method DecideYear(total: nat) returns (elapsed: nat, days: nat)
    ensures DaysBeforeYear(1980 + elapsed) + days == total
    ensures days < YearLength(1980 + elapsed)
  {
    days := total;
    elapsed := 0;
    while days >= 365
      invariant DaysBeforeYear(1980 + elapsed) + days == total
      decreases days
    {
      LeapOffsetIsLeap(elapsed);
      if elapsed % 100 == 20 {
        if elapsed % 400 == 20 {
          if days >= 366 { days := days - 366; } else { break; }
        } else {
          days := days - 365;
        }
      } else if elapsed % 4 == 0 {
        if days >= 366 { days := days - 366; } else { break; }
      } else {
        days := days - 365;
      }
      elapsed := elapsed + 1;
    }
  }

  method DecideMonth(elapsed: nat, days: nat) returns (month: nat, day: nat)
    requires days < YearLength(1980 + elapsed)
    ensures 1 <= month <= 12 && 1 <= day <= MonthLength(1980 + elapsed, month)
    ensures DaysBeforeMonth(1980 + elapsed, month) + day - 1 == days
  {
    ghost var year := 1980 + elapsed;
    var doy := new int[12][0, 31, 59, 90, 120, 151, 181, 212, 243, 273, 304, 334];
    LeapOffsetIsLeap(elapsed);
    MonthTable(year);
    var leap := if elapsed % 100 == 20 then elapsed % 400 == 20 else elapsed % 4 == 0;
    if leap {
      for i := 2 to 12
        invariant doy[0] == 0 && doy[1] == 31
        invariant forall k :: 2 <= k < 12 ==>
          doy[k] == [0, 31, 59, 90, 120, 151, 181, 212, 243, 273, 304, 334][k] + (if k < i then 1 else 0)
      {
        doy[i] := doy[i] + 1;
      }
    }
    assert forall k :: 0 <= k < 12 ==> doy[k] == DaysBeforeMonth(year, k + 1);
    var i := 0;
    while i < 12
      invariant 0 <= i <= 12
      invariant forall k :: 0 <= k < 12 ==> doy[k] == DaysBeforeMonth(year, k + 1)
      invariant i > 0 ==> DaysBeforeMonth(year, i) <= days
    {
      if days < doy[i] {
        break;
      }
      i := i + 1;
    }
    month := i;
    day := 0;
    if i > 0 {
      day := days - doy[i - 1] + 1;
    }
  }

  /** Converts a GPS week and time of week. The source keeps the time of week in a double, which holds these
      integers exactly; `(int)` and `/` on them truncate as `/` does here. */
  method GpsToUtcTime(week: nat, tow: nat) returns (c: Civil)
    ensures Valid(c)
    ensures Seconds(c) == week * SECONDS_PER_WEEK + tow + 5 * SECONDS_PER_DAY
  {
    var total := week * 7 + tow / 86400 + 5;
    var secs := tow - tow / 86400 * 86400;
    var elapsed, days := DecideYear(total);
    var month, day := DecideMonth(elapsed, days);
    var hour := secs / 3600;
    var minute := secs % 3600 / 60;
    var second := secs - secs / 60 * 60;
    c := Civil(Date(1980 + elapsed, month, day), Clock(hour, minute, second));
    assert DayNumber(c.date) == total;
  }

  // mktime on a broken-down time, in a zone at a fixed offset from UTC
  function Mktime(c: Civil, zone: int): int
    requires Valid(c)
  {
    315532800 + Seconds(c) - zone
  }

  // the time_t of a GPS second count, as the EPO code obtains it
  function TimeOfGps(secs: nat, zone: int): int {
    315964800 + secs - zone
  }

  /** A GPS second count, split into week and time of week as the EPO code does. For every count the result is
      the one valid civil time whose distance from 1 January 1980 is that count plus five days. */
  method TimeOfGpsSeconds(secs: nat, zone: int) returns (c: Civil, time: int)
    ensures Valid(c) && Seconds(c) == secs + 5 * SECONDS_PER_DAY
    ensures forall d: Civil :: Valid(d) && Seconds(d) == secs + 5 * SECONDS_PER_DAY ==> d == c
    ensures time == TimeOfGps(secs, zone)
  {
    var week := secs / 604800;
    var tow := secs % 604800;
    c := GpsToUtcTime(week, tow);
    forall d: Civil | Valid(d) && Seconds(d) == secs + 5 * SECONDS_PER_DAY ensures d == c {
      SecondsOrderCivilTime(c, d);
    }
    time := Mktime(c, zone);
  }
}
