/**
 When an audit row may be discarded (backend/src/audit/audit-retention-policy.ts): calendar
 arithmetic on UTC dates, with the setters of the JavaScript Date object.
 */
module RetentionPolicy {
  import opened Collections
  import opened AuditRetention

  const MS_PER_DAY := 86_400_000

  /** A UTC date and time; months count from 0, days from 1. */
  datatype Date = Date(year: int, month: int, day: int, ms: int)

  predicate Leap(y: int) {
    y % 4 == 0 && (y % 100 != 0 || y % 400 == 0)
  }

  function DaysInMonth(y: int, m: int): (n: int)
    ensures 28 <= n <= 31
  {
    if m == 1 then (if Leap(y) then 29 else 28)
    else if m == 3 || m == 5 || m == 8 || m == 10 then 30
    else 31
  }

  predicate Valid(d: Date) {
    0 <= d.month < 12 && 1 <= d.day <= DaysInMonth(d.year, d.month) && 0 <= d.ms < MS_PER_DAY
  }

  // ---- Dates as day numbers ----

  /** Days from 1 January of year 0 to 1 January of year y. */
  function YearStart(y: int): int {
    365 * y + (y - 1) / 4 - (y - 1) / 100 + (y - 1) / 400
  }

  function MonthStart(y: int, m: int): int
    requires 0 <= m <= 12
    decreases m
  {
    if m == 0 then 0 else MonthStart(y, m - 1) + DaysInMonth(y, m - 1)
  }

  function DayNumber(d: Date): int
    requires 0 <= d.month < 12
  {
    YearStart(d.year) + MonthStart(d.year, d.month) + d.day - 1
  }

  function Instant(d: Date): int
    requires 0 <= d.month < 12
  {
    DayNumber(d) * MS_PER_DAY + d.ms
  }

  lemma MonthsOfYear(y: int)
    ensures MonthStart(y, 12) == if Leap(y) then 366 else 365
  {
    assert MonthStart(y, 2) == 31 + DaysInMonth(y, 1);
    assert MonthStart(y, 4) == MonthStart(y, 2) + 61;
    assert MonthStart(y, 6) == MonthStart(y, 4) + 61;
    assert MonthStart(y, 8) == MonthStart(y, 6) + 62;
    assert MonthStart(y, 10) == MonthStart(y, 8) + 61;
    assert MonthStart(y, 12) == MonthStart(y, 10) + 61;
  }

  lemma Fourths(y: int)
    ensures y / 4 == (y - 1) / 4 + if y % 4 == 0 then 1 else 0
  {
    assert y == 4 * (y / 4) + y % 4;
  }

  lemma Hundredths(y: int)
    ensures y / 100 == (y - 1) / 100 + if y % 100 == 0 then 1 else 0
  {
    assert y == 100 * (y / 100) + y % 100;
  }

  lemma FourHundredths(y: int)
    ensures y / 400 == (y - 1) / 400 + if y % 400 == 0 then 1 else 0
  {
    assert y == 400 * (y / 400) + y % 400;
  }

  lemma FourTimes(k: int)
    ensures (4 * k) % 4 == 0
  {
  }

  lemma HundredTimes(k: int)
    ensures (100 * k) % 100 == 0
  {
  }

  lemma Multiples(y: int)
    ensures y % 400 == 0 ==> y % 100 == 0
    ensures y % 100 == 0 ==> y % 4 == 0
  {
    if y % 400 == 0 {
      assert y == 100 * (4 * (y / 400));
      HundredTimes(4 * (y / 400));
    }
    if y % 100 == 0 {
      assert y == 4 * (25 * (y / 100));
      FourTimes(25 * (y / 100));
    }
  }

  lemma LeapDays(y: int)
    ensures y / 4 - y / 100 + y / 400 == (y - 1) / 4 - (y - 1) / 100 + (y - 1) / 400 + (if Leap(y) then 1 else 0)
  {
    Fourths(y);
    Hundredths(y);
    FourHundredths(y);
    Multiples(y);
  }

  lemma YearLength(y: int)
    ensures YearStart(y + 1) == YearStart(y) + MonthStart(y, 12)
    ensures MonthStart(y, 12) == if Leap(y) then 366 else 365
  {
    MonthsOfYear(y);
    LeapDays(y);
  }

  lemma {:induction false} YearsGrow(y: int, z: int)
    requires y <= z
    ensures YearStart(y) + 365 * (z - y) <= YearStart(z)
    decreases z - y
  {
    if y < z {
      YearLength(y);
      YearsGrow(y + 1, z);
    }
  }

  lemma {:induction false} MonthsGrow(y: int, m: int, n: int)
    requires 0 <= m < n <= 12
    ensures MonthStart(y, m) + DaysInMonth(y, m) <= MonthStart(y, n)
    decreases n - m
  {
    if m + 1 < n {
      MonthsGrow(y, m, n - 1);
    }
  }

  predicate DateBefore(a: Date, b: Date) {
    a.year < b.year || (a.year == b.year && (a.month < b.month || (a.month == b.month && a.day < b.day)))
  }

  predicate SameDate(a: Date, b: Date) {
    a.year == b.year && a.month == b.month && a.day == b.day
  }

  lemma EarlierDate(a: Date, b: Date)
    requires Valid(a) && Valid(b) && DateBefore(a, b)
    ensures DayNumber(a) < DayNumber(b)
  {
    if a.year < b.year {
      MonthsGrow(a.year, a.month, 12);
      YearLength(a.year);
      YearsGrow(a.year + 1, b.year);
      if b.month > 0 {
        MonthsGrow(b.year, 0, b.month);
      }
    } else if a.month < b.month {
      MonthsGrow(a.year, a.month, b.month);
    }
  }

  /** The calendar order is the order of day numbers. */
  lemma DateOrder(a: Date, b: Date)
    requires Valid(a) && Valid(b)
    ensures DateBefore(a, b) <==> DayNumber(a) < DayNumber(b)
    ensures SameDate(a, b) <==> DayNumber(a) == DayNumber(b)
  {
    if DateBefore(a, b) {
      EarlierDate(a, b);
    } else if DateBefore(b, a) {
      EarlierDate(b, a);
    }
  }

  /** Taking a month's days off and moving to the next month names the same day. */
  lemma NextMonth(y: int, m: int, day: int, ms: int)
    requires 0 <= m < 12
    ensures DayNumber(Date(y, m, day, ms)) ==
            DayNumber(if m == 11 then Date(y + 1, 0, day - DaysInMonth(y, m), ms)
                else Date(y, m + 1, day - DaysInMonth(y, m), ms))
  {
    YearLength(y);
  }

  // ---- The Date object ----

  function UtcYear(y: int): int {
    if 0 <= y <= 99 then 1900 + y else y
  }

  class UtcDate {
    var year: int
    var month: int
    var day: int
    var ms: int

    constructor (d: Date)
      ensures View() == d
    {
      year, month, day, ms := d.year, d.month, d.day, d.ms;
    }

    /**
     new Date(Date.UTC(y, m, n)): months and days out of range are carried, and years 0 to 99 are taken for 1900 to
     1999.
     */
    constructor Utc(y: int, m: int, n: int)
      ensures Valid(View())
      ensures DayNumber(View()) == DayNumber(Date(UtcYear(y) + m / 12, m % 12, n, 0))
    {
      year, month, day, ms := UtcYear(y) + m / 12, m % 12, 1, 0;
      hide DayNumber, DaysInMonth;
      new;
      SetUTCDate(n);
    }

    function View(): Date
      reads this
    {
      Date(year, month, day, ms)
    }

    /**
     Days past the end of the month run on into the following months, days before the first back into the earlier
     ones.
     */
    method SetUTCDate(n: int)
      requires 0 <= month < 12 && 0 <= ms < MS_PER_DAY
      modifies this
      ensures Valid(View()) && ms == old(ms)
      ensures DayNumber(View()) == DayNumber(Date(old(year), old(month), n, 0))
      ensures 1 <= n <= DaysInMonth(old(year), old(month)) ==> year == old(year) && month == old(month) && day == n
    {
      hide YearStart, MonthStart, Leap;
      day := n;
      while day < 1
        invariant 0 <= month < 12 && ms == old(ms)
        invariant DayNumber(View()) == DayNumber(Date(old(year), old(month), n, 0))
        invariant n >= 1 ==> year == old(year) && month == old(month) && day == n
        decreases 1 - day
      {
        if month == 0 {
          year, month := year - 1, 11;
        } else {
          month := month - 1;
        }
        day := day + DaysInMonth(year, month);
        NextMonth(year, month, day, ms);
      }
      while day > DaysInMonth(year, month)
        invariant 0 <= month < 12 && day >= 1 && ms == old(ms)
        invariant DayNumber(View()) == DayNumber(Date(old(year), old(month), n, 0))
        invariant 1 <= n <= DaysInMonth(old(year), old(month)) ==> year == old(year) && month == old(month) && day == n
        decreases day
      {
        NextMonth(year, month, day, ms);
        day := day - DaysInMonth(year, month);
        if month == 11 {
          year, month := year + 1, 0;
        } else {
          month := month + 1;
        }
      }
    }

    method SetUTCFullYear(y: int)
      requires Valid(View())
      modifies this
      ensures Valid(View()) && ms == old(ms)
      ensures old(day) <= DaysInMonth(y, old(month)) ==> View() == old(View()).(year := y)
    {
      year := y;
      SetUTCDate(day);
    }
  }

  // ---- The policy ----

  function Years(t: LogType): int
    requires t != Debug
  {
    if t == Financial then 7 else if t == KycDocument then 5 else 1
  }

  /** What the year-based policies promise: same month and time, policy years later, the day clamped to the month. */
  function YearsLater(d: Date, years: int): Date {
    Date(d.year + years, d.month, Min(d.day, DaysInMonth(d.year + years, d.month)), d.ms)
  }

  ghost predicate RetainedUntil(t: LogType, created: Date, until: Date) {
    && Valid(until) && Valid(created)
    && if t == Debug then DayNumber(until) == DayNumber(created) + 90 && until.ms == created.ms
       else until == YearsLater(created, Years(t))
  }

  /** Day 0 of the next month is the last day of the month, except in a year that Date.UTC takes for another. */
  lemma LastDayOfMonth(y: int, m: int, d: Date)
    requires 0 <= m < 12 && Valid(d)
    requires DayNumber(d) == DayNumber(Date(UtcYear(y) + (m + 1) / 12, (m + 1) % 12, 0, 0))
    ensures d.day == DaysInMonth(UtcYear(y), m)
    ensures d.day == DaysInMonth(y, m) <==> !(y == 0 && m == 1)
  {
    var last := Date(UtcYear(y), m, DaysInMonth(UtcYear(y), m), 0);
    LastIsBeforeFirst(UtcYear(y), m);
    DateOrder(d, last);
    CenturyKeepsLeap(y);
  }

  lemma LastIsBeforeFirst(y: int, m: int)
    requires 0 <= m < 12
    ensures DayNumber(Date(y, m, DaysInMonth(y, m), 0)) == DayNumber(Date(y + (m + 1) / 12, (m + 1) % 12, 0, 0))
  {
    hide YearStart, MonthStart, DaysInMonth;
    NextMonthStart(y, m);
    if m == 11 {
      YearLength(y);
    } else {
      assert (m + 1) / 12 == 0 && (m + 1) % 12 == m + 1;
    }
  }

  lemma NextMonthStart(y: int, m: int)
    requires 0 <= m < 12
    ensures MonthStart(y, m + 1) == MonthStart(y, m) + DaysInMonth(y, m) && MonthStart(y + 1, 0) == 0
  {
    hide DaysInMonth;
  }

  /** Of the years 0 to 99 only year 0 differs from its namesake: 1900 is not a leap year. */
  lemma CenturyKeepsLeap(y: int)
    ensures Leap(UtcYear(y)) == Leap(y) <==> y != 0
  {
  }

  method AuditRetentionUntil(t: LogType, createdAt: Date) returns (until: Date)
    requires Valid(createdAt)
    ensures RetainedUntil(t, createdAt, until)
  {
    hide YearStart, MonthStart;
    var retainedUntil := new UtcDate(createdAt);
    if t == Debug {
      retainedUntil.SetUTCDate(retainedUntil.day + 90);
    } else {
      var years := if t == Financial then 7 else if t == KycDocument then 5 else 1;
      var targetYear := retainedUntil.year + years;
      var dayOfMonth := retainedUntil.day;
      retainedUntil.SetUTCDate(1);
      retainedUntil.SetUTCFullYear(targetYear);
      var lastOfMonth := new UtcDate.Utc(targetYear, retainedUntil.month + 1, 0);
      LastDayOfMonth(targetYear, retainedUntil.month, lastOfMonth.View());
      retainedUntil.SetUTCDate(Min(dayOfMonth, lastOfMonth.day));
    }
    until := retainedUntil.View();
  }

  /** The specification leaves one answer. */
  lemma UntilIsUnique(t: LogType, created: Date, u: Date, v: Date)
    requires RetainedUntil(t, created, u) && RetainedUntil(t, created, v)
    ensures u == v
  {
    DateOrder(u, v);
  }

  /** A year later is 365 or 366 days later, never fewer. */
  lemma AYearIsLong(d: Date, years: int)
    requires Valid(d) && years >= 1
    ensures Valid(YearsLater(d, years))
    ensures DayNumber(YearsLater(d, years)) >= DayNumber(d) + 365
  {
    hide YearStart, MonthStart, Leap;
    var y, z := d.year, d.year + years;
    YearLength(y);
    YearsGrow(y + 1, z);
    MonthShift(y, z, d.month);
  }

  /** Years differ only by the 29th of February. */
  lemma {:induction false} MonthShift(y: int, z: int, m: int)
    requires 0 <= m < 12
    ensures MonthStart(z, m) - MonthStart(y, m) ==
            if m < 2 || Leap(y) == Leap(z) then 0 else if Leap(z) then 1 else -1
    decreases m
  {
    if m > 0 {
      MonthShift(y, z, m - 1);
    }
  }

  /** For one creation date: debug before operational before KYC before financial. */
  lemma PoliciesAreOrdered(created: Date, debug: Date, operational: Date, kyc: Date, financial: Date)
    requires RetainedUntil(Debug, created, debug) && RetainedUntil(Operational, created, operational)
    requires RetainedUntil(KycDocument, created, kyc) && RetainedUntil(Financial, created, financial)
    ensures Instant(created) < Instant(debug) < Instant(operational) < Instant(kyc) < Instant(financial)
  {
    AYearIsLong(created, 1);
    EarlierDate(operational, kyc);
    EarlierDate(kyc, financial);
  }

  /** Financial rows are kept seven years, KYC documents five, operational ones one, debug ones ninety days. */
  lemma PolicyPeriods(created: Date, financial: Date, kyc: Date, operational: Date, debug: Date)
    requires RetainedUntil(Financial, created, financial) && RetainedUntil(KycDocument, created, kyc)
    requires RetainedUntil(Operational, created, operational) && RetainedUntil(Debug, created, debug)
    ensures financial.year == created.year + 7 && kyc.year == created.year + 5 && operational.year == created.year + 1
    ensures financial.month == kyc.month == operational.month == created.month
    ensures !(created.month == 1 && created.day == 29) ==>
      financial.day == kyc.day == operational.day == created.day
    ensures created.month == 1 && created.day == 29 ==> financial.day == kyc.day == operational.day == 28
    ensures Instant(debug) == Instant(created) + 90 * 24 * 60 * 60 * 1000
  {
    hide YearStart, MonthStart;
    SameDayLater(created, 7);
    SameDayLater(created, 5);
    SameDayLater(created, 1);
  }

  lemma SameDayLater(d: Date, years: int)
    requires Valid(d) && 1 <= years <= 7 && years != 4
    ensures var later := YearsLater(d, years);
      if d.month == 1 && d.day == 29 then later.day == 28 else later.day == d.day
  {
    hide YearStart, MonthStart;
    if d.month == 1 && d.day == 29 {
      LeapsAreRare(d.year, years);
    }
  }

  lemma LeapsAreRare(y: int, years: int)
    requires Leap(y) && 1 <= years <= 7 && years != 4
    ensures !Leap(y + years)
  {
  }

  /** The months of a common year, and February of a leap year. */
  lemma MonthsBegin()
    ensures forall m :: 0 <= m < 12 ==>
      MonthStart(2023, m) == [0, 31, 59, 90, 120, 151, 181, 212, 243, 273, 304, 334][m]
    ensures MonthStart(2024, 2) - MonthStart(2024, 1) == 29 && MonthStart(2000, 2) == 60 && MonthStart(1900, 2) == 59
  {
    assert MonthStart(2023, 3) == 90 && MonthStart(2023, 6) == 181 && MonthStart(2023, 9) == 273;
    forall m | 0 <= m < 12
      ensures MonthStart(2023, m) == [0, 31, 59, 90, 120, 151, 181, 212, 243, 273, 304, 334][m]
    {
      if m >= 9 {
        assert MonthStart(2023, 10) == 304;
      } else if m >= 6 {
        assert MonthStart(2023, 7) == 212;
      } else if m >= 3 {
        assert MonthStart(2023, 4) == 120;
      }
    }
  }

  /** Later creation dates are kept at least as long, date by date. */
  lemma MonotoneOnDates(t: LogType, a: Date, b: Date, u: Date, v: Date)
    requires RetainedUntil(t, a, u) && RetainedUntil(t, b, v)
    requires !DateBefore(b, a)
    ensures !DateBefore(v, u)
  {
    DateOrder(b, a);
    DateOrder(v, u);
  }

  /**
   The one way two instants can change places: 28 and 29 February squeezed onto one day, with the time of day the
   other way round.
   */
  predicate Squeezed(t: LogType, a: Date, b: Date) {
    && t != Debug && a.year == b.year && a.month == b.month == 1 && a.day == 28 && b.day == 29
    && !Leap(a.year + Years(t)) && b.ms < a.ms
  }

  /** In milliseconds the order survives except, exactly, in that case. */
  lemma MonotoneOnInstantsIff(t: LogType, a: Date, b: Date, u: Date, v: Date)
    requires RetainedUntil(t, a, u) && RetainedUntil(t, b, v)
    requires Instant(a) <= Instant(b)
    ensures Instant(u) <= Instant(v) <==> !Squeezed(t, a, b)
  {
    DateOrder(a, b);
    DateOrder(u, v);
  }

  /** The failing case occurs: rows of 28 February 2024, noon, and 29 February 2024, midnight, kept one year. */
  lemma SqueezeExample()
    ensures var a, b := Date(2024, 1, 28, 43_200_000), Date(2024, 1, 29, 0);
      Instant(a) < Instant(b) && Instant(YearsLater(a, 1)) > Instant(YearsLater(b, 1))
  {
    assert Leap(2024) && !Leap(2025);
  }
}
