/** Proleptic Gregorian dates and times with the arithmetic of Python's
    `datetime` module: a date is numbered by its ordinal (1 for 0001-01-01),
    adding a `timedelta` moves the ordinal, and a result past 9999-12-31
    raises OverflowError, modelled here as `None`. */
module Calendar {
  import opened Wrappers

  const MinYear := 1
  const MaxYear := 9999
  /** Ordinal of 9999-12-31, the last date `datetime` can represent. */
  const MaxOrdinal := 3652059

  const SecondsPerDay := 86400
  const MinutesPerDay := 1440

  datatype Date = Date(year: int, month: int, day: int)

  datatype DateTime = DateTime(date: Date, hour: int, minute: int, second: int)

  predicate IsLeap(y: int) {
    y % 4 == 0 && (y % 100 != 0 || y % 400 == 0)
  }

  function DaysInYear(y: int): int {
    if IsLeap(y) then 366 else 365
  }

  function DaysInMonth(y: int, m: int): (n: int)
    requires 1 <= m <= 12
    ensures 28 <= n <= 31
  {
    if m == 2 then (if IsLeap(y) then 29 else 28)
    else if m == 4 || m == 6 || m == 9 || m == 11 then 30
    else 31
  }

  predicate ValidDate(d: Date) {
    MinYear <= d.year <= MaxYear && 1 <= d.month <= 12 && 1 <= d.day <= DaysInMonth(d.year, d.month)
  }

  predicate ValidDateTime(t: DateTime) {
    ValidDate(t.date) && 0 <= t.hour < 24 && 0 <= t.minute < 60 && 0 <= t.second < 60
  }

  /** Days in the years before `y`, in the closed form `datetime` uses. */
  function DaysBeforeYear(y: int): int
    requires y >= 1
  {
    var y1 := y - 1;
    y1 * 365 + y1 / 4 - y1 / 100 + y1 / 400
  }

  /** Days in the months of year `y` before month `m`. */
  function DaysBeforeMonth(y: int, m: int): int
    requires 1 <= m <= 12
  {
    [0, 31, 59, 90, 120, 151, 181, 212, 243, 273, 304, 334][m - 1]
      + (if m > 2 && IsLeap(y) then 1 else 0)
  }

  function Ordinal(d: Date): int
    requires ValidDate(d)
  {
    DaysBeforeYear(d.year) + DaysBeforeMonth(d.year, d.month) + d.day
  }

  /** Seconds since 0001-01-01 00:00:00 (shifted by one day, which no
      difference of two instants sees). */
  function Instant(t: DateTime): int
    requires ValidDateTime(t)
  {
    Ordinal(t.date) * SecondsPerDay + t.hour * 3600 + t.minute * 60 + t.second
  }

  function MaxDate(): (d: Date)
    ensures ValidDate(d) && Ordinal(d) == MaxOrdinal
  {
    Date(MaxYear, 12, 31)
  }

  /** The date `n` days after `d`, walking month by month; `None` when it
      would lie after 9999-12-31. */
  function AddDays(d: Date, n: nat): Option<Date>
    requires ValidDate(d)
    decreases n
  {
    var dim := DaysInMonth(d.year, d.month);
    if d.day + n <= dim then Some(Date(d.year, d.month, d.day + n))
    else
      var rest := n - (dim - d.day + 1);
      if d.month < 12 then AddDays(Date(d.year, d.month + 1, 1), rest)
      else if d.year < MaxYear then AddDays(Date(d.year + 1, 1, 1), rest)
      else None
  }

  /** `t + timedelta(days=days, minutes=minutes)`: the minutes carry into
      whole days, the seconds are untouched. */
  function AddTime(t: DateTime, days: nat, minutes: nat): Option<DateTime>
    requires ValidDateTime(t)
  {
    var tod := t.hour * 60 + t.minute + minutes;
    match AddDays(t.date, days + tod / MinutesPerDay)
    case None => None
    case Some(d) => Some(DateTime(d, (tod % MinutesPerDay) / 60, tod % 60, t.second))
  }

  // ---------------------------------------------------------------------
  // Ordinal arithmetic

  /** Crossing from `y - 1` to `y` adds one multiple of 4, 100 or 400
      exactly when `y` is one. */
  lemma DivStep(y: int)
    requires y >= 1
    ensures y / 4 - (y - 1) / 4 == if y % 4 == 0 then 1 else 0
    ensures y / 100 - (y - 1) / 100 == if y % 100 == 0 then 1 else 0
    ensures y / 400 - (y - 1) / 400 == if y % 400 == 0 then 1 else 0
  {
  }

  lemma Divisible400Is100(y: int)
    requires y % 400 == 0
    ensures y % 100 == 0
  {
    var q := y / 400;
    assert y == 100 * (4 * q);
  }

  lemma Divisible100Is4(y: int)
    requires y % 100 == 0
    ensures y % 4 == 0
  {
    var q := y / 100;
    assert y == 4 * (25 * q);
  }

  lemma DaysBeforeYearDiff(y: int)
    requires y >= 1
    ensures DaysBeforeYear(y + 1) - DaysBeforeYear(y)
      == 365 + (y / 4 - (y - 1) / 4) - (y / 100 - (y - 1) / 100) + (y / 400 - (y - 1) / 400)
  {
  }

  /** The closed form counts 366 days for a leap year and 365 otherwise. */
  lemma DaysBeforeYearStep(y: int)
    requires y >= 1
    ensures DaysBeforeYear(y + 1) == DaysBeforeYear(y) + DaysInYear(y)
  {
    DivStep(y);
    if y % 400 == 0 {
      Divisible400Is100(y);
    }
    if y % 100 == 0 {
      Divisible100Is4(y);
    }
    DaysBeforeYearDiff(y);
  }

  lemma DaysBeforeMonthStep(y: int, m: int)
    requires 1 <= m < 12
    ensures DaysBeforeMonth(y, m + 1) == DaysBeforeMonth(y, m) + DaysInMonth(y, m)
  {
  }

  lemma DaysBeforeDecember(y: int)
    ensures DaysBeforeMonth(y, 12) + DaysInMonth(y, 12) == DaysInYear(y)
  {
  }

  /** The first day of the month after `d` is dim - day + 1 days later. */
  lemma NextMonthOrdinal(d: Date)
    requires ValidDate(d) && (d.month < 12 || d.year < MaxYear)
    ensures var e := if d.month < 12 then Date(d.year, d.month + 1, 1) else Date(d.year + 1, 1, 1);
      ValidDate(e) && Ordinal(e) == Ordinal(d) + (DaysInMonth(d.year, d.month) - d.day + 1)
  {
    if d.month < 12 {
      DaysBeforeMonthStep(d.year, d.month);
    } else {
      DaysBeforeYearStep(d.year);
      DaysBeforeDecember(d.year);
    }
  }

  /** Adding days moves the ordinal by exactly that many days, and fails
      exactly when the ordinal would pass the last representable date. */
  lemma {:induction false} AddDaysOrdinal(d: Date, n: nat)
    requires ValidDate(d)
    ensures AddDays(d, n).Some? <==> Ordinal(d) + n <= MaxOrdinal
    ensures AddDays(d, n).Some? ==>
      ValidDate(AddDays(d, n).value) && Ordinal(AddDays(d, n).value) == Ordinal(d) + n
    decreases n
  {
    var dim := DaysInMonth(d.year, d.month);
    if d.day + n <= dim {
      var e := Date(d.year, d.month, d.day + n);
      assert AddDays(d, n) == Some(e);
      assert Ordinal(e) == Ordinal(d) + n;
      OrdinalAtMostMax(e);
    } else {
      var rest := n - (dim - d.day + 1);
      if d.month < 12 || d.year < MaxYear {
        var e := if d.month < 12 then Date(d.year, d.month + 1, 1) else Date(d.year + 1, 1, 1);
        assert AddDays(d, n) == AddDays(e, rest);
        NextMonthOrdinal(d);
        AddDaysOrdinal(e, rest);
      } else {
        assert AddDays(d, n) == None;
        assert Ordinal(d) == MaxOrdinal - 31 + d.day;
      }
    }
  }

  /** No valid date lies after 9999-12-31. */
  lemma OrdinalAtMostMax(d: Date)
    requires ValidDate(d)
    ensures Ordinal(d) <= MaxOrdinal
  {
    DayOfYearBound(d);
    if d.year < MaxYear {
      DaysBeforeYearGrows(d.year, MaxYear);
      DayOfYearBound(MaxDate());
    }
  }

  lemma TimeOfDaySplit(tod: nat)
    ensures ((tod % MinutesPerDay) / 60) * 60 + tod % 60 == tod % MinutesPerDay
    ensures (tod / MinutesPerDay) * MinutesPerDay + tod % MinutesPerDay == tod
    ensures 0 <= (tod % MinutesPerDay) / 60 < 24
  {
    var q, r := tod / MinutesPerDay, tod % MinutesPerDay;
    var h, m := r / 60, r % 60;
    assert tod == q * MinutesPerDay + r;
    assert r == h * 60 + m;
    assert tod == (q * 24 + h) * 60 + m;
    assert tod % 60 == m;
  }

  /** `datetime + timedelta`: valid on success, moves the instant by exactly
      the delta, and fails exactly when the resulting ordinal is too large. */
  lemma AddTimeInstant(t: DateTime, days: nat, minutes: nat)
    requires ValidDateTime(t)
    ensures AddTime(t, days, minutes).Some? <==>
      Ordinal(t.date) + days + (t.hour * 60 + t.minute + minutes) / MinutesPerDay <= MaxOrdinal
    ensures AddTime(t, days, minutes).Some? ==>
      var u := AddTime(t, days, minutes).value;
      ValidDateTime(u) && Instant(u) == Instant(t) + days * SecondsPerDay + minutes * 60
  {
    var tod := t.hour * 60 + t.minute + minutes;
    var carry := tod / MinutesPerDay;
    AddDaysOrdinal(t.date, days + carry);
    if AddDays(t.date, days + carry).Some? {
      var d := AddDays(t.date, days + carry).value;
      var r := tod % MinutesPerDay;
      TimeOfDaySplit(tod);
      InstantOfParts(t, d, days + carry, r / 60, tod % 60);
      var u := DateTime(d, r / 60, tod % 60, t.second);
      assert u == AddTime(t, days, minutes).value;
      assert Instant(u) == Instant(t) + (days + carry) * SecondsPerDay + (r - t.hour * 60 - t.minute) * 60;
      assert carry * SecondsPerDay + r * 60 == tod * 60;
    }
  }

  lemma InstantOfParts(t: DateTime, d: Date, n: nat, h: int, m: int)
    requires ValidDateTime(t) && ValidDate(d) && Ordinal(d) == Ordinal(t.date) + n
    requires 0 <= h < 24 && 0 <= m < 60
    ensures ValidDateTime(DateTime(d, h, m, t.second))
    ensures Instant(DateTime(d, h, m, t.second)) == Instant(t) + n * SecondsPerDay
      + (h * 60 + m - t.hour * 60 - t.minute) * 60
  {
  }

  // ---------------------------------------------------------------------
  // Ordinals name dates uniquely

  lemma {:induction false} DaysBeforeYearGrows(y1: int, y2: int)
    requires 1 <= y1 < y2
    ensures DaysBeforeYear(y1) + DaysInYear(y1) <= DaysBeforeYear(y2)
    decreases y2 - y1
  {
    DaysBeforeYearStep(y1);
    if y1 + 1 < y2 {
      DaysBeforeYearGrows(y1 + 1, y2);
    }
  }

  lemma DaysBeforeMonthGrows(y: int, m1: int, m2: int)
    requires 1 <= m1 < m2 <= 12
    ensures DaysBeforeMonth(y, m1) + DaysInMonth(y, m1) <= DaysBeforeMonth(y, m2)
  {
  }

  lemma DayOfYearBound(d: Date)
    requires ValidDate(d)
    ensures DaysBeforeMonth(d.year, d.month) + d.day <= DaysInYear(d.year)
  {
    if d.month < 12 {
      DaysBeforeMonthGrows(d.year, d.month, 12);
    }
    DaysBeforeDecember(d.year);
  }

  /** Two valid dates with the same ordinal are the same date, so the date
      `AddDays` returns is the one `date.fromordinal` would. */
  lemma OrdinalInjective(a: Date, b: Date)
    requires ValidDate(a) && ValidDate(b) && Ordinal(a) == Ordinal(b)
    ensures a == b
  {
    DayOfYearBound(a);
    DayOfYearBound(b);
    if a.year < b.year {
      DaysBeforeYearGrows(a.year, b.year);
    } else if b.year < a.year {
      DaysBeforeYearGrows(b.year, a.year);
    }
    assert a.year == b.year;
    if a.month < b.month {
      DaysBeforeMonthGrows(a.year, a.month, b.month);
    } else if b.month < a.month {
      DaysBeforeMonthGrows(a.year, b.month, a.month);
    }
  }
}
