/** Proleptic Gregorian dates, counted as days. */
module Calendar {

  const MIN_YEAR: int := 1
  const MAX_YEAR: int := 9999

  datatype Date = Date(year: int, month: int, day: int)

  predicate Leap(y: int) {
    y % 4 == 0 && (y % 100 != 0 || y % 400 == 0)
  }

  function DaysInMonth(y: int, m: int): nat
    requires 1 <= m <= 12
  {
    if m == 2 then (if Leap(y) then 29 else 28)
    else if m in {4, 6, 9, 11} then 30
    else 31
  }

  /** What the `date` constructor accepts. */
  predicate ValidDate(d: Date) {
    && MIN_YEAR <= d.year <= MAX_YEAR
    && 1 <= d.month <= 12
    && 1 <= d.day <= DaysInMonth(d.year, d.month)
  }

  function DaysBeforeYear(y: int): int {
    (y - 1) * 365 + (y - 1) / 4 - (y - 1) / 100 + (y - 1) / 400
  }

  function DaysBeforeMonth(y: int, m: int): nat
    requires 1 <= m <= 12
    decreases m
  {
    if m == 1 then 0 else DaysBeforeMonth(y, m - 1) + DaysInMonth(y, m - 1)
  }

  /** Day number of a date. */
  function Ordinal(d: Date): int
    requires ValidDate(d)
  {
    DaysBeforeYear(d.year) + DaysBeforeMonth(d.year, d.month) + d.day
  }

  predicate Earlier(a: Date, b: Date) {
    || a.year < b.year
    || (a.year == b.year && a.month < b.month)
    || (a.year == b.year && a.month == b.month && a.day < b.day)
  }

  lemma YearLength(y: int)
    ensures DaysBeforeYear(y + 1) == DaysBeforeYear(y) + if Leap(y) then 366 else 365
  {
    LastMultiple(y, 4);
    LastMultiple(y, 100);
    LastMultiple(y, 400);
  }

  lemma LastMultiple(y: int, k: int)
    requires k in {4, 100, 400}
    ensures y / k - (y - 1) / k == if y % k == 0 then 1 else 0
  {
  }

  lemma {:induction false} YearsGrow(a: int, b: int)
    requires a <= b
    ensures DaysBeforeYear(b) >= DaysBeforeYear(a) + 365 * (b - a)
    decreases b - a
  {
    if a < b {
      YearLength(a);
      YearsGrow(a + 1, b);
    }
  }

  lemma {:induction false} MonthsGrow(y: int, a: int, b: int)
    requires 1 <= a < b <= 12
    ensures DaysBeforeMonth(y, b) >= DaysBeforeMonth(y, a) + DaysInMonth(y, a)
    decreases b
  {
    if a < b - 1 {
      MonthsGrow(y, a, b - 1);
    }
  }

  lemma MonthTable(y: int)
    ensures DaysBeforeMonth(y, 12) + 31 == if Leap(y) then 366 else 365
  {
    var f := DaysInMonth(y, 2);
    assert DaysBeforeMonth(y, 2) == 31;
    assert DaysBeforeMonth(y, 4) == 31 + f + 31;
    assert DaysBeforeMonth(y, 6) == 31 + f + 31 + 30 + 31;
    assert DaysBeforeMonth(y, 8) == 31 + f + 31 + 30 + 31 + 30 + 31;
    assert DaysBeforeMonth(y, 10) == 31 + f + 31 + 30 + 31 + 30 + 31 + 31 + 30;
  }

  lemma DayOfYear(d: Date)
    requires ValidDate(d)
    ensures 1 <= DaysBeforeMonth(d.year, d.month) + d.day
    ensures Ordinal(d) <= DaysBeforeYear(d.year + 1)
  {
    MonthTable(d.year);
    YearLength(d.year);
    if d.month < 12 {
      MonthsGrow(d.year, d.month, 12);
    }
  }

  /** Day numbers order dates as the calendar does. */
  lemma OrdinalOrders(a: Date, b: Date)
    requires ValidDate(a) && ValidDate(b)
    ensures Earlier(a, b) <==> Ordinal(a) < Ordinal(b)
    ensures a == b <==> Ordinal(a) == Ordinal(b)
  {
    EarlierIsLess(a, b);
    EarlierIsLess(b, a);
  }

  lemma EarlierIsLess(a: Date, b: Date)
    requires ValidDate(a) && ValidDate(b)
    ensures Earlier(a, b) ==> Ordinal(a) < Ordinal(b)
  {
    if a.year < b.year {
      DayOfYear(a);
      DayOfYear(b);
      YearsGrow(a.year + 1, b.year);
    } else if a.year == b.year && a.month < b.month {
      MonthsGrow(a.year, a.month, b.month);
    }
  }

  /** The calendar's last day, number 3652059. */
  lemma LastDay()
    ensures ValidDate(Date(9999, 12, 31)) && Ordinal(Date(9999, 12, 31)) == 3652059
  {
    MonthTable(9999);
  }

  lemma NextDay(d: Date) returns (e: Date)
    requires ValidDate(d) && d != Date(9999, 12, 31)
    ensures ValidDate(e) && Ordinal(e) == Ordinal(d) + 1
  {
    if d.day < DaysInMonth(d.year, d.month) {
      e := d.(day := d.day + 1);
    } else if d.month < 12 {
      e := Date(d.year, d.month + 1, 1);
    } else {
      e := Date(d.year + 1, 1, 1);
      MonthTable(d.year);
      YearLength(d.year);
    }
  }

  /** The valid dates are all the days from number 1 to that one, without a gap. */
  lemma {:induction false} EveryDayIsADate(n: int) returns (d: Date)
    requires 1 <= n <= 3652059
    ensures ValidDate(d) && Ordinal(d) == n
    decreases n
  {
    if n == 1 {
      d := Date(1, 1, 1);
    } else {
      LastDay();
      var before := EveryDayIsADate(n - 1);
      d := NextDay(before);
    }
  }

  /** The same day one year on is 365 or 366 days later. */
  lemma SameDayNextYear(d: Date)
    requires ValidDate(d) && ValidDate(d.(year := d.year + 1))
    ensures 365 <= Ordinal(d.(year := d.year + 1)) - Ordinal(d) <= 366
  {
    YearLength(d.year);
    MonthsShift(d.year, d.month);
  }

  lemma {:induction false} MonthsShift(y: int, m: int)
    requires 1 <= m <= 12
    ensures var shift := DaysBeforeMonth(y + 1, m) - DaysBeforeMonth(y, m);
      if m <= 2 then shift == 0 else shift == DaysInMonth(y + 1, 2) - DaysInMonth(y, 2)
    decreases m
  {
    if m > 1 {
      MonthsShift(y, m - 1);
    }
  }
}
