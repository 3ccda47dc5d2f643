/**
 The proleptic Gregorian calendar from year 0, as Go's time package counts it: day numbers, the day
 after a date, and the order of civil times.
 */
module Calendar {

  predicate IsLeap(year: nat) {
    year % 4 == 0 && (year % 100 != 0 || year % 400 == 0)
  }

  function DaysIn(year: nat, month: nat): (n: nat)
    requires 1 <= month <= 12
    ensures 28 <= n <= 31
  {
    if month == 2 then (if IsLeap(year) then 29 else 28)
    else if month == 4 || month == 6 || month == 9 || month == 11 then 30
    else 31
  }

  function YearLength(year: nat): nat {
    if IsLeap(year) then 366 else 365
  }

  function DaysBeforeYear(year: nat): nat {
    if year == 0 then 0 else DaysBeforeYear(year - 1) + YearLength(year - 1)
  }

  function DaysBeforeMonth(year: nat, month: nat): nat
    requires 1 <= month <= 13
  {
    if month == 1 then 0 else DaysBeforeMonth(year, month - 1) + DaysIn(year, month - 1)
  }

  datatype Date = Date(year: nat, month: nat, day: nat) {
    predicate Valid() {
      1 <= month <= 12 && 1 <= day <= DaysIn(year, month)
    }
  }

  /** Days since 1 January of year 0; a day beyond the month's end runs into the next month. */
  function DayNumber(year: nat, month: nat, day: nat): int
    requires 1 <= month <= 12
  {
    DaysBeforeYear(year) + DaysBeforeMonth(year, month) + day - 1
  }

  function NumberOf(d: Date): int
    requires d.Valid()
  {
    DayNumber(d.year, d.month, d.day)
  }

  function NextDate(d: Date): (n: Date)
    requires d.Valid()
    ensures n.Valid()
  {
    if d.day < DaysIn(d.year, d.month) then Date(d.year, d.month, d.day + 1)
    else if d.month < 12 then Date(d.year, d.month + 1, 1)
    else Date(d.year + 1, 1, 1)
  }

  lemma MonthsFillTheYear(year: nat)
    ensures DaysBeforeMonth(year, 13) == YearLength(year)
  {
    assert DaysBeforeMonth(year, 2) == 31;
    assert DaysBeforeMonth(year, 3) == DaysIn(year, 2) + 31;
    assert DaysBeforeMonth(year, 5) == DaysIn(year, 2) + 92;
    assert DaysBeforeMonth(year, 7) == DaysIn(year, 2) + 153;
    assert DaysBeforeMonth(year, 9) == DaysIn(year, 2) + 215;
    assert DaysBeforeMonth(year, 11) == DaysIn(year, 2) + 276;
  }

  lemma Fourths(year: nat)
    ensures (year + 4) / 4 == (year + 3) / 4 + if year % 4 == 0 then 1 else 0
  {
  }

  lemma Hundredths(year: nat)
    ensures (year + 100) / 100 == (year + 99) / 100 + if year % 100 == 0 then 1 else 0
  {
  }

  lemma FourHundredths(year: nat)
    ensures (year + 400) / 400 == (year + 399) / 400 + if year % 400 == 0 then 1 else 0
  {
  }

  lemma Multiples(year: nat)
    ensures year % 100 == 0 ==> year % 4 == 0
    ensures year % 400 == 0 ==> year % 100 == 0
  {
    assert year % 100 == 0 ==> year == 4 * (25 * (year / 100));
    assert year % 400 == 0 ==> year == 100 * (4 * (year / 400));
  }

  /** Leap days before a year: one in four years, but not in a hundred, yet in four hundred. */
  function LeapDays(year: nat): int {
    (year + 3) / 4 - (year + 99) / 100 + (year + 399) / 400
  }

  lemma LeapStep(year: nat)
    ensures LeapDays(year + 1) == LeapDays(year) + YearLength(year) - 365
  {
    Fourths(year);
    Hundredths(year);
    FourHundredths(year);
    Multiples(year);
  }

  lemma {:induction false} DaysBeforeYearIs(year: nat)
    ensures DaysBeforeYear(year) == 365 * year + (year + 3) / 4 - (year + 99) / 100 + (year + 399) / 400
  {
    if year > 0 {
      DaysBeforeYearIs(year - 1);
      LeapStep(year - 1);
    }
  }

  /** Months of 31 and 30 days alternate, with July and August both long, and February is one or two short. */
  lemma DaysBeforeMonthIs(year: nat, month: nat)
    requires 1 <= month <= 12
    ensures DaysBeforeMonth(year, month)
            == (367 * month - 362) / 12 - if month <= 2 then 0 else if IsLeap(year) then 1 else 2
  {
    assert DaysBeforeMonth(year, 2) == 31;
    assert DaysBeforeMonth(year, 3) == DaysIn(year, 2) + 31;
    assert DaysBeforeMonth(year, 5) == DaysIn(year, 2) + 92;
    assert DaysBeforeMonth(year, 7) == DaysIn(year, 2) + 153;
    assert DaysBeforeMonth(year, 9) == DaysIn(year, 2) + 215;
    assert DaysBeforeMonth(year, 11) == DaysIn(year, 2) + 276;
  }

  /** The next date is one day later, within a month and across month and year ends. */
  lemma NextDateIsOneDayLater(d: Date)
    requires d.Valid()
    ensures NumberOf(NextDate(d)) == NumberOf(d) + 1
    ensures NumberOf(NextDate(d)) == DayNumber(d.year, d.month, d.day + 1)
  {
    if d.day == DaysIn(d.year, d.month) && d.month == 12 {
      MonthsFillTheYear(d.year);
    }
  }

  lemma {:induction false} MonthOrder(year: nat, m: nat, n: nat)
    requires 1 <= m < n <= 13
    ensures DaysBeforeMonth(year, m) + DaysIn(year, m) <= DaysBeforeMonth(year, n)
    decreases n
  {
    if m < n - 1 {
      MonthOrder(year, m, n - 1);
    }
  }

  lemma {:induction false} YearOrder(m: nat, n: nat)
    requires m < n
    ensures DaysBeforeYear(m) + YearLength(m) <= DaysBeforeYear(n)
    decreases n
  {
    if m < n - 1 {
      YearOrder(m, n - 1);
    }
  }

  predicate DateBefore(a: Date, b: Date) {
    a.year < b.year || (a.year == b.year && (a.month < b.month || (a.month == b.month && a.day < b.day)))
  }

  lemma DayWithinYear(d: Date)
    requires d.Valid()
    ensures DaysBeforeYear(d.year) <= NumberOf(d) < DaysBeforeYear(d.year) + YearLength(d.year)
  {
    MonthsFillTheYear(d.year);
    MonthOrder(d.year, d.month, 13);
  }

  /** Field-by-field order of dates is the order of days. */
  lemma DateOrder(a: Date, b: Date)
    requires a.Valid() && b.Valid() && DateBefore(a, b)
    ensures NumberOf(a) < NumberOf(b)
  {
    if a.year < b.year {
      YearOrder(a.year, b.year);
      DayWithinYear(a);
      DayWithinYear(b);
    } else if a.month < b.month {
      MonthOrder(a.year, a.month, b.month);
    }
  }

  /** A wall-clock reading in UTC to the second. */
  datatype Civil = Civil(date: Date, hour: nat, minute: nat, second: nat) {
    predicate Valid() {
      date.Valid() && hour < 24 && minute < 60 && second < 60
    }

    function SecondOfDay(): nat {
      3600 * hour + 60 * minute + second
    }
  }

  function Instant(c: Civil): int
    requires c.Valid()
  {
    86400 * NumberOf(c.date) + c.SecondOfDay()
  }

  predicate ClockBefore(a: Civil, b: Civil) {
    a.hour < b.hour || (a.hour == b.hour && (a.minute < b.minute || (a.minute == b.minute && a.second < b.second)))
  }

  predicate CivilBefore(a: Civil, b: Civil) {
    DateBefore(a.date, b.date) || (a.date == b.date && ClockBefore(a, b))
  }

  /** Field-by-field order of civil times is the order of instants. */
  lemma CivilOrder(a: Civil, b: Civil)
    requires a.Valid() && b.Valid()
    ensures CivilBefore(a, b) <==> Instant(a) < Instant(b)
  {
    if DateBefore(a.date, b.date) {
      DateOrder(a.date, b.date);
    } else if DateBefore(b.date, a.date) {
      DateOrder(b.date, a.date);
    } else {
      assert a.date == b.date;
    }
  }
}
