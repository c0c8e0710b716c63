/** The Gregorian calendar, as UTC fields and as a count of seconds. */
module Calendar {

  datatype Civil = Civil(year: int, month: int, day: int, hour: int, minute: int, second: int)

  predicate IsLeap(y: int) {
    y % 4 == 0 && (y % 100 != 0 || y % 400 == 0)
  }

  function DaysIn(y: int, m: int): int {
    if m == 2 then (if IsLeap(y) then 29 else 28)
    else if m == 4 || m == 6 || m == 9 || m == 11 then 30
    else 31
  }

  predicate Valid(c: Civil) {
    && c.year >= 1 && 1 <= c.month <= 12 && 1 <= c.day <= DaysIn(c.year, c.month)
    && 0 <= c.hour < 24 && 0 <= c.minute < 60 && 0 <= c.second < 60
  }

  /** Days from 1 January of year 1 to 1 January of y. */
  function DaysBeforeYear(y: int): int
    requires y >= 1
  {
    if y == 1 then 0 else DaysBeforeYear(y - 1) + if IsLeap(y - 1) then 366 else 365
  }

  function DaysBeforeMonth(y: int, m: int): (d: int)
    requires 1 <= m <= 13
    decreases m
    ensures 28 * (m - 1) <= d <= 31 * (m - 1)
  {
    if m == 1 then 0 else DaysBeforeMonth(y, m - 1) + DaysIn(y, m - 1)
  }

  function DayNumber(y: int, m: int, d: int): int
    requires y >= 1 && 1 <= m <= 12
  {
    DaysBeforeYear(y) + DaysBeforeMonth(y, m) + d - 1
  }

  /** Seconds since the start of year 1. */
  function Seconds(c: Civil): int
    requires Valid(c)
  {
    DayNumber(c.year, c.month, c.day) * 86400 + c.hour * 3600 + c.minute * 60 + c.second
  }

  /** The long months are the odd ones to July and the even ones from August. */
  lemma MonthLengths(y: int, m: int)
    requires 1 <= m <= 12 && m != 2
    ensures DaysIn(y, m) == 30 + (if m <= 7 then m % 2 else 1 - m % 2)
  {
  }

  /** A February is longer every fourth year, but for the hundredth, unless it is the
      four hundredth. */
  lemma FebruaryLength(y: int)
    ensures DaysIn(y, 2) == 28 + (if y % 4 == 0 then 1 else 0) - (if y % 100 == 0 then 1 else 0)
                            + (if y % 400 == 0 then 1 else 0)
  {
    var q, r := y / 400, y % 400;
    assert y == 400 * q + r;
    Quotients(q, r);
    LeapRemainders(r);
  }

  lemma LeapRemainders(r: int)
    requires 0 <= r < 400
    ensures r % 100 == 0 ==> r % 4 == 0
  {
    assert r == 100 * (r / 100) + r % 100;
    assert 0 <= r / 100 <= 3;
  }

  /** A year has the days of its months. */
  lemma YearLength(y: int)
    requires y >= 1
    ensures DaysBeforeYear(y + 1) == DaysBeforeYear(y) + DaysBeforeMonth(y, 13)
  {
    assert DaysBeforeMonth(y, 4) == 31 + DaysIn(y, 2) + 31;
    assert DaysBeforeMonth(y, 7) == DaysBeforeMonth(y, 4) + 30 + 31 + 30;
    assert DaysBeforeMonth(y, 10) == DaysBeforeMonth(y, 7) + 31 + 31 + 30;
    assert DaysBeforeMonth(y, 13) == DaysBeforeMonth(y, 10) + 31 + 30 + 31;
  }

  /** The count in closed form. */
  lemma {:induction false} DaysBeforeYearIs(y: int)
    requires y >= 1
    ensures DaysBeforeYear(y) == 365 * (y - 1) + (y - 1) / 4 - (y - 1) / 100 + (y - 1) / 400
    decreases y
  {
    if y > 1 {
      DaysBeforeYearIs(y - 1);
      LeapQuotients(y - 1);
    }
  }

  lemma LeapQuotients(y: int)
    requires y >= 1
    ensures y / 4 - y / 100 + y / 400 ==
            (y - 1) / 4 - (y - 1) / 100 + (y - 1) / 400 + if IsLeap(y) then 1 else 0
  {
    var q, r := y / 400, y % 400;
    assert y == 400 * q + r;
    Quotients(q, r);
    if r == 0 {
      assert y - 1 == 400 * (q - 1) + 399;
      Quotients(q - 1, 399);
    } else {
      assert y - 1 == 400 * q + (r - 1);
      Quotients(q, r - 1);
      LeapInCycle(r);
    }
  }

  lemma FourthAfter(r: int)
    requires r > 0
    ensures r / 4 == (r - 1) / 4 + if r % 4 == 0 then 1 else 0
  {
  }

  lemma HundredthAfter(r: int)
    requires r > 0
    ensures r / 100 == (r - 1) / 100 + if r % 100 == 0 then 1 else 0
  {
  }

  lemma LeapInCycle(r: int)
    requires 0 < r < 400
    ensures r / 4 - r / 100 == (r - 1) / 4 - (r - 1) / 100 + if r % 4 == 0 && r % 100 != 0 then 1 else 0
  {
    FourthAfter(r);
    HundredthAfter(r);
    LeapRemainders(r);
  }

  /** Within a cycle of 400 years. */
  lemma Quotients(q: int, r: int)
    requires 0 <= r < 400
    ensures (400 * q + r) / 4 == 100 * q + r / 4
    ensures (400 * q + r) / 100 == 4 * q + r / 100
    ensures (400 * q + r) / 400 == q
    ensures (400 * q + r) % 4 == r % 4
    ensures (400 * q + r) % 100 == r % 100
  {
  }

  lemma {:induction false} MonthsGrow(y: int, a: int, b: int)
    requires 1 <= a <= b <= 13
    ensures DaysBeforeMonth(y, a) <= DaysBeforeMonth(y, b)
    ensures a < b ==> DaysBeforeMonth(y, a) + DaysIn(y, a) <= DaysBeforeMonth(y, b)
    decreases b
  {
    if a < b {
      MonthsGrow(y, a, b - 1);
      if a == b - 1 { assert DaysBeforeMonth(y, b) == DaysBeforeMonth(y, a) + DaysIn(y, a); }
    }
  }

  lemma {:induction false} YearsGrow(a: int, b: int)
    requires 1 <= a < b
    ensures DaysBeforeYear(a) + DaysBeforeMonth(a, 13) <= DaysBeforeYear(b)
    decreases b
  {
    YearLength(b - 1);
    if a < b - 1 { YearsGrow(a, b - 1); }
  }

  /** An earlier date has a smaller day number. */
  lemma DaysFollowDates(a: Civil, b: Civil)
    requires Valid(a) && Valid(b)
    requires a.year < b.year || (a.year == b.year && (a.month < b.month || (a.month == b.month && a.day < b.day)))
    ensures DayNumber(a.year, a.month, a.day) < DayNumber(b.year, b.month, b.day)
  {
    if a.year < b.year {
      MonthsGrow(a.year, a.month, 13);
      YearsGrow(a.year, b.year);
    } else if a.month < b.month {
      MonthsGrow(a.year, a.month, b.month);
    }
  }
}
