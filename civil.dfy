/** Proleptic Gregorian calendar arithmetic.

    A date is modelled as an `int` day number: the number of days since
    1970-01-01 (negative before it).  `DayNumber` maps a civil date
    (year, month, day) to its day number in closed form, using floor division
    as Python's `datetime` does; `FromDayNumber` is its inverse, defined by
    stepping one day at a time from the epoch so that the two round trips
    can be proved by induction. */
module Civil {

  datatype Date = Date(year: int, month: int, day: int)

  const Epoch: Date := Date(1970, 1, 1)

  predicate IsLeapYear(y: int) {
    y % 4 == 0 && (y % 100 != 0 || y % 400 == 0)
  }

  function DaysInMonth(y: int, m: int): int {
    if m == 2 then (if IsLeapYear(y) then 29 else 28)
    else if m == 4 || m == 6 || m == 9 || m == 11 then 30
    else 31
  }

  predicate Valid(c: Date) {
    1 <= c.month <= 12 && 1 <= c.day <= DaysInMonth(c.year, c.month)
  }

  /** The calendar day after `c`. */
  function NextDay(c: Date): Date {
    if c.day < DaysInMonth(c.year, c.month) then Date(c.year, c.month, c.day + 1)
    else if c.month < 12 then Date(c.year, c.month + 1, 1)
    else Date(c.year + 1, 1, 1)
  }

  /** The calendar day before `c`. */
  function PrevDay(c: Date): Date {
    if c.day > 1 then Date(c.year, c.month, c.day - 1)
    else if c.month > 1 then Date(c.year, c.month - 1, DaysInMonth(c.year, c.month - 1))
    else Date(c.year - 1, 12, 31)
  }

  /** Days since 1970-01-01, counting years from March so that the leap day
      is the last day of the counting year. */
  function DayNumber(c: Date): int {
    var y := if c.month <= 2 then c.year - 1 else c.year;
    var mp := if c.month > 2 then c.month - 3 else c.month + 9;
    365 * y + y / 4 - y / 100 + y / 400 + (153 * mp + 2) / 5 + c.day - 1 - 719468
  }

  /** The civil date of a day number. */
  function FromDayNumber(n: int): Date
    decreases if n >= 0 then n else -n
  {
    if n == 0 then Epoch
    else if n > 0 then NextDay(FromDayNumber(n - 1))
    else PrevDay(FromDayNumber(n + 1))
  }

  /** Day of the week as Python's `date.weekday()`: Monday is 0, Sunday is 6
      (1970-01-01 was a Thursday). */
  function Weekday(n: int): (w: int)
    ensures 0 <= w < 7
  {
    (n + 3) % 7
  }

  const Saturday := 5
  const Sunday := 6

  /** The day after a Sunday is a Monday; otherwise the weekday advances. */
  lemma NextWeekday(n: int)
    ensures Weekday(n + 1) == if Weekday(n) == Sunday then 0 else Weekday(n) + 1
  {
  }

  lemma LeapDayCounts(y: int)
    ensures y / 4 - (y - 1) / 4 == (if y % 4 == 0 then 1 else 0)
    ensures y / 100 - (y - 1) / 100 == (if y % 100 == 0 then 1 else 0)
    ensures y / 400 - (y - 1) / 400 == (if y % 400 == 0 then 1 else 0)
  {
  }

  /** Day number, offset by 719468, of March 1 of year `y`. */
  function YearStart(y: int): int {
    365 * y + y / 4 - y / 100 + y / 400
  }

  /** A counting year runs from March 1 to the end of February: it is one
      day longer when the February it ends with has a leap day. */
  lemma YearLength(y: int)
    ensures YearStart(y + 1) - YearStart(y) == 365 + (if IsLeapYear(y + 1) then 1 else 0)
  {
    var x := y + 1;
    LeapDayCounts(x);
    CenturyDivisibility(x);
    assert YearStart(x) - YearStart(y) == 365 + (x / 4 - y / 4) - (x / 100 - y / 100) + (x / 400 - y / 400);
  }

  /** Every century year is a multiple of 4, and every multiple of 400 is a
      century year. */
  lemma CenturyDivisibility(x: int)
    ensures x % 100 == 0 ==> x % 4 == 0
    ensures x % 400 == 0 ==> x % 100 == 0
  {
    if x % 100 == 0 {
      var k := x / 100;
      assert x == 4 * (25 * k);
    }
    if x % 400 == 0 {
      var k := x / 400;
      assert x == 100 * (4 * k);
    }
  }

  /** Counting years start ever later. */
  lemma {:induction false} YearStartOrder(ya: int, yb: int)
    requires ya <= yb
    ensures YearStart(ya) + 365 * (yb - ya) <= YearStart(yb)
    decreases yb - ya
  {
    if ya < yb {
      YearLength(ya);
      YearStartOrder(ya + 1, yb);
    }
  }

  /** Where a date falls within its counting year. */
  lemma CountingYearOffset(c: Date)
    requires Valid(c)
    ensures var y := if c.month <= 2 then c.year - 1 else c.year;
      var off := DayNumber(c) + 719468 - YearStart(y);
      && (c.month > 2 ==> 0 <= off <= 305)
      && (c.month <= 2 ==> 306 <= off <= 364 + (if IsLeapYear(c.year) then 1 else 0))
  {
    var mp := if c.month > 2 then c.month - 3 else c.month + 9;
    if c.month == 1 {
      assert (153 * mp + 2) / 5 == 306;
    } else if c.month == 2 {
      assert (153 * mp + 2) / 5 == 337;
    } else {
      assert 0 <= (153 * mp + 2) / 5 <= 275;
    }
  }

  /** A civil date's day number grows with its year. */
  lemma DayNumberYearOrder(a: Date, b: Date)
    requires Valid(a) && Valid(b) && a.year < b.year
    ensures DayNumber(a) < DayNumber(b)
  {
    var ya := if a.month <= 2 then a.year - 1 else a.year;
    var yb := if b.month <= 2 then b.year - 1 else b.year;
    CountingYearOffset(a);
    CountingYearOffset(b);
    if ya < yb {
      YearLength(ya);
      YearStartOrder(ya + 1, yb);
    }
  }

  lemma {:induction false} NextDayNumber(c: Date)
    requires Valid(c)
    ensures Valid(NextDay(c))
    ensures DayNumber(NextDay(c)) == DayNumber(c) + 1
  {
    if c.day == DaysInMonth(c.year, c.month) {
      if c.month == 2 {
        EndOfFebruaryNumber(c.year, c.day);
      } else {
        EndOfMonthNumber(c.year, c.month);
      }
    }
  }

  lemma EndOfFebruaryNumber(y: int, d: int)
    requires d == DaysInMonth(y, 2)
    ensures DayNumber(Date(y, 3, 1)) == DayNumber(Date(y, 2, d)) + 1
  {
    YearLength(y - 1);
    assert DayNumber(Date(y, 2, d)) == YearStart(y - 1) + 337 + d - 1 - 719468;
    assert DayNumber(Date(y, 3, 1)) == YearStart(y) - 719468;
  }

  lemma EndOfMonthNumber(y: int, m: int)
    requires 1 <= m <= 12 && m != 2
    ensures DayNumber(NextDay(Date(y, m, DaysInMonth(y, m))))
         == DayNumber(Date(y, m, DaysInMonth(y, m))) + 1
  {
    if m == 1 {
      assert DayNumber(Date(y, 1, 31)) == YearStart(y - 1) + 306 + 30 - 719468;
      assert DayNumber(Date(y, 2, 1)) == YearStart(y - 1) + 337 - 719468;
    } else if m == 12 {
      assert DayNumber(Date(y, 12, 31)) == YearStart(y) + 275 + 30 - 719468;
      assert DayNumber(Date(y + 1, 1, 1)) == YearStart(y) + 306 - 719468;
    } else {
      var d := DaysInMonth(y, m);
      MonthOffsetStep(m);
      assert DayNumber(Date(y, m, d)) == YearStart(y) + MonthOffset(m) + d - 1 - 719468;
      assert DayNumber(Date(y, m + 1, 1)) == YearStart(y) + MonthOffset(m + 1) - 719468;
    }
  }

  /** Days from March 1 to the first day of month `m` (March to December). */
  function MonthOffset(m: int): int {
    (153 * (m - 3) + 2) / 5
  }

  /** Between March and December each month is as long as the gap between
      its offset and the next one. */
  lemma MonthOffsetStep(m: int)
    requires 3 <= m <= 11
    ensures MonthOffset(m + 1) == MonthOffset(m) + DaysInMonth(0, m)
  {
    if m == 3 {
      assert MonthOffset(3) == 0 && MonthOffset(4) == 31;
    } else if m == 4 {
      assert MonthOffset(4) == 31 && MonthOffset(5) == 61;
    } else if m == 5 {
      assert MonthOffset(5) == 61 && MonthOffset(6) == 92;
    } else if m == 6 {
      assert MonthOffset(6) == 92 && MonthOffset(7) == 122;
    } else if m == 7 {
      assert MonthOffset(7) == 122 && MonthOffset(8) == 153;
    } else if m == 8 {
      assert MonthOffset(8) == 153 && MonthOffset(9) == 184;
    } else if m == 9 {
      assert MonthOffset(9) == 184 && MonthOffset(10) == 214;
    } else if m == 10 {
      assert MonthOffset(10) == 214 && MonthOffset(11) == 245;
    } else {
      assert MonthOffset(11) == 245 && MonthOffset(12) == 275;
    }
  }

  lemma {:induction false} PrevDayNumber(c: Date)
    requires Valid(c)
    ensures Valid(PrevDay(c))
    ensures NextDay(PrevDay(c)) == c
    ensures DayNumber(PrevDay(c)) == DayNumber(c) - 1
  {
    NextDayNumber(PrevDay(c));
  }

  lemma PrevOfNextDay(c: Date)
    requires Valid(c)
    ensures PrevDay(NextDay(c)) == c
  {
  }

  /** `FromDayNumber` produces a valid date whose day number is its argument. */
  lemma {:induction false} FromDayNumberCorrect(n: int)
    ensures Valid(FromDayNumber(n))
    ensures DayNumber(FromDayNumber(n)) == n
    decreases if n >= 0 then n else -n
  {
    if n > 0 {
      var c := FromDayNumber(n - 1);
      FromDayNumberCorrect(n - 1);
      NextDayNumber(c);
      assert FromDayNumber(n) == NextDay(c);
    } else if n < 0 {
      var c := FromDayNumber(n + 1);
      FromDayNumberCorrect(n + 1);
      PrevDayNumber(c);
      assert FromDayNumber(n) == PrevDay(c);
    }
  }

  /** 1970-01-01 is the only valid date with day number 0. */
  lemma EpochUnique(c: Date)
    requires Valid(c) && DayNumber(c) == 0
    ensures c == Epoch
  {
    if c.year > 1970 {
      DayNumberYearOrder(Epoch, c);
    } else if c.year < 1970 {
      DayNumberYearOrder(c, Epoch);
    } else {
      DayInMonth(1970, c.month, c.day);
      MonthStartsOf1970(c.month);
    }
  }

  /** January 1970 starts at day 0, every later month of 1970 after it. */
  lemma MonthStartsOf1970(m: int)
    requires 1 <= m <= 12
    ensures MonthStart(1970, m) >= 0
    ensures m > 1 ==> MonthStart(1970, m) > 0
  {
    if m > 2 {
      assert MonthStart(1970, m) == 59 + MonthOffset(m);
    }
  }

  /** Day numbers identify civil dates: the other round trip. */
  lemma {:induction false} DayNumberRoundTrip(c: Date)
    requires Valid(c)
    ensures FromDayNumber(DayNumber(c)) == c
    decreases if DayNumber(c) >= 0 then DayNumber(c) else -DayNumber(c)
  {
    var n := DayNumber(c);
    if n == 0 {
      EpochUnique(c);
    } else if n > 0 {
      PrevDayNumber(c);
      DayNumberRoundTrip(PrevDay(c));
    } else {
      NextDayNumber(c);
      PrevOfNextDay(c);
      DayNumberRoundTrip(NextDay(c));
    }
  }

  /** Consecutive day numbers are consecutive civil dates. */
  lemma FromDayNumberNext(n: int)
    ensures FromDayNumber(n + 1) == NextDay(FromDayNumber(n))
  {
    FromDayNumberCorrect(n);
    NextDayNumber(FromDayNumber(n));
    DayNumberRoundTrip(NextDay(FromDayNumber(n)));
  }

  /** Two valid dates with the same day number are the same date. */
  lemma DayNumberInjective(a: Date, b: Date)
    requires Valid(a) && Valid(b) && DayNumber(a) == DayNumber(b)
    ensures a == b
  {
    DayNumberRoundTrip(a);
    DayNumberRoundTrip(b);
  }

  // ----- months -----

  /** Day number of the first day of month `m` of year `y`. */
  function MonthStart(y: int, m: int): int {
    DayNumber(Date(y, m, 1))
  }

  /** Day number of the last day of month `m` of year `y`. */
  function MonthEnd(y: int, m: int): int {
    DayNumber(Date(y, m, DaysInMonth(y, m)))
  }

  function NextMonth(y: int, m: int): (r: (int, int))
    ensures 1 <= m <= 12 ==> 1 <= r.1 <= 12
  {
    if m < 12 then (y, m + 1) else (y + 1, 1)
  }

  function PrevMonth(y: int, m: int): (int, int) {
    if m > 1 then (y, m - 1) else (y - 1, 12)
  }

  /** The month after the month before (`y`, `m`) is (`y`, `m`). */
  lemma NextOfPrevMonth(y: int, m: int)
    requires 1 <= m <= 12
    ensures 1 <= PrevMonth(y, m).1 <= 12
    ensures NextMonth(PrevMonth(y, m).0, PrevMonth(y, m).1) == (y, m)
  {
  }

  /** The month `k` months before (`y`, `m`), as `relativedelta(months=k)`
      subtracted from the first day of that month. */
  function MonthsBack(y: int, m: int, k: int): (r: (int, int))
    requires 1 <= m <= 12
    ensures 1 <= r.1 <= 12
    ensures r.0 * 12 + r.1 == y * 12 + m - k
  {
    var total := y * 12 + (m - 1) - k;
    (total / 12, total % 12 + 1)
  }

  /** `n` falls in month `m` of year `y`. */
  predicate InMonth(n: int, y: int, m: int) {
    var c := FromDayNumber(n);
    c.year == y && c.month == m
  }

  /** A month is the contiguous block of day numbers from its first to its
      last day, and it is at least 28 days long. */
  lemma {:induction false} InMonthRange(n: int, y: int, m: int)
    requires 1 <= m <= 12
    ensures InMonth(n, y, m) <==> MonthStart(y, m) <= n <= MonthEnd(y, m)
    ensures MonthEnd(y, m) == MonthStart(y, m) + DaysInMonth(y, m) - 1
  {
    DayInMonth(y, m, DaysInMonth(y, m));
    var c := FromDayNumber(n);
    FromDayNumberCorrect(n);
    if c.year == y && c.month == m {
      DayInMonth(y, m, c.day);
    }
    if MonthStart(y, m) <= n <= MonthEnd(y, m) {
      var d := Date(y, m, n - MonthStart(y, m) + 1);
      DayInMonth(y, m, d.day);
      DayNumberRoundTrip(d);
    }
  }

  /** The days of a month have consecutive day numbers. */
  lemma DayInMonth(y: int, m: int, d: int)
    ensures DayNumber(Date(y, m, d)) == MonthStart(y, m) + d - 1
  {
  }

  /** The day after a month's last day is the first day of the next month. */
  lemma MonthEndThenStart(y: int, m: int)
    requires 1 <= m <= 12
    ensures MonthStart(NextMonth(y, m).0, NextMonth(y, m).1) == MonthEnd(y, m) + 1
  {
    NextDayNumber(Date(y, m, DaysInMonth(y, m)));
  }
}
