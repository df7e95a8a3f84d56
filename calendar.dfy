/** The Brazilian exchange trading calendar (`TarponCalendar`): a fixed table
    of holiday rules and the business-day arithmetic built on pandas'
    custom business-day and business-month offsets. */
module TradingCalendar {
  import opened Civil
  import opened Easter
  import opened Wrappers

  /** One row of the holiday table.  `EasterOffset` is pandas'
      `Holiday(month=1, day=1, offset=[Easter(), Day(k)])`; `Windowed` is a
      holiday with a `start_date`/`end_date`; `SingleYear` has a `year`. */
  datatype HolidayRule =
    | Fixed(name: string, month: int, day: int)
    | EasterOffset(name: string, days: int)
    | Windowed(name: string, month: int, day: int, first: Date, last: Date)
    | SingleYear(name: string, year: int, month: int, day: int)

  const ConfUniversal := Fixed("Dia da Confraternizacao Universal", 1, 1)
  const CarnavalSegunda := EasterOffset("Carnaval Segunda", -48)
  const CarnavalTerca := EasterOffset("Carnaval Terca", -47)
  /** Ash Wednesday: defined, but not part of the active table. */
  const QuartaCinzas := EasterOffset("Quarta Cinzas", -46)
  /** pandas' `GoodFriday` rule. */
  const SextaPaixao := EasterOffset("Good Friday", -2)
  const CorpusChristi := EasterOffset("Corpus Christi", 60)
  const Tiradentes := Fixed("Tiradentes", 4, 21)
  const DiaTrabalho := Fixed("Dia Trabalho", 5, 1)
  const ConstitucionalistaPrePandemic :=
    Windowed("Constitucionalista pre-pandemia", 7, 9, Date(1998, 1, 1), Date(2020, 1, 1))
  const Independencia := Fixed("Independencia", 9, 7)
  const Aparecida := Fixed("Nossa Senhora de Aparecida", 10, 12)
  const Finados := Fixed("Dia dos Finados", 11, 2)
  const ProclamacaoRepublica := Fixed("Proclamacao da Republica", 11, 15)
  const VesperaNatal := Fixed("Vespera Natal", 12, 24)
  const Natal := Fixed("Natal", 12, 25)
  const CopaDoMundo2014 := SingleYear("Copa Do Mundo 2014", 2014, 6, 12)

  /** The rules the calendar is built from, in the constructor's order. */
  const ActiveHolidays: seq<HolidayRule> := [
    ConfUniversal, CarnavalSegunda, CarnavalTerca, SextaPaixao, CorpusChristi,
    Tiradentes, DiaTrabalho, ConstitucionalistaPrePandemic, Independencia,
    CopaDoMundo2014, Aparecida, Finados, ProclamacaoRepublica, VesperaNatal, Natal
  ]

  /** pandas' `AbstractHolidayCalendar.holidays()`, called without bounds by
      the custom business offsets, only lists holidays in this window. */
  const HolidaysFrom := Date(1970, 1, 1)
  const HolidaysUntil := Date(2200, 12, 31)

  /** Rule `r` puts a holiday on day `n`. */
  predicate Observes(r: HolidayRule, n: int) {
    var c := FromDayNumber(n);
    match r
    case Fixed(_, m, d) => c.month == m && c.day == d
    case EasterOffset(_, k) => n == DayNumber(WesternEaster(c.year)) + k
    case Windowed(_, m, d, first, last) =>
      c.month == m && c.day == d && DayNumber(first) <= n <= DayNumber(last)
    case SingleYear(_, y, m, d) => c == Date(y, m, d)
  }

  /** Some rule of `rules` puts a holiday on day `n`, looked up rule by rule
      as pandas merges the rules' dates. */
  predicate ObservedByAny(rules: seq<HolidayRule>, n: int) {
    |rules| > 0 && (Observes(rules[0], n) || ObservedByAny(rules[1..], n))
  }

  /** `ObservedByAny` is membership of the union of the rules' dates. */
  lemma {:induction false} ObservedByAnyExists(rules: seq<HolidayRule>, n: int)
    ensures ObservedByAny(rules, n) <==> exists r | r in rules :: Observes(r, n)
  {
    if |rules| > 0 {
      ObservedByAnyExists(rules[1..], n);
      assert forall r :: r in rules <==> r == rules[0] || r in rules[1..];
    }
  }

  predicate IsHoliday(n: int) {
    DayNumber(HolidaysFrom) <= n <= DayNumber(HolidaysUntil) && ObservedByAny(ActiveHolidays, n)
  }

  /** A business day is a Monday to Friday that is not a holiday. */
  predicate IsBusinessDay(n: int) {
    Weekday(n) < Saturday && !IsHoliday(n)
  }

  // ----- the holiday set -----

  /** Month and day of the holidays that fall on the same date every year. */
  predicate IsFixedHolidayDate(m: int, d: int) {
    || (m == 1 && d == 1) || (m == 4 && d == 21) || (m == 5 && d == 1)
    || (m == 9 && d == 7) || (m == 10 && d == 12) || (m == 11 && d == 2)
    || (m == 11 && d == 15) || (m == 12 && d == 24) || (m == 12 && d == 25)
  }

  /** Offsets from Easter Sunday of the movable holidays in the table. */
  predicate IsEasterHolidayOffset(k: int) {
    k == -48 || k == -47 || k == -2 || k == 60
  }

  /** The holiday set spelled out, rule by rule. */
  predicate InHolidaySet(n: int) {
    var c := FromDayNumber(n);
    && DayNumber(HolidaysFrom) <= n <= DayNumber(HolidaysUntil)
    && (|| IsFixedHolidayDate(c.month, c.day)
        || IsEasterHolidayOffset(n - DayNumber(WesternEaster(c.year)))
        || (c.month == 7 && c.day == 9 && DayNumber(Date(1998, 1, 1)) <= n <= DayNumber(Date(2020, 1, 1)))
        || c == Date(2014, 6, 12))
  }

  lemma RuleInTable(r: HolidayRule)
    requires r in ActiveHolidays
    ensures || r == ConfUniversal || r == CarnavalSegunda || r == CarnavalTerca
            || r == SextaPaixao || r == CorpusChristi || r == Tiradentes
            || r == DiaTrabalho || r == ConstitucionalistaPrePandemic
            || r == Independencia || r == CopaDoMundo2014 || r == Aparecida
            || r == Finados || r == ProclamacaoRepublica || r == VesperaNatal
            || r == Natal
  {
  }

  /** Every holiday the table produces is in the spelled-out set. */
  lemma HolidaySetSound(n: int)
    requires IsHoliday(n)
    ensures InHolidaySet(n)
  {
    ObservedByAnyExists(ActiveHolidays, n);
    var r :| r in ActiveHolidays && Observes(r, n);
    RuleInTable(r);
  }

  /** Every day of the spelled-out set is a holiday of the table. */
  lemma HolidaySetComplete(n: int)
    requires InHolidaySet(n)
    ensures IsHoliday(n)
  {
    var c := FromDayNumber(n);
    if IsEasterHolidayOffset(n - DayNumber(WesternEaster(c.year))) {
      MovableHolidayComplete(n);
    } else {
      DatedHolidayComplete(n);
    }
  }

  lemma MovableHolidayComplete(n: int)
    requires DayNumber(HolidaysFrom) <= n <= DayNumber(HolidaysUntil)
    requires IsEasterHolidayOffset(n - DayNumber(WesternEaster(FromDayNumber(n).year)))
    ensures IsHoliday(n)
  {
    var k := n - DayNumber(WesternEaster(FromDayNumber(n).year));
    if k == -48 { ObservedRule(CarnavalSegunda, n); }
    else if k == -47 { ObservedRule(CarnavalTerca, n); }
    else if k == -2 { ObservedRule(SextaPaixao, n); }
    else { ObservedRule(CorpusChristi, n); }
  }

  lemma DatedHolidayComplete(n: int)
    requires DayNumber(HolidaysFrom) <= n <= DayNumber(HolidaysUntil)
    requires var c := FromDayNumber(n);
             || IsFixedHolidayDate(c.month, c.day)
             || (c.month == 7 && c.day == 9 && DayNumber(Date(1998, 1, 1)) <= n <= DayNumber(Date(2020, 1, 1)))
             || c == Date(2014, 6, 12)
    ensures IsHoliday(n)
  {
    var c := FromDayNumber(n);
    if c.month == 1 && c.day == 1 { ObservedRule(ConfUniversal, n); }
    else if c.month == 4 && c.day == 21 { ObservedRule(Tiradentes, n); }
    else if c.month == 5 && c.day == 1 { ObservedRule(DiaTrabalho, n); }
    else if c.month == 9 && c.day == 7 { ObservedRule(Independencia, n); }
    else if c.month == 10 && c.day == 12 { ObservedRule(Aparecida, n); }
    else if c.month == 11 && c.day == 2 { ObservedRule(Finados, n); }
    else if c.month == 11 && c.day == 15 { ObservedRule(ProclamacaoRepublica, n); }
    else if c.month == 12 && c.day == 24 { ObservedRule(VesperaNatal, n); }
    else if c.month == 12 && c.day == 25 { ObservedRule(Natal, n); }
    else if c == Date(2014, 6, 12) { ObservedRule(CopaDoMundo2014, n); }
    else { ObservedRule(ConstitucionalistaPrePandemic, n); }
  }

  /** A day in pandas' window that a rule of the table observes is a
      holiday. */
  lemma ObservedRule(r: HolidayRule, n: int)
    requires r in ActiveHolidays && Observes(r, n)
    requires DayNumber(HolidaysFrom) <= n <= DayNumber(HolidaysUntil)
    ensures IsHoliday(n)
  {
    ObservedByAnyExists(ActiveHolidays, n);
  }

  /** Inside pandas' window the holidays are exactly the fixed dates,
      Easter-48 and Easter-47 (Carnival), Easter-2 (Good Friday), Easter+60
      (Corpus Christi), July 9 between 1998-01-01 and 2020-01-01, and
      2014-06-12. */
  lemma HolidaySet(n: int)
    ensures IsHoliday(n) <==> InHolidaySet(n)
  {
    if IsHoliday(n) { HolidaySetSound(n); }
    if InHolidaySet(n) { HolidaySetComplete(n); }
  }

  // ----- business days are never far apart -----

  /** The movable holidays fall on Monday (Carnival Monday), Tuesday
      (Carnival Tuesday), Friday (Good Friday) or Thursday (Corpus Christi). */
  lemma EasterHolidayWeekday(n: int, y: int)
    requires IsEasterHolidayOffset(n - DayNumber(WesternEaster(y)))
    ensures var e := DayNumber(WesternEaster(y));
            || (Weekday(n) == 0 && n == e - 48)
            || (Weekday(n) == 1 && n == e - 47)
            || (Weekday(n) == 4 && n == e - 2)
            || (Weekday(n) == 3 && n == e + 60)
  {
    EasterIsSunday(y);
    SundayOffsets(DayNumber(WesternEaster(y)), n);
  }

  lemma SundayOffsets(e: int, n: int)
    requires Weekday(e) == Sunday && IsEasterHolidayOffset(n - e)
    ensures || (Weekday(n) == 0 && n == e - 48)
            || (Weekday(n) == 1 && n == e - 47)
            || (Weekday(n) == 4 && n == e - 2)
            || (Weekday(n) == 3 && n == e + 60)
  {
    var q := (e + 3) / 7;
    assert e + 3 == 7 * q + 6;
    if n == e - 48 { assert n + 3 == 7 * (q - 6) + 0; }
    else if n == e - 47 { assert n + 3 == 7 * (q - 6) + 1; }
    else if n == e - 2 { assert n + 3 == 7 * q + 4; }
    else { assert n + 3 == 7 * (q + 9) + 3; }
  }

  /** No movable holiday falls on a Wednesday. */
  lemma NoMovableHolidayOnWednesday(w: int, y: int)
    requires Weekday(w) == 2
    ensures !IsEasterHolidayOffset(w - DayNumber(WesternEaster(y)))
  {
    if IsEasterHolidayOffset(w - DayNumber(WesternEaster(y))) {
      EasterHolidayWeekday(w, y);
    }
  }

  /** 2014-06-12 was a Thursday. */
  lemma WorldCupDayIsThursday(n: int)
    requires FromDayNumber(n) == Date(2014, 6, 12)
    ensures Weekday(n) == 3
  {
    FromDayNumberCorrect(n);
  }

  /** A holiday on a Wednesday is one of the dated holidays. */
  lemma WednesdayHolidayDate(w: int)
    requires Weekday(w) == 2 && IsHoliday(w)
    ensures var c := FromDayNumber(w);
            IsFixedHolidayDate(c.month, c.day) || (c.month == 7 && c.day == 9)
  {
    HolidaySetSound(w);
    var c := FromDayNumber(w);
    NoMovableHolidayOnWednesday(w, c.year);
    if c == Date(2014, 6, 12) {
      WorldCupDayIsThursday(w);
    }
  }

  /** The day after a dated holiday is still in the same month. */
  lemma DayAfterDatedHoliday(w: int)
    requires var c := FromDayNumber(w);
             IsFixedHolidayDate(c.month, c.day) || (c.month == 7 && c.day == 9)
    ensures var c := FromDayNumber(w);
            FromDayNumber(w + 1) == Date(c.year, c.month, c.day + 1)
  {
    FromDayNumberCorrect(w);
    FromDayNumberNext(w);
  }

  /** Corpus Christi (Easter+60) lies between May 21 and June 24, so it never
      falls on the day after a dated holiday. */
  lemma CorpusChristiNotAfterDatedHoliday(y: int, m: int, d: int)
    requires IsFixedHolidayDate(m, d) || (m == 7 && d == 9)
    ensures DayNumber(Date(y, m, d + 1)) != DayNumber(WesternEaster(y)) + 60
  {
    EasterInSpring(y);
    OutsideCorpusChristiWindow(y, m, d + 1, DayNumber(WesternEaster(y)));
  }

  lemma OutsideCorpusChristiWindow(y: int, m: int, d: int, e: int)
    requires DayNumber(Date(y, 3, 22)) <= e <= DayNumber(Date(y, 4, 25))
    requires (m, d) in {(1, 2), (4, 22), (5, 2), (9, 8), (10, 13), (11, 3), (11, 16), (12, 25), (12, 26), (7, 10)}
    ensures DayNumber(Date(y, m, d)) != e + 60
  {
    LeapDayCounts(y);
  }

  /** Among the dated holidays, only Christmas Eve is followed by another
      dated holiday. */
  lemma DatedHolidaysInARow(m: int, d: int)
    requires IsFixedHolidayDate(m, d) || (m == 7 && d == 9)
    requires || IsFixedHolidayDate(m, d + 1) || (m == 7 && d + 1 == 9)
             || (m == 6 && d + 1 == 12)
    ensures m == 12 && d == 24
  {
  }

  /** The day after a dated holiday is not a movable holiday. */
  lemma NoMovableHolidayAfterDated(w: int)
    requires Weekday(w) == 2
    requires var c := FromDayNumber(w);
             IsFixedHolidayDate(c.month, c.day) || (c.month == 7 && c.day == 9)
    ensures var c := FromDayNumber(w + 1);
            !IsEasterHolidayOffset(w + 1 - DayNumber(WesternEaster(c.year)))
  {
    var c := FromDayNumber(w);
    DayAfterDatedHoliday(w);
    var e := DayNumber(WesternEaster(c.year));
    if IsEasterHolidayOffset(w + 1 - e) {
      NextWeekday(w);
      EasterHolidayWeekday(w + 1, c.year);
      assert w + 1 == e + 60;
      FromDayNumberCorrect(w + 1);
      CorpusChristiNotAfterDatedHoliday(c.year, c.month, c.day);
    }
  }

  /** Two holidays in a row starting on a Wednesday are Christmas Eve and
      Christmas. */
  lemma WednesdayThursdayHolidays(w: int)
    requires Weekday(w) == 2 && IsHoliday(w) && IsHoliday(w + 1)
    ensures FromDayNumber(w).month == 12 && FromDayNumber(w).day == 24
  {
    var c := FromDayNumber(w);
    WednesdayHolidayDate(w);
    HolidaySetSound(w + 1);
    HolidayAfterDated(w);
    DatedHolidaysInARow(c.month, c.day);
  }

  /** A holiday on the day after a dated holiday that falls on a Wednesday
      is itself a dated holiday (or the World Cup day). */
  lemma HolidayAfterDated(w: int)
    requires Weekday(w) == 2 && InHolidaySet(w + 1)
    requires var c := FromDayNumber(w);
             IsFixedHolidayDate(c.month, c.day) || (c.month == 7 && c.day == 9)
    ensures var c := FromDayNumber(w);
            || IsFixedHolidayDate(c.month, c.day + 1) || (c.month == 7 && c.day + 1 == 9)
            || (c.month == 6 && c.day + 1 == 12)
  {
    var c := FromDayNumber(w);
    var c1 := FromDayNumber(w + 1);
    NoMovableHolidayAfterDated(w);
    DayAfterDatedHoliday(w);
    DatedSuccessor(c, c1, w + 1 - DayNumber(WesternEaster(c1.year)));
  }

  /** The date-level step of `HolidayAfterDated`. */
  lemma DatedSuccessor(c: Date, c1: Date, k: int)
    requires c1 == Date(c.year, c.month, c.day + 1) && !IsEasterHolidayOffset(k)
    requires || IsFixedHolidayDate(c1.month, c1.day) || IsEasterHolidayOffset(k)
             || (c1.month == 7 && c1.day == 9) || c1 == Date(2014, 6, 12)
    ensures || IsFixedHolidayDate(c.month, c.day + 1) || (c.month == 7 && c.day + 1 == 9)
            || (c.month == 6 && c.day + 1 == 12)
  {
  }

  /** December 23 is a business day when it is a Tuesday. */
  lemma TuesdayBeforeChristmasEve(t: int)
    requires Weekday(t) == 1
    requires FromDayNumber(t + 1).month == 12 && FromDayNumber(t + 1).day == 24
    ensures IsBusinessDay(t)
  {
    FromDayNumberCorrect(t);
    FromDayNumberNext(t);
    var c := FromDayNumber(t);
    PrevOfNextDay(c);
    assert c == Date(c.year, 12, 23);
    if IsHoliday(t) {
      HolidaySetSound(t);
      if IsEasterHolidayOffset(t - DayNumber(WesternEaster(c.year))) {
        EasterHolidayWeekday(t, c.year);
        EasterInSpring(c.year);
      }
    }
  }

  /** Of any Tuesday, Wednesday and Thursday in a row, one is a business day. */
  lemma MidweekBusinessDay(t: int)
    requires Weekday(t) == 1
    ensures IsBusinessDay(t) || IsBusinessDay(t + 1) || IsBusinessDay(t + 2)
  {
    NextWeekday(t);
    NextWeekday(t + 1);
    if !IsBusinessDay(t + 1) && !IsBusinessDay(t + 2) {
      WednesdayThursdayHolidays(t + 1);
      TuesdayBeforeChristmasEve(t);
    }
  }

  /** Every nine consecutive days ending at `n` hold a business day. */
  lemma NineDaysBackHoldBusinessDay(n: int)
    ensures exists d :: n - 8 <= d <= n && IsBusinessDay(d)
  {
    var w := Weekday(n - 2);
    var t := if w == 0 then n - 8 else n - 2 - (w - 1);
    assert Weekday(t) == 1;
    MidweekBusinessDay(t);
  }

  /** Every nine consecutive days starting at `n` hold a business day. */
  lemma NineDaysAheadHoldBusinessDay(n: int)
    ensures exists d :: n <= d <= n + 8 && IsBusinessDay(d)
  {
    var w := Weekday(n);
    var t := if w <= 1 then n + 1 - w else n + 8 - w;
    assert Weekday(t) == 1;
    MidweekBusinessDay(t);
  }

  // ----- rolling to a business day -----

  /** The latest business day in `[n - budget, n]`, found by stepping back one
      day at a time. */
  function RollBack(n: int, budget: nat): (r: int)
    requires exists d :: n - budget <= d <= n && IsBusinessDay(d)
    ensures n - budget <= r <= n && IsBusinessDay(r)
    ensures forall x :: r < x <= n ==> !IsBusinessDay(x)
    decreases budget
  {
    if IsBusinessDay(n) then n else RollBack(n - 1, budget - 1)
  }

  /** The earliest business day in `[n, n + budget]`. */
  function RollForward(n: int, budget: nat): (r: int)
    requires exists d :: n <= d <= n + budget && IsBusinessDay(d)
    ensures n <= r <= n + budget && IsBusinessDay(r)
    ensures forall x :: n <= x < r ==> !IsBusinessDay(x)
    decreases budget
  {
    if IsBusinessDay(n) then n else RollForward(n + 1, budget - 1)
  }

  /** `CustomBusinessDay.rollback`: `n` itself when it is a business day,
      else the business day before it. */
  function BusinessDayAtOrBefore(n: int): (r: int)
    ensures n - 8 <= r <= n && IsBusinessDay(r)
    ensures forall x :: r < x <= n ==> !IsBusinessDay(x)
  {
    NineDaysBackHoldBusinessDay(n);
    RollBack(n, 8)
  }

  /** `CustomBusinessDay.rollforward`. */
  function BusinessDayAtOrAfter(n: int): (r: int)
    ensures n <= r <= n + 8 && IsBusinessDay(r)
    ensures forall x :: n <= x < r ==> !IsBusinessDay(x)
  {
    NineDaysAheadHoldBusinessDay(n);
    RollForward(n, 8)
  }

  // ----- TarponCalendar -----

  /** `get_previous_trading_day`: `d - CustomBusinessDay()`.  numpy's
      `busday_offset(d, -1, roll="forward")` first rolls `d` forward to a
      business day and then steps one business day back. */
  function PreviousTradingDay(d: int): (r: int)
    ensures IsBusinessDay(r) && r < d
    ensures forall x :: r < x < d ==> !IsBusinessDay(x)
  {
    var f := BusinessDayAtOrAfter(d);
    BusinessDayAtOrBefore(f - 1)
  }

  /** The last business day of its month. */
  predicate IsMonthFinal(x: int) {
    var c := FromDayNumber(x);
    IsBusinessDay(x) && forall z :: x < z <= MonthEnd(c.year, c.month) ==> !IsBusinessDay(z)
  }

  /** The first business day of its month. */
  predicate IsMonthInitial(x: int) {
    var c := FromDayNumber(x);
    IsBusinessDay(x) && forall z :: MonthStart(c.year, c.month) <= z < x ==> !IsBusinessDay(z)
  }

  /** Every month ends on a business day that is not its first day. */
  function LastBusinessDayOfMonth(y: int, m: int): (r: int)
    requires 1 <= m <= 12
    ensures InMonth(r, y, m) && IsMonthFinal(r)
    ensures MonthStart(y, m) < r
  {
    var r := BusinessDayAtOrBefore(MonthEnd(y, m));
    InMonthRange(r, y, m);
    r
  }

  /** Every month starts with a business day that is not its last day. */
  function FirstBusinessDayOfMonth(y: int, m: int): (r: int)
    requires 1 <= m <= 12
    ensures InMonth(r, y, m) && IsMonthInitial(r)
    ensures r < MonthEnd(y, m)
  {
    var r := BusinessDayAtOrAfter(MonthStart(y, m));
    InMonthRange(r, y, m);
    r
  }

  /** A month has exactly one month-final business day. */
  lemma MonthFinalUnique(x: int, y: int, m: int)
    requires 1 <= m <= 12 && InMonth(x, y, m) && IsMonthFinal(x)
    ensures x == LastBusinessDayOfMonth(y, m)
  {
    var l := LastBusinessDayOfMonth(y, m);
    InMonthRange(x, y, m);
    InMonthRange(l, y, m);
  }

  /** A month has exactly one month-initial business day. */
  lemma MonthInitialUnique(x: int, y: int, m: int)
    requires 1 <= m <= 12 && InMonth(x, y, m) && IsMonthInitial(x)
    ensures x == FirstBusinessDayOfMonth(y, m)
  {
    var f := FirstBusinessDayOfMonth(y, m);
    InMonthRange(x, y, m);
    InMonthRange(f, y, m);
  }

  /** `get_last_trading_day_of_month`: `d + CustomBusinessMonthEnd()`.  The
      offset compares `d` with the last business day of `d`'s month: before
      it, that day is the answer; on or after it, the answer is the last
      business day of the next month. */
  function LastTradingDayOfMonth(d: int): (r: int)
    ensures IsMonthFinal(r) && d < r
    ensures var c := FromDayNumber(d);
            && 1 <= c.month <= 12
            && var last := LastBusinessDayOfMonth(c.year, c.month);
               var next := NextMonth(c.year, c.month);
               && (d < last ==> r == last)
               && (d >= last ==> InMonth(r, next.0, next.1))
  {
    var c := FromDayNumber(d);
    FromDayNumberCorrect(d);
    var last := LastBusinessDayOfMonth(c.year, c.month);
    if d < last then last
    else
      var next := NextMonth(c.year, c.month);
      InMonthRange(d, c.year, c.month);
      MonthEndThenStart(c.year, c.month);
      LastBusinessDayOfMonth(next.0, next.1)
  }

  /** `get_first_trading_day_of_month`: `d - CustomBusinessMonthBegin()`.
      After the first business day of `d`'s month, that day is the answer;
      on or before it, the answer is the first business day of the previous
      month. */
  function FirstTradingDayOfMonth(d: int): (r: int)
    ensures IsMonthInitial(r) && r < d
    ensures var c := FromDayNumber(d);
            && 1 <= c.month <= 12
            && var first := FirstBusinessDayOfMonth(c.year, c.month);
               var prev := PrevMonth(c.year, c.month);
               && (d > first ==> r == first)
               && (d <= first ==> InMonth(r, prev.0, prev.1))
  {
    var c := FromDayNumber(d);
    FromDayNumberCorrect(d);
    var first := FirstBusinessDayOfMonth(c.year, c.month);
    if d > first then first
    else
      var prev := PrevMonth(c.year, c.month);
      InMonthRange(d, c.year, c.month);
      NextOfPrevMonth(c.year, c.month);
      MonthEndThenStart(prev.0, prev.1);
      FirstBusinessDayOfMonth(prev.0, prev.1)
  }

  /** The month-end offset lands on the earliest month-final business day
      strictly after `d`. */
  lemma LastTradingDayOfMonthIsEarliest(d: int, x: int)
    requires d < x < LastTradingDayOfMonth(d)
    ensures !IsMonthFinal(x)
  {
    var c := FromDayNumber(d);
    FromDayNumberCorrect(d);
    var last := LastBusinessDayOfMonth(c.year, c.month);
    InMonthRange(d, c.year, c.month);
    InMonthRange(last, c.year, c.month);
    if IsMonthFinal(x) {
      if x <= MonthEnd(c.year, c.month) {
        InMonthRange(x, c.year, c.month);
        MonthFinalUnique(x, c.year, c.month);
      } else {
        var next := NextMonth(c.year, c.month);
        MonthEndThenStart(c.year, c.month);
        var r := LastBusinessDayOfMonth(next.0, next.1);
        InMonthRange(r, next.0, next.1);
        InMonthRange(x, next.0, next.1);
        MonthFinalUnique(x, next.0, next.1);
      }
    }
  }

  /** The month-begin offset lands on the latest month-initial business day
      strictly before `d`. */
  lemma FirstTradingDayOfMonthIsLatest(d: int, x: int)
    requires FirstTradingDayOfMonth(d) < x < d
    ensures !IsMonthInitial(x)
  {
    var c := FromDayNumber(d);
    var r := FirstTradingDayOfMonth(d);
    var first := FirstBusinessDayOfMonth(c.year, c.month);
    InMonthRange(d, c.year, c.month);
    if IsMonthInitial(x) {
      if x >= MonthStart(c.year, c.month) {
        InMonthRange(x, c.year, c.month);
        MonthInitialUnique(x, c.year, c.month);
      } else {
        var prev := PrevMonth(c.year, c.month);
        InMonthRange(first, c.year, c.month);
        assert d <= first;
        MonthEndThenStart(prev.0, prev.1);
        NextOfPrevMonth(c.year, c.month);
        InMonthRange(r, prev.0, prev.1);
        InMonthRange(x, prev.0, prev.1);
        MonthInitialUnique(x, prev.0, prev.1);
        MonthInitialUnique(r, prev.0, prev.1);
      }
    }
  }

  /** Applied to the first day of a month, the month-end offset gives that
      month's last business day. */
  lemma LastTradingDayFromMonthStart(y: int, m: int)
    requires 1 <= m <= 12
    ensures LastTradingDayOfMonth(MonthStart(y, m)) == LastBusinessDayOfMonth(y, m)
  {
    DayNumberRoundTrip(Date(y, m, 1));
  }

  /** The previous-month, 6-, 12-, 24-, 36-, 48- and 60-month lookups: day 1
      of `d`'s month, `k` months back (`relativedelta(months=k)`), then the
      month-end offset. */
  function LastTradingDayMonthsBack(d: int, k: nat): (r: int)
    ensures var c := FromDayNumber(d);
            && 1 <= c.month <= 12
            && var t := MonthsBack(c.year, c.month, k);
               && r == LastBusinessDayOfMonth(t.0, t.1)
               && InMonth(r, t.0, t.1) && IsMonthFinal(r)
  {
    var c := FromDayNumber(d);
    FromDayNumberCorrect(d);
    var t := MonthsBack(c.year, c.month, k);
    LastTradingDayFromMonthStart(t.0, t.1);
    LastTradingDayOfMonth(MonthStart(t.0, t.1))
  }

  /** `get_last_trading_day_of_previous_year`: the month-end offset applied
      to December 1 of the previous year. */
  function LastTradingDayOfPreviousYear(d: int): (r: int)
    ensures var y := FromDayNumber(d).year;
            && r == LastBusinessDayOfMonth(y - 1, 12)
            && InMonth(r, y - 1, 12) && IsMonthFinal(r)
  {
    var y := FromDayNumber(d).year;
    LastTradingDayFromMonthStart(y - 1, 12);
    LastTradingDayOfMonth(DayNumber(Date(y - 1, 12, 1)))
  }

  /** `get_business_days_in_range`: `pd.date_range(s, e, freq=CustomBusinessDay())`
      rolls `s` forward to a business day and then steps one business day at
      a time while the date does not pass `e`. */
  function BusinessDaysInRange(s: int, e: int): (r: seq<int>)
    ensures forall i, j :: 0 <= i < j < |r| ==> r[i] < r[j]
    ensures forall x :: x in r <==> s <= x <= e && IsBusinessDay(x)
    ensures e < s ==> r == []
    decreases e - s
  {
    if e < s then []
    else
      var f := BusinessDayAtOrAfter(s);
      if f > e then []
      else
        var rest := BusinessDaysInRange(f + 1, e);
        assert forall i :: 0 <= i < |rest| ==> f < rest[i] by {
          forall i | 0 <= i < |rest| ensures f < rest[i] {
            assert rest[i] in rest;
          }
        }
        [f] + rest
  }

  /** `get_business_days_in_month`: the range from day 1 of the month to the
      day before day 1 of the next month.  `datetime.date` rejects a month
      outside 1..12. */
  function BusinessDaysInMonth(y: int, m: int): (r: Result<seq<int>>)
    ensures r.Success? <==> 1 <= m <= 12
    ensures r.Success? ==> r.value == BusinessDaysInRange(MonthStart(y, m), MonthEnd(y, m))
  {
    if !(1 <= m <= 12) then Failure("month must be in 1..12")
    else
      var next := NextMonth(y, m);
      MonthEndThenStart(y, m);
      Success(BusinessDaysInRange(MonthStart(y, m), MonthStart(next.0, next.1) - 1))
  }

  /** The days listed for a month are exactly its business days, ascending. */
  lemma BusinessDaysInMonthAreTheMonthsBusinessDays(y: int, m: int)
    requires 1 <= m <= 12
    ensures var r := BusinessDaysInMonth(y, m).value;
            && (forall i, j :: 0 <= i < j < |r| ==> r[i] < r[j])
            && (forall x :: x in r <==> InMonth(x, y, m) && IsBusinessDay(x))
  {
    forall x {
      InMonthRange(x, y, m);
    }
  }

  // ----- particular holidays -----

  /** July 9 is a holiday exactly in the years 1998 to 2019. */
  lemma ConstitutionalistWindow(y: int)
    ensures IsHoliday(DayNumber(Date(y, 7, 9))) <==> 1998 <= y <= 2019
  {
    HolidaySet(DayNumber(Date(y, 7, 9)));
    if 1998 <= y <= 2019 {
      JulyNinthInWindow(y);
    } else if InHolidaySet(DayNumber(Date(y, 7, 9))) {
      JulyNinthOutsideWindow(y);
    }
  }

  lemma JulyNinthInWindow(y: int)
    requires 1998 <= y <= 2019
    ensures InHolidaySet(DayNumber(Date(y, 7, 9)))
  {
    DayNumberRoundTrip(Date(y, 7, 9));
  }

  lemma JulyNinthOutsideWindow(y: int)
    requires InHolidaySet(DayNumber(Date(y, 7, 9)))
    ensures 1998 <= y <= 2019
  {
    DayNumberRoundTrip(Date(y, 7, 9));
    JulyNinthNotMovable(y);
    if y < 1998 { DayNumberYearOrder(Date(y, 7, 9), Date(1998, 1, 1)); }
    if y > 2019 { DayNumberYearOrder(Date(2020, 1, 1), Date(y, 7, 9)); }
  }

  lemma JulyNinthNotMovable(y: int)
    ensures !IsEasterHolidayOffset(DayNumber(Date(y, 7, 9)) - DayNumber(WesternEaster(y)))
  {
    EasterInSpring(y);
  }

  /** June 12 is a holiday in 2014 and otherwise only when it is Corpus
      Christi, within pandas' window. */
  lemma WorldCupDay(y: int)
    ensures IsHoliday(DayNumber(Date(y, 6, 12))) <==>
      1970 <= y <= 2200 && (y == 2014 || DayNumber(Date(y, 6, 12)) == DayNumber(WesternEaster(y)) + 60)
  {
    var n := DayNumber(Date(y, 6, 12));
    DayNumberRoundTrip(Date(y, 6, 12));
    HolidaySet(n);
    EasterInSpring(y);
    if y < 1970 { DayNumberYearOrder(Date(y, 6, 12), HolidaysFrom); }
    if y > 2200 { DayNumberYearOrder(HolidaysUntil, Date(y, 6, 12)); }
  }

  /** Ash Wednesday (the `QuartaCinzas` rule, left out of the table) is
      always a business day. */
  lemma AshWednesdayIsBusinessDay(n: int)
    requires Observes(QuartaCinzas, n)
    ensures IsBusinessDay(n)
  {
    var c := FromDayNumber(n);
    var e := DayNumber(WesternEaster(c.year));
    EasterIsSunday(c.year);
    AshWednesdayWeekday(e);
    if IsHoliday(n) {
      WednesdayHolidayDate(n);
      FromDayNumberCorrect(n);
      EasterInSpring(c.year);
      NoDatedHolidayInLent(c.year, c.month, c.day, e);
    }
  }

  lemma AshWednesdayWeekday(e: int)
    requires Weekday(e) == Sunday
    ensures Weekday(e - 46) == 2
  {
    var q := (e + 3) / 7;
    assert e - 46 + 3 == 7 * (q - 6) + 2;
  }

  /** No dated holiday falls between February 4 and March 10. */
  lemma NoDatedHolidayInLent(y: int, m: int, d: int, e: int)
    requires IsFixedHolidayDate(m, d) || (m == 7 && d == 9)
    requires DayNumber(Date(y, 3, 22)) <= e <= DayNumber(Date(y, 4, 25))
    ensures DayNumber(Date(y, m, d)) != e - 46
  {
    LeapDayCounts(y);
  }
}
