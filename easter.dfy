/** Western (Gregorian) Easter, as computed by `dateutil.easter.easter(y)`
    with its default method (method 3), which the exchange calendar's
    Easter-relative holidays are offset from. */
module Easter {
  import opened Civil

  /** Days from the Paschal full moon's March 21 base to the moon itself,
      the `i` of dateutil's algorithm.  Python's `//` and `%` with a positive
      divisor are Dafny's `/` and `%`. */
  function MoonOffset(y: int): int {
    var g := y % 19;
    var c := y / 100;
    var h := (c - c / 4 - (8 * c + 13) / 25 + 19 * g + 15) % 30;
    h - (h / 28) * (1 - (h / 28) * (29 / (h + 1)) * ((21 - g) / 11))
  }

  /** Days from the full moon back to the preceding Sunday, the `j` of the
      algorithm. */
  function WeekdayCorrection(y: int): int {
    var c := y / 100;
    (y + y / 4 + MoonOffset(y) + 2 - c + c / 4) % 7
  }

  /** Days from March 28 of year `y` to its Easter Sunday (between -6 and
      28); the `p` of the algorithm. */
  function EasterShift(y: int): int {
    MoonOffset(y) - WeekdayCorrection(y)
  }

  /** Easter Sunday of year `y`. */
  function WesternEaster(y: int): Date {
    var p := EasterShift(y);
    var d := 1 + (p + 27 + (p + 6) / 40) % 31;
    var m := 3 + (p + 26) / 30;
    Date(y, m, d)
  }

  /** The Paschal full-moon correction `i` of the algorithm lies in 0..28. */
  lemma MoonCorrectionBounds(g: int, h: int)
    requires 0 <= g < 19 && 0 <= h < 30
    ensures var i := h - (h / 28) * (1 - (h / 28) * (29 / (h + 1)) * ((21 - g) / 11));
            0 <= i <= 28
  {
    if h < 28 {
      assert h / 28 == 0;
    } else if h == 28 {
      assert 29 / (h + 1) == 1;
      assert 0 <= (21 - g) / 11 <= 1;
    } else {
      assert 29 / (h + 1) == 0;
    }
  }

  lemma EasterShiftBounds(y: int)
    ensures -6 <= EasterShift(y) <= 28
  {
    var g := y % 19;
    var c := y / 100;
    var h := (c - c / 4 - (8 * c + 13) / 25 + 19 * g + 15) % 30;
    MoonCorrectionBounds(g, h);
    assert 0 <= MoonOffset(y) <= 28;
  }

  /** Easter falls between March 22 and April 25, `EasterShift(y)` days
      after March 28. */
  lemma EasterInSpring(y: int)
    ensures Valid(WesternEaster(y)) && WesternEaster(y).year == y
    ensures DayNumber(WesternEaster(y)) == DayNumber(Date(y, 3, 28)) + EasterShift(y)
    ensures DayNumber(Date(y, 3, 22)) <= DayNumber(WesternEaster(y)) <= DayNumber(Date(y, 4, 25))
  {
    var p := EasterShift(y);
    EasterShiftBounds(y);
    assert (p + 6) / 40 == 0;
    if p <= 3 {
      assert WesternEaster(y) == Date(y, 3, 28 + p);
    } else {
      assert WesternEaster(y) == Date(y, 4, p - 3);
    }
  }

  /** Easter's day number, `EasterShift(y)` days after March 28 of the same
      year. */
  lemma EasterDayNumber(y: int)
    ensures DayNumber(WesternEaster(y)) == 365 * y + y / 4 - y / 100 + y / 400 + 27 - 719468 + EasterShift(y)
  {
    EasterInSpring(y);
  }

  /** Floor division nests: `(y / 100) / 4 == y / 400`. */
  lemma CenturyQuarter(y: int)
    ensures (y / 100) / 4 == y / 400
  {
    var q := y / 400;
    var r := y % 400;
    assert y == 400 * q + r && 0 <= r < 400;
    assert y / 100 == 4 * q + r / 100;
  }

  /** The algorithm always lands on a Sunday. */
  lemma EasterIsSunday(y: int)
    ensures Weekday(DayNumber(WesternEaster(y))) == Sunday
  {
    EasterDayNumber(y);
    CenturyQuarter(y);
    SundayArithmetic(y, y / 4, y / 100, y / 400, MoonOffset(y), WeekdayCorrection(y));
  }

  /** The weekday sum behind `EasterIsSunday`, with the leap-day counts
      `y / 4`, `y / 100`, `y / 400` as `a`, `b`, `q`: the count of days
      to March 28 plus `i - j` is a Sunday when `j` is the weekday
      correction. */
  lemma SundayArithmetic(y: int, a: int, b: int, q: int, i: int, j: int)
    requires j == (y + a + i + 2 - b + q) % 7
    ensures (365 * y + a - b + q + 27 + i - j - 719468 + 3) % 7 == 6
  {
    var s := y + a + i + 2 - b + q;
    assert s == 7 * (s / 7) + j;
    assert 365 * y + a - b + q + 27 + i - j - 719468 + 3 == 7 * (52 * y + s / 7 - 102778) + 6;
  }
}
