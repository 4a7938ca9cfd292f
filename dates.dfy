/** Calendar arithmetic on day numbers. A date is the number of days since
    1970-01-01 (day 0, a Thursday), in the proleptic Gregorian calendar that
    JavaScript's `Date` uses; `Civil` is the (year, month 1-12, day) view of it. */
module Dates {
  datatype Civil = Civil(year: int, month: int, day: int)

  predicate IsLeapYear(y: int) { y % 4 == 0 && (y % 100 != 0 || y % 400 == 0) }

  function DaysInMonth(y: int, m: int): int
    requires 1 <= m <= 12
  {
    if m == 2 then (if IsLeapYear(y) then 29 else 28)
    else if m == 4 || m == 6 || m == 9 || m == 11 then 30
    else 31
  }

  predicate ValidCivil(c: Civil) { 1 <= c.month <= 12 && 1 <= c.day <= DaysInMonth(c.year, c.month) }

  /** Leap years in 1..x (counted relative to year 0 for smaller x). */
  function LeapsThrough(x: int): int { x / 4 - x / 100 + x / 400 }

  /** The day number of January 1 of year `y`; 477 leap years fall in 1..1969. */
  function YearStart(y: int): int { 365 * (y - 1970) + LeapsThrough(y - 1) - 477 }

  function YearLength(y: int): int { if IsLeapYear(y) then 366 else 365 }

  lemma YearStartStep(y: int)
    ensures YearStart(y + 1) - YearStart(y) == YearLength(y)
  {
    LeapsStep(y);
  }

  /** Year `y` adds one to the leap count exactly when it is a leap year. */
  lemma LeapsStep(y: int)
    ensures LeapsThrough(y) - LeapsThrough(y - 1) == if IsLeapYear(y) then 1 else 0
  {
    Div4Step(y);
    Div100Step(y);
    Div400Step(y);
  }

  lemma Div4Step(y: int)
    ensures y / 4 - (y - 1) / 4 == if y % 4 == 0 then 1 else 0
  {
  }

  lemma Div100Step(y: int)
    ensures y / 100 - (y - 1) / 100 == if y % 100 == 0 then 1 else 0
  {
  }

  lemma Div400Step(y: int)
    ensures y / 400 - (y - 1) / 400 == if y % 400 == 0 then 1 else 0
  {
  }

  lemma YearStartApprox(y: int)
    ensures 146097 * (y - 1970) - 1200 <= 400 * YearStart(y) <= 146097 * (y - 1970) + 1200
  {
  }

  lemma YearStartMonotone(a: int, b: int)
    requires a < b
    ensures YearStart(a) + YearLength(a) <= YearStart(b)
  {
    YearStartStep(a);
    if a + 1 < b {
      YearStartApprox(a + 1);
      YearStartApprox(b);
    }
  }

  /** Days of year `y` before the first of month `m` (13 stands for the next January). */
  function MonthStart(y: int, m: int): int
    requires 1 <= m <= 13
  {
    var before := [0, 31, 59, 90, 120, 151, 181, 212, 243, 273, 304, 334, 365][m - 1];
    if m > 2 && IsLeapYear(y) then before + 1 else before
  }

  lemma MonthStartStep(y: int, m: int)
    requires 1 <= m <= 12
    ensures MonthStart(y, m + 1) == MonthStart(y, m) + DaysInMonth(y, m)
    ensures MonthStart(y, 13) == YearLength(y)
  {
  }

  /** The year that day `n` falls in: an estimate from the mean year length, corrected by one. */
  function YearOf(n: int): int
  {
    var y0 := 1970 + (400 * n) / 146097;
    if n < YearStart(y0) then y0 - 1
    else if YearStart(y0 + 1) <= n then y0 + 1
    else y0
  }

  lemma YearOfBracket(n: int)
    ensures YearStart(YearOf(n)) <= n < YearStart(YearOf(n)) + YearLength(YearOf(n))
  {
    var y0 := 1970 + (400 * n) / 146097;
    EstimateNear(n, y0);
    YearStartStep(YearOf(n));
  }

  /** The estimate is off by at most one year either way. */
  lemma EstimateNear(n: int, y0: int)
    requires y0 == 1970 + (400 * n) / 146097
    ensures YearStart(y0 - 1) <= n < YearStart(y0 + 2)
  {
    var q := (400 * n) / 146097;
    assert 146097 * q <= 400 * n < 146097 * q + 146097;
    YearStartApprox(y0 - 1);
    YearStartApprox(y0 + 2);
  }

  function MonthOf(y: int, doy: int): int
  {
    if doy < MonthStart(y, 2) then 1
    else if doy < MonthStart(y, 3) then 2
    else if doy < MonthStart(y, 4) then 3
    else if doy < MonthStart(y, 5) then 4
    else if doy < MonthStart(y, 6) then 5
    else if doy < MonthStart(y, 7) then 6
    else if doy < MonthStart(y, 8) then 7
    else if doy < MonthStart(y, 9) then 8
    else if doy < MonthStart(y, 10) then 9
    else if doy < MonthStart(y, 11) then 10
    else if doy < MonthStart(y, 12) then 11
    else 12
  }

  /** The day number of a civil date; a day past the end of its month counts on into the
      following months, which is how `Date` normalises an overflowing day. */
  function DaysFromCivil(c: Civil): int
    requires 1 <= c.month <= 12
  {
    YearStart(c.year) + MonthStart(c.year, c.month) + c.day - 1
  }

  function CivilFromDays(n: int): Civil
  {
    var y := YearOf(n);
    var doy := n - YearStart(y);
    var m := MonthOf(y, doy);
    Civil(y, m, doy - MonthStart(y, m) + 1)
  }

  /** Every day number has a valid civil date that maps back to it. */
  lemma CivilRoundTrip(n: int)
    ensures ValidCivil(CivilFromDays(n))
    ensures DaysFromCivil(CivilFromDays(n)) == n
  {
    YearOfBracket(n);
  }

  /** A valid civil date is recovered from its day number. */
  lemma DaysRoundTrip(c: Civil)
    requires ValidCivil(c)
    ensures CivilFromDays(DaysFromCivil(c)) == c
  {
    YearOfCivil(c);
    MonthOfDay(c.year, c.month, c.day);
  }

  /** The day number of a valid date lies in that date's year. */
  lemma YearOfCivil(c: Civil)
    requires ValidCivil(c)
    ensures YearOf(DaysFromCivil(c)) == c.year
  {
    var n := DaysFromCivil(c);
    MonthStartStep(c.year, c.month);
    assert MonthStart(c.year, c.month + 1) <= MonthStart(c.year, 13);
    YearOfBracket(n);
    var y := YearOf(n);
    if y < c.year {
      YearStartMonotone(y, c.year);
    } else if c.year < y {
      YearStartMonotone(c.year, y);
    }
  }

  /** Day `d` of month `m`, counted from the start of the year, falls in month `m`. */
  lemma MonthOfDay(y: int, m: int, d: int)
    requires 1 <= m <= 12 && 1 <= d <= DaysInMonth(y, m)
    ensures MonthOf(y, MonthStart(y, m) + d - 1) == m
  {
    MonthStartStep(y, m);
  }

  /** `getDay()`: 0 for Sunday through 6 for Saturday. */
  function Weekday(n: int): (w: int)
    ensures 0 <= w < 7
  {
    (n + 4) % 7
  }

  /** `d.setMonth(d.getMonth() + k)`: the same day of the month `k` months on, counting on
      into the following month when the target month is too short. */
  function ShiftMonths(n: int, k: int): int
  {
    DaysFromCivil(ShiftedMonth(CivilFromDays(n), k))
  }

  lemma DaysFromCivilOverflow(y: int, m: int, d: int)
    requires 1 <= m <= 12
    ensures DaysFromCivil(Civil(y, m, d)) ==
      if m == 12 then DaysFromCivil(Civil(y + 1, 1, d - DaysInMonth(y, m)))
      else DaysFromCivil(Civil(y, m + 1, d - DaysInMonth(y, m)))
  {
    MonthStartStep(y, m);
    if m == 12 { YearStartStep(y); }
  }

  /** The civil date `k` months after `c`, before the day is normalised. */
  function ShiftedMonth(c: Civil, k: int): (r: Civil)
    ensures 1 <= r.month <= 12 && r.day == c.day
  {
    var mi := c.month - 1 + k;
    Civil(c.year + mi / 12, mi % 12 + 1, c.day)
  }

  /** A date whose day runs past the end of its month rolls into the next month. */
  function Normalize(t: Civil): Civil
    requires 1 <= t.month <= 12
  {
    var dim := DaysInMonth(t.year, t.month);
    if t.day <= dim then t
    else if t.month == 12 then Civil(t.year + 1, 1, t.day - dim)
    else Civil(t.year, t.month + 1, t.day - dim)
  }

  /** What `setMonth` gives, as a civil date: the shifted month with the day rolled over. */
  lemma ShiftMonthsCivil(n: int, k: int)
    ensures CivilFromDays(ShiftMonths(n, k)) == Normalize(ShiftedMonth(CivilFromDays(n), k))
  {
    var t := ShiftedMonth(CivilFromDays(n), k);
    CivilRoundTrip(n);
    NormalizeKeepsDay(t);
    DaysRoundTrip(Normalize(t));
  }

  /** Rolling over a day of at most 31 gives a valid date with the same day number. */
  lemma NormalizeKeepsDay(t: Civil)
    requires 1 <= t.month <= 12 && 1 <= t.day <= 31
    ensures ValidCivil(Normalize(t))
    ensures DaysFromCivil(Normalize(t)) == DaysFromCivil(t)
  {
    DaysFromCivilOverflow(t.year, t.month, t.day);
  }

  /** Shifting by zero months leaves a date alone. */
  lemma ShiftMonthsZero(n: int)
    ensures ShiftMonths(n, 0) == n
  {
    var c := CivilFromDays(n);
    CivilRoundTrip(n);
    assert (c.month - 1) / 12 == 0 && (c.month - 1) % 12 + 1 == c.month;
    assert ShiftedMonth(c, 0) == c;
  }

  /** January 31 plus one month is March 3, or March 2 in a leap year. */
  lemma Jan31PlusOneMonth(y: int)
    ensures CivilFromDays(ShiftMonths(DaysFromCivil(Civil(y, 1, 31)), 1)) ==
      if IsLeapYear(y) then Civil(y, 3, 2) else Civil(y, 3, 3)
  {
    var c := Civil(y, 1, 31);
    DaysRoundTrip(c);
    ShiftMonthsCivil(DaysFromCivil(c), 1);
  }
}
