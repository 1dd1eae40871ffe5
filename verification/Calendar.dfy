/**
 * Time values and the proleptic Gregorian calendar, as in section 21.4.1 of ECMA-262: a time value
 * counts milliseconds from the first instant of 1970 UTC. A month is named by 12 * year + month,
 * with January as month 0, so that months are consecutive integers.
 */
module Calendar {
  const MS_PER_DAY := 86_400_000

  const JANUARY_1970 := 23640

  predicate Leap(year: int) {
    year % 4 == 0 && (year % 100 != 0 || year % 400 == 0)
  }

  function MonthLength(m: int): (days: int)
    ensures 28 <= days <= 31
  {
    var month := m % 12;
    if month == 1 then (if Leap(m / 12) then 29 else 28)
    else if month == 3 || month == 5 || month == 8 || month == 10 then 30
    else 31
  }

  /** The day number of the first day of a month, counted month by month from 1970. */
  function MonthStart(m: int): int
    decreases if m < JANUARY_1970 then JANUARY_1970 - m else m - JANUARY_1970
  {
    if m == JANUARY_1970 then 0
    else if m > JANUARY_1970 then MonthStart(m - 1) + MonthLength(m - 1)
    else MonthStart(m + 1) - MonthLength(m)
  }

  lemma NextMonth(m: int)
    ensures MonthStart(m + 1) == MonthStart(m) + MonthLength(m)
  {
  }

  lemma {:induction false} MonthsAreFar(a: int, b: int)
    requires a <= b
    ensures MonthStart(b) - MonthStart(a) >= 28 * (b - a)
    decreases b - a
  {
    if a < b {
      MonthsAreFar(a, b - 1);
      NextMonth(b - 1);
    }
  }

  ghost predicate InMonth(day: int, m: int) {
    MonthStart(m) <= day < MonthStart(m + 1)
  }

  lemma MonthIsUnique(day: int, a: int, b: int)
    requires InMonth(day, a) && InMonth(day, b)
    ensures a == b
  {
    if a < b { MonthsAreFar(a + 1, b); }
    if b < a { MonthsAreFar(b + 1, a); }
  }

  function MonthFrom(day: int, m: int): (month: int)
    requires MonthStart(m) <= day
    ensures InMonth(day, month)
    decreases day - MonthStart(m)
  {
    NextMonth(m);
    if day < MonthStart(m + 1) then m else MonthFrom(day, m + 1)
  }

  function MonthDownFrom(day: int, m: int): (month: int)
    requires day < MonthStart(m)
    ensures InMonth(day, month)
    decreases MonthStart(m) - day
  {
    NextMonth(m - 1);
    if day < MonthStart(m - 1) then MonthDownFrom(day, m - 1) else m - 1
  }

  /** The month a day lies in: 12 * getUTCFullYear + getUTCMonth. */
  function MonthOf(day: int): (m: int)
    ensures InMonth(day, m)
  {
    if MonthStart(JANUARY_1970) <= day then MonthFrom(day, JANUARY_1970) else MonthDownFrom(day, JANUARY_1970)
  }

  function DayOf(time: int): int {
    time / MS_PER_DAY
  }

  function UTCFullYear(time: int): int {
    MonthOf(DayOf(time)) / 12
  }

  function UTCMonth(time: int): int {
    MonthOf(DayOf(time)) % 12
  }

  function UTCDate(time: int): int {
    DayOf(time) - MonthStart(MonthOf(DayOf(time))) + 1
  }

  /** Date.UTC reads the years 0 to 99 as 1900 to 1999. */
  function FullYear(year: int): int {
    if 0 <= year <= 99 then 1900 + year else year
  }

  /** Date.UTC(year, month, date); months and days outside their range carry over. */
  function UTC(year: int, month: int, date: int): int {
    (MonthStart(12 * FullYear(year) + month) + date - 1) * MS_PER_DAY
  }

  // ------------------------------------------------ the standard's formula ----

  /** Days from 1970 to the first day of `year`, as the standard computes it. */
  function DayFromYear(year: int): int {
    365 * (year - 1970) + (year - 1969) / 4 - (year - 1901) / 100 + (year - 1601) / 400
  }

  /** A quotient by `period` steps up exactly at the multiples of the period. */
  lemma FourthYears(year: int)
    ensures (year + 1 - 1969) / 4 == (year - 1969) / 4 + (if year % 4 == 0 then 1 else 0)
  {
  }

  lemma Centuries(year: int)
    ensures (year + 1 - 1901) / 100 == (year - 1901) / 100 + (if year % 100 == 0 then 1 else 0)
  {
  }

  lemma FourthCenturies(year: int)
    ensures (year + 1 - 1601) / 400 == (year - 1601) / 400 + (if year % 400 == 0 then 1 else 0)
  {
  }

  lemma LeapDays(year: int)
    ensures (if Leap(year) then 1 else 0) ==
      (if year % 4 == 0 then 1 else 0) - (if year % 100 == 0 then 1 else 0) + (if year % 400 == 0 then 1 else 0)
  {
  }

  lemma YearByFormula(year: int)
    ensures DayFromYear(year + 1) - DayFromYear(year) == if Leap(year) then 366 else 365
  {
    FourthYears(year);
    Centuries(year);
    FourthCenturies(year);
    LeapDays(year);
  }

  lemma FirstHalf(year: int)
    ensures MonthStart(12 * year + 6) - MonthStart(12 * year) == if Leap(year) then 182 else 181
  {
    var m := 12 * year;
    NextMonth(m); NextMonth(m + 1); NextMonth(m + 2); NextMonth(m + 3); NextMonth(m + 4); NextMonth(m + 5);
  }

  lemma SecondHalf(year: int)
    ensures MonthStart(12 * year + 12) - MonthStart(12 * year + 6) == 184
  {
    var m := 12 * year + 6;
    NextMonth(m); NextMonth(m + 1); NextMonth(m + 2); NextMonth(m + 3); NextMonth(m + 4); NextMonth(m + 5);
  }

  lemma YearByMonths(year: int)
    ensures MonthStart(12 * year + 12) - MonthStart(12 * year) == if Leap(year) then 366 else 365
  {
    FirstHalf(year);
    SecondHalf(year);
  }

  /** How many days of a common year are over when month `k` of it begins. */
  const DAYS_BEFORE := [0, 31, 59, 90, 120, 151, 181, 212, 243, 273, 304, 334]

  lemma LengthByTable(year: int, k: nat)
    requires k < 11
    ensures MonthLength(12 * year + k) == DAYS_BEFORE[k + 1] - DAYS_BEFORE[k] + if k == 1 && Leap(year) then 1 else 0
  {
    assert (12 * year + k) % 12 == k && (12 * year + k) / 12 == year;
  }

  /** The months of a year begin where the standard's table says; after February a leap year is a day late. */
  lemma {:induction false} MonthsByTable(year: int, k: nat)
    requires k < 12
    ensures MonthStart(12 * year + k) == DayFromYear(year) + DAYS_BEFORE[k] + if k >= 2 && Leap(year) then 1 else 0
  {
    if k == 0 {
      FormulaCountsDays(year);
    } else {
      MonthsByTable(year, k - 1);
      NextMonth(12 * year + k - 1);
      LengthByTable(year, k - 1);
    }
  }

  /** The closed formula of ECMA-262 counts the same days as going through the months one by one. */
  lemma {:induction false} FormulaCountsDays(year: int)
    ensures MonthStart(12 * year) == DayFromYear(year)
    decreases if year < 1970 then 1970 - year else year - 1970
  {
    if year > 1970 {
      FormulaCountsDays(year - 1);
      YearByFormula(year - 1);
      YearByMonths(year - 1);
    } else if year < 1970 {
      FormulaCountsDays(year + 1);
      YearByFormula(year);
      YearByMonths(year);
    }
  }
}
