/** The Gregorian calendar on days counted from 1970-01-01. */
module Calendar {

  predicate Leap(year: int) {
    year % 4 == 0 && (year % 100 != 0 || year % 400 == 0)
  }

  function YearLength(year: int): int {
    if Leap(year) then 366 else 365
  }

  function MonthLength(year: int, month: int): int {
    if month == 2 then (if Leap(year) then 29 else 28)
    else if month == 4 || month == 6 || month == 9 || month == 11 then 30
    else 31
  }

  function LeapsBefore(year: int): int {
    (year - 1) / 4 - (year - 1) / 100 + (year - 1) / 400
  }

  /** 1 January. */
  function YearStart(year: int): int {
    365 * (year - 1970) + LeapsBefore(year) - LeapsBefore(1970)
  }

  lemma EveryFourth(year: int)
    ensures year / 4 == (year - 1) / 4 + (if year % 4 == 0 then 1 else 0)
  {
  }

  lemma EveryHundredth(year: int)
    ensures year / 100 == (year - 1) / 100 + (if year % 100 == 0 then 1 else 0)
    ensures year % 100 == 0 ==> year % 4 == 0
  {
  }

  lemma EveryFourHundredth(year: int)
    ensures year / 400 == (year - 1) / 400 + (if year % 400 == 0 then 1 else 0)
    ensures year % 400 == 0 ==> year % 100 == 0
  {
  }

  lemma LeapsStep(year: int)
    ensures LeapsBefore(year + 1) == LeapsBefore(year) + (if Leap(year) then 1 else 0)
  {
    EveryFourth(year);
    EveryHundredth(year);
    EveryFourHundredth(year);
  }

  /** Years follow each other without gap; 1970 starts on day 0. */
  lemma YearsAdjoin(year: int)
    ensures YearStart(year + 1) == YearStart(year) + YearLength(year) && YearStart(1970) == 0
  {
    hide LeapsBefore, Leap;
    LeapsStep(year);
  }

  lemma {:induction false} YearStartBounds(n: nat)
    ensures YearStart(1970 + n) <= 366 * n && YearStart(1970 - n) <= -365 * n
  {
    YearsAdjoin(1970);
    if n > 0 {
      YearStartBounds(n - 1);
      YearsAdjoin(1970 + n - 1);
      YearsAdjoin(1970 - n);
    }
  }

  function YearFrom(day: int, year: int): (y: int)
    requires YearStart(year) <= day
    ensures YearStart(y) <= day < YearStart(y + 1)
    decreases day - YearStart(year)
  {
    YearsAdjoin(year);
    if day < YearStart(year + 1) then year else YearFrom(day, year + 1)
  }

  function YearOf(day: int): (y: int)
    ensures YearStart(y) <= day < YearStart(y + 1)
  {
    if day >= 0 then
      YearStartBounds(day / 366);
      YearFrom(day, 1970 + day / 366)
    else
      YearStartBounds(-(day / 365));
      YearFrom(day, 1970 + day / 365)
  }

  /** First day of a month; month 13 is January of the next year. */
  function MonthStart(year: int, month: int): int
    requires 1 <= month <= 13
    decreases month
  {
    if month == 1 then YearStart(year) else MonthStart(year, month - 1) + MonthLength(year, month - 1)
  }

  lemma MonthsFillTheYear(year: int)
    ensures MonthStart(year, 13) == YearStart(year + 1)
  {
    YearsAdjoin(year);
    assert MonthStart(year, 5) == YearStart(year) + 120 + (if Leap(year) then 1 else 0);
    assert MonthStart(year, 9) == MonthStart(year, 5) + 123;
    assert MonthStart(year, 13) == MonthStart(year, 9) + 122;
  }

  function MonthFrom(day: int, year: int, month: int): (m: int)
    requires 1 <= month <= 12 && MonthStart(year, month) <= day < MonthStart(year, 13)
    ensures 1 <= m <= 12 && MonthStart(year, m) <= day < MonthStart(year, m + 1)
    decreases 12 - month
  {
    if day < MonthStart(year, month + 1) then month else MonthFrom(day, year, month + 1)
  }

  /** EXTRACT(MONTH FROM date). */
  function MonthOf(day: int): (m: int)
    ensures 1 <= m <= 12
    ensures exists year :: MonthStart(year, m) <= day < MonthStart(year, m + 1)
  {
    var year := YearOf(day);
    MonthsFillTheYear(year);
    MonthFrom(day, year, 1)
  }
}
