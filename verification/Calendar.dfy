/**
  Days and civil dates of the proleptic Gregorian calendar, as ECMA-262 defines them in
  section 21.4.1 (Day, Year, Month and Date Number, MakeDay). Months count from 1 here.
*/
module Calendar {

  predicate IsLeap(y: int) {
    y % 4 == 0 && (y % 100 != 0 || y % 400 == 0)
  }

  function DaysInYear(y: int): nat {
    if IsLeap(y) then 366 else 365
  }

  function Quotient(n: int, k: int): int
    requires k > 0
  {
    n / k
  }

  /** The day number of 1 January, counted from 1970. */
  function DayFromYear(y: int): int {
    365 * (y - 1970) + Quotient(y - 1969, 4) - Quotient(y - 1901, 100) + Quotient(y - 1601, 400)
  }

  lemma YearLength(y: int)
    ensures DayFromYear(y + 1) == DayFromYear(y) + DaysInYear(y)
  {
    hide Quotient;
    QuotientStep(y, 1968, 4);
    QuotientStep(y, 1900, 100);
    QuotientStep(y, 1600, 400);
    assert DayFromYear(y + 1)
        == 365 * (y - 1970) + 365 + Quotient(y - 1968, 4) - Quotient(y - 1900, 100) + Quotient(y - 1600, 400);
    DivisorsOfDivisors(y);
  }

  lemma QuotientStep(y: int, base: int, k: int)
    requires (base, k) in {(1968, 4), (1900, 100), (1600, 400)}
    ensures Quotient(y - base, k) == Quotient(y - base - 1, k) + (if y % k == 0 then 1 else 0)
  {
  }

  lemma DivisorsOfDivisors(y: int)
    ensures y % 400 == 0 ==> y % 100 == 0
    ensures y % 100 == 0 ==> y % 4 == 0
  {
  }

  lemma {:induction false} LaterYear(a: int, b: int)
    requires a < b
    ensures DayFromYear(a) + DaysInYear(a) <= DayFromYear(b)
    decreases b - a
  {
    YearLength(a);
    if a + 1 < b {
      LaterYear(a + 1, b);
    }
  }

  function MonthLength(m: int, leap: bool): nat {
    if m == 2 then (if leap then 29 else 28)
    else if m == 4 || m == 6 || m == 9 || m == 11 then 30
    else 31
  }

  /** Days of the year before month `m` starts. */
  function MonthStart(m: int, leap: bool): nat
    requires 1 <= m <= 13
  {
    if m == 1 then 0 else MonthStart(m - 1, leap) + MonthLength(m - 1, leap)
  }

  /** The cumulative table of the standard. */
  lemma MonthTable(leap: bool)
    ensures var l := if leap then 1 else 0;
            && MonthStart(1, leap) == 0 && MonthStart(2, leap) == 31 && MonthStart(3, leap) == 59 + l
            && MonthStart(4, leap) == 90 + l && MonthStart(5, leap) == 120 + l && MonthStart(6, leap) == 151 + l
            && MonthStart(7, leap) == 181 + l && MonthStart(8, leap) == 212 + l && MonthStart(9, leap) == 243 + l
            && MonthStart(10, leap) == 273 + l && MonthStart(11, leap) == 304 + l && MonthStart(12, leap) == 334 + l
            && MonthStart(13, leap) == 365 + l
  {
    assert MonthStart(2, leap) == 31;
    assert MonthStart(3, leap) == 59 + (if leap then 1 else 0);
    assert MonthStart(5, leap) == MonthStart(3, leap) + 61;
    assert MonthStart(7, leap) == MonthStart(5, leap) + 61;
    assert MonthStart(9, leap) == MonthStart(7, leap) + 62;
    assert MonthStart(11, leap) == MonthStart(9, leap) + 61;
  }

  function DaysInMonth(y: int, m: int): nat {
    MonthLength(m, IsLeap(y))
  }

  datatype Civil = Civil(year: int, month: int, day: int)

  predicate IsDate(c: Civil) {
    1 <= c.month <= 12 && 1 <= c.day <= DaysInMonth(c.year, c.month)
  }

  function DayNumber(c: Civil): int
    requires 1 <= c.month <= 12
  {
    DayFromYear(c.year) + MonthStart(c.month, IsLeap(c.year)) + c.day - 1
  }

  /** The largest year starting no later than `day`. */
  function YearOf(day: int): (y: int)
    ensures DayFromYear(y) <= day < DayFromYear(y + 1)
  {
    if DayFromYear(1970) <= day then YearUp(day, 1970) else YearDown(day, 1969)
  }

  function YearUp(day: int, y: int): (r: int)
    requires DayFromYear(y) <= day
    ensures DayFromYear(r) <= day < DayFromYear(r + 1)
    decreases day - DayFromYear(y)
  {
    YearLength(y);
    if DayFromYear(y + 1) <= day then YearUp(day, y + 1) else y
  }

  function YearDown(day: int, y: int): (r: int)
    requires day < DayFromYear(y + 1)
    ensures DayFromYear(r) <= day < DayFromYear(r + 1)
    decreases DayFromYear(y + 1) - day
  {
    YearLength(y);
    if DayFromYear(y) <= day then y else YearDown(day, y - 1)
  }

  /** The month holding day `d` (from 0) of a year. */
  function MonthOf(d: int, leap: bool): (m: int)
    requires 0 <= d < (if leap then 366 else 365)
    ensures 1 <= m <= 12 && MonthStart(m, leap) <= d < MonthStart(m + 1, leap)
  {
    MonthTable(leap);
    MonthFrom(d, leap, 1)
  }

  function MonthFrom(d: int, leap: bool, m: int): (r: int)
    requires 1 <= m <= 12 && MonthStart(m, leap) <= d < (if leap then 366 else 365)
    ensures 1 <= r <= 12 && MonthStart(r, leap) <= d < MonthStart(r + 1, leap)
    decreases 12 - m
  {
    MonthTable(leap);
    if d < MonthStart(m + 1, leap) then m else MonthFrom(d, leap, m + 1)
  }

  predicate Before(a: Civil, b: Civil) {
    a.year < b.year || (a.year == b.year && (a.month < b.month || (a.month == b.month && a.day < b.day)))
  }

  lemma {:induction false} LaterMonth(m: int, n: int, leap: bool)
    requires 1 <= m < n <= 13
    ensures MonthStart(m, leap) + MonthLength(m, leap) <= MonthStart(n, leap)
    decreases n
  {
    if m + 1 < n {
      LaterMonth(m, n - 1, leap);
    }
  }

  /** Year, month, day order is day-number order. */
  lemma BeforeIsEarlier(a: Civil, b: Civil)
    requires IsDate(a) && IsDate(b)
    ensures Before(a, b) <==> DayNumber(a) < DayNumber(b)
    ensures DayNumber(a) == DayNumber(b) ==> a == b
  {
    if Before(a, b) {
      EarlierFromBefore(a, b);
    } else if Before(b, a) {
      EarlierFromBefore(b, a);
    }
  }

  lemma EarlierFromBefore(a: Civil, b: Civil)
    requires IsDate(a) && IsDate(b) && Before(a, b)
    ensures DayNumber(a) < DayNumber(b)
  {
    WithinYear(a);
    WithinYear(b);
    if a.year < b.year {
      LaterYear(a.year, b.year);
    } else if a.month < b.month {
      LaterMonth(a.month, b.month, IsLeap(a.year));
    }
  }

  lemma WithinYear(a: Civil)
    requires IsDate(a)
    ensures DayFromYear(a.year) <= DayNumber(a) < DayFromYear(a.year) + DaysInYear(a.year)
  {
    MonthTable(IsLeap(a.year));
    LaterMonth(a.month, 13, IsLeap(a.year));
  }

  function CivilInYear(y: int, d: int): (c: Civil)
    requires 0 <= d < DaysInYear(y)
    ensures c.year == y && IsDate(c) && MonthStart(c.month, IsLeap(y)) + c.day - 1 == d
  {
    var m := MonthOf(d, IsLeap(y));
    Civil(y, m, d - MonthStart(m, IsLeap(y)) + 1)
  }

  /** YearFromTime, MonthFromTime and DateFromTime of a day number. */
  function CivilFromDay(day: int): (c: Civil)
    ensures IsDate(c) && DayNumber(c) == day
  {
    var y := YearOf(day);
    YearLength(y);
    CivilInYear(y, day - DayFromYear(y))
  }

  lemma HasCivil(day: int)
    ensures exists c :: IsDate(c) && DayNumber(c) == day
  {
    var c := CivilFromDay(day);
  }

  /** The one civil date with the given day number. */
  ghost function CivilOf(day: int): (c: Civil)
    ensures IsDate(c) && DayNumber(c) == day
  {
    HasCivil(day);
    var c :| IsDate(c) && DayNumber(c) == day;
    c
  }

  lemma CivilFromDayIsCivilOf(day: int)
    ensures CivilFromDay(day) == CivilOf(day)
  {
    BeforeIsEarlier(CivilFromDay(day), CivilOf(day));
  }

  /** Civil dates and day numbers are in bijection. */
  lemma CivilOfDayNumber(c: Civil)
    requires IsDate(c)
    ensures CivilOf(DayNumber(c)) == c
  {
    BeforeIsEarlier(CivilOf(DayNumber(c)), c);
  }

  /** MakeDay with a month counted from 0 that may run past December, and any day of month. */
  function MakeDay(year: int, month: int, date: int): int {
    var y := year + month / 12;
    DayNumber(Civil(y, month % 12 + 1, 1)) + date - 1
  }

  /** Moving the day of month moves the day number alike, whatever months it crosses. */
  lemma MakeDayMoves(c: Civil, n: int)
    requires IsDate(c)
    ensures MakeDay(c.year, c.month - 1, c.day + n) == DayNumber(c) + n
  {
    assert (c.month - 1) / 12 == 0 && (c.month - 1) % 12 + 1 == c.month;
  }

  /** Day 0 of the following month is the last day of month `m`, December included. */
  lemma DayZeroIsMonthEnd(year: int, m: int)
    requires 1 <= m <= 12
    ensures CivilOf(MakeDay(year, m, 0)) == Civil(year, m, DaysInMonth(year, m))
  {
    YearLength(year);
    var c := Civil(year, m, DaysInMonth(year, m));
    MonthTable(IsLeap(year));
    if m < 12 {
      assert m / 12 == 0 && m % 12 == m;
    } else {
      assert m / 12 == 1 && m % 12 == 0;
    }
    assert DayNumber(c) == MakeDay(year, m, 0);
    CivilOfDayNumber(c);
  }
}
