/** Days and months of the proleptic Gregorian calendar, with day 1 the first of January of year 1. */
module Calendar {

  predicate IsLeap(year: int) {
    year % 4 == 0 && (year % 100 != 0 || year % 400 == 0)
  }

  function DaysInMonth(year: int, month: int): (r: int)
    ensures 28 <= r <= 31
  {
    if month == 2 then (if IsLeap(year) then 29 else 28)
    else if month == 4 || month == 6 || month == 9 || month == 11 then 30
    else 31
  }

  /** Days in the years before this one. */
  function DaysBeforeYear(year: int): int {
    var y := year - 1;
    y * 365 + y / 4 - y / 100 + y / 400
  }

  /** Days in the months of the year before this one. */
  function DaysBeforeMonth(year: int, month: int): int
    requires 1 <= month <= 13
    decreases month
  {
    if month == 1 then 0 else DaysBeforeMonth(year, month - 1) + DaysInMonth(year, month - 1)
  }

  /** 0 is Monday. */
  function Weekday(day: int): (r: int)
    ensures 0 <= r < 7
  {
    (day + 6) % 7
  }

  // Months are counted from 0, January of year 1.

  function YearOf(k: nat): int {
    1 + k / 12
  }

  function MonthOf(k: nat): (r: int)
    ensures 1 <= r <= 12
  {
    1 + k % 12
  }

  function Length(k: nat): (r: int)
    ensures 28 <= r <= 31
  {
    DaysInMonth(YearOf(k), MonthOf(k))
  }

  /** The first day of month k, counted month by month. */
  function FirstDay(k: nat): (r: int)
    ensures 1 <= r
  {
    if k == 0 then 1 else FirstDay(k - 1) + Length(k - 1)
  }

  lemma {:induction false} YearLength(year: int)
    requires 1 <= year
    ensures DaysBeforeMonth(year, 13) == if IsLeap(year) then 366 else 365
  {
    var f := m requires 1 <= m <= 13 => DaysBeforeMonth(year, m);
    assert f(1) == 0;
    assert f(2) == 31;
    assert f(4) == f(3) + 31 && f(3) == 31 + DaysInMonth(year, 2);
    assert f(6) == f(5) + 31 && f(5) == f(4) + 30;
    assert f(8) == f(7) + 31 && f(7) == f(6) + 30;
    assert f(10) == f(9) + 30 && f(9) == f(8) + 31;
    assert f(12) == f(11) + 30 && f(11) == f(10) + 31;
    assert f(13) == f(12) + 31;
  }

  lemma {:induction false} NextYear(year: int)
    requires 1 <= year
    ensures DaysBeforeYear(year + 1) == DaysBeforeYear(year) + if IsLeap(year) then 366 else 365
  {
    OneMultiple(year, 4);
    OneMultiple(year, 100);
    OneMultiple(year, 400);
    LeapMultiples(year);
  }

  /** From y - 1 to y, one more multiple of n iff y is one. */
  lemma {:induction false} OneMultiple(y: int, n: nat)
    requires 1 <= y && 1 < n
    ensures y / n == (y - 1) / n + if y % n == 0 then 1 else 0
  {
    var q, r := (y - 1) / n, (y - 1) % n;
    assert y == q * n + (r + 1);
    if r + 1 == n {
      assert y == (q + 1) * n;
      Quotient(y, n, q + 1, 0);
    } else {
      Quotient(y, n, q, r + 1);
    }
  }

  lemma {:induction false} Quotient(y: int, n: nat, q: int, r: int)
    requires y == q * n + r && 0 <= r < n
    ensures y / n == q && y % n == r
  {
    var d := y / n - q;
    assert d * n == r - y % n;
    NoMultipleWithin(d, n);
  }

  lemma {:induction false} NoMultipleWithin(d: int, n: nat)
    requires 0 - n < d * n < n
    ensures d == 0
  {
  }

  lemma {:induction false} LeapMultiples(year: int)
    ensures year % 400 == 0 ==> year % 100 == 0
    ensures year % 100 == 0 ==> year % 4 == 0
  {
    if year % 400 == 0 {
      Quotient(year, 100, 4 * (year / 400), 0);
    }
    if year % 100 == 0 {
      Quotient(year, 4, 25 * (year / 100), 0);
    }
  }

  lemma {:induction false} NextMonth(k: nat)
    ensures MonthOf(k) < 12 ==> YearOf(k + 1) == YearOf(k) && MonthOf(k + 1) == MonthOf(k) + 1
    ensures MonthOf(k) == 12 ==> YearOf(k + 1) == YearOf(k) + 1 && MonthOf(k + 1) == 1
  {
  }

  /** The calendar's own formula for the first day of a month. */
  function Ordinal(year: int, month: int): int {
    DaysBeforeYear(year) + (if 1 <= month <= 12 then DaysBeforeMonth(year, month) else 0) + 1
  }

  /** A formula for the first days moves from one month to the next by the month's length. */
  ghost predicate MovesOn(f: (int, int) -> int, year: int, month: int) {
    f(year, month) + DaysInMonth(year, month) == if month == 12 then f(year + 1, 1) else f(year, month + 1)
  }

  lemma {:induction false} OrdinalMovesOn(year: int, month: int)
    requires 1 <= year && 1 <= month <= 12
    ensures MovesOn(Ordinal, year, month)
  {
    if month == 12 {
      NextYear(year);
      YearLength(year);
    }
  }

  lemma {:induction false} CountsOn(f: (int, int) -> int, k: nat)
    requires FirstDay(k) == f(YearOf(k), MonthOf(k)) && MovesOn(f, YearOf(k), MonthOf(k))
    ensures FirstDay(k + 1) == f(YearOf(k + 1), MonthOf(k + 1))
  {
    NextMonth(k);
    assert FirstDay(k + 1) == FirstDay(k) + Length(k);
  }

  /** Any formula that starts right and moves on month by month counts the months. */
  lemma {:induction false} CountsMonths(f: (int, int) -> int, k: nat)
    requires f(1, 1) == 1
    requires forall y, m :: 1 <= y && 1 <= m <= 12 ==> MovesOn(f, y, m)
    ensures FirstDay(k) == f(YearOf(k), MonthOf(k))
    decreases k
  {
    if k > 0 {
      CountsMonths(f, k - 1);
      CountsOn(f, k - 1);
    }
  }

  /** Counting months agrees with the calendar's year and month formulas, leap years and year ends included. */
  lemma {:induction false} FirstDayIsOrdinal(k: nat)
    ensures FirstDay(k) == Ordinal(YearOf(k), MonthOf(k))
  {
    forall y, m | 1 <= y && 1 <= m <= 12 ensures MovesOn(Ordinal, y, m) {
      OrdinalMovesOn(y, m);
    }
    CountsMonths(Ordinal, k);
  }

  lemma {:induction false} MonthsInOrder(j: nat, k: nat)
    requires j < k
    ensures FirstDay(j) + Length(j) <= FirstDay(k)
    decreases k
  {
    if j < k - 1 {
      MonthsInOrder(j, k - 1);
    }
  }

  /** The month that contains a day, searched from month k on. */
  function MonthFrom(k: nat, day: int): (r: nat)
    requires FirstDay(k) <= day
    ensures FirstDay(r) <= day < FirstDay(r) + Length(r)
    decreases day - FirstDay(k)
  {
    if day < FirstDay(k) + Length(k) then k else MonthFrom(k + 1, day)
  }

  function MonthContaining(day: int): (r: nat)
    requires 1 <= day
    ensures FirstDay(r) <= day < FirstDay(r) + Length(r)
  {
    MonthFrom(0, day)
  }

  lemma {:induction false} MonthIsUnique(day: int, j: nat, k: nat)
    requires FirstDay(j) <= day < FirstDay(j) + Length(j)
    requires FirstDay(k) <= day < FirstDay(k) + Length(k)
    ensures j == k
  {
    if j < k {
      MonthsInOrder(j, k);
    } else if k < j {
      MonthsInOrder(k, j);
    }
  }

  // ----- Dates, day by day

  datatype CivilDate = CivilDate(year: int, month: int, day: int)

  const LENGTHS := [31, 28, 31, 30, 31, 30, 31, 31, 30, 31, 30, 31]

  /** The last day of a month: by the table, and one more in February of a leap year. */
  function LastDayOf(year: int, month: int): int
    requires 1 <= month <= 12
  {
    if month == 2 && (year % 400 == 0 || (year % 4 == 0 && year % 100 != 0)) then 29 else LENGTHS[month - 1]
  }

  function Tomorrow(d: CivilDate): CivilDate
    requires 1 <= d.month <= 12
  {
    if d.day < LastDayOf(d.year, d.month) then CivilDate(d.year, d.month, d.day + 1)
    else if d.month < 12 then CivilDate(d.year, d.month + 1, 1)
    else CivilDate(d.year + 1, 1, 1)
  }

  /** The date of a day, counted from the first of January of year 1. */
  function DateOf(day: int): (r: CivilDate)
    requires 1 <= day
    ensures 1 <= r.month <= 12
    decreases day
  {
    if day == 1 then CivilDate(1, 1, 1) else Tomorrow(DateOf(day - 1))
  }

  lemma {:induction false} LengthsAgree(year: int, month: int)
    requires 1 <= month <= 12
    ensures DaysInMonth(year, month) == LastDayOf(year, month)
  {
    LeapMultiples(year);
  }

  /** The date of a day of month k, read off the month's first day. */
  lemma {:induction false} DateInMonth(day: int, k: nat)
    requires FirstDay(k) <= day < FirstDay(k) + Length(k)
    ensures DateOf(day) == CivilDate(YearOf(k), MonthOf(k), day - FirstDay(k) + 1)
  {
    DaysOfMonth(k, day - FirstDay(k));
  }

  lemma {:induction false} DaysOfMonth(k: nat, d: nat)
    requires d < Length(k)
    ensures DateOf(FirstDay(k) + d) == CivilDate(YearOf(k), MonthOf(k), d + 1)
    decreases k, d
  {
    if 0 < d {
      DaysOfMonth(k, d - 1);
      NextInMonth(FirstDay(k) + d, k, d);
    } else if 0 < k {
      DaysOfMonth(k - 1, Length(k - 1) - 1);
      FirstOfNextMonth(FirstDay(k), k - 1);
    }
  }

  lemma {:induction false} NextInMonth(day: int, k: nat, d: int)
    requires 1 < day && d < Length(k) && DateOf(day - 1) == CivilDate(YearOf(k), MonthOf(k), d)
    ensures DateOf(day) == CivilDate(YearOf(k), MonthOf(k), d + 1)
  {
    LengthsAgree(YearOf(k), MonthOf(k));
  }

  lemma {:induction false} FirstOfNextMonth(day: int, k: nat)
    requires 1 < day && DateOf(day - 1) == CivilDate(YearOf(k), MonthOf(k), Length(k))
    ensures DateOf(day) == CivilDate(YearOf(k + 1), MonthOf(k + 1), 1)
  {
    LengthsAgree(YearOf(k), MonthOf(k));
    NextMonth(k);
  }

  lemma {:induction false} SameMonth(j: nat, k: nat)
    requires YearOf(j) == YearOf(k) && MonthOf(j) == MonthOf(k)
    ensures j == k
  {
    assert j == 12 * (j / 12) + j % 12 && k == 12 * (k / 12) + k % 12;
  }

  /** A day from its date: the ordinal of its month's first day. */
  lemma {:induction false} DayOfDate(day: int)
    requires 1 <= day
    ensures day == Ordinal(DateOf(day).year, DateOf(day).month) + DateOf(day).day - 1
  {
    var k := MonthContaining(day);
    DateInMonth(day, k);
    FirstDayIsOrdinal(k);
  }

  lemma {:induction false} WeekdaysFollow(day: int)
    ensures Weekday(day + 1) == (Weekday(day) + 1) % 7
  {
  }

  /** Some known days: the first of January 2024 was a Monday, the 29th of February 2024 a Thursday, the first
      of January 2000 a Saturday. */
  lemma {:induction false} KnownWeekdays(day: int, d: CivilDate)
    requires 1 <= day && DateOf(day) == d
    ensures d == CivilDate(2024, 1, 1) ==> Weekday(day) == 0
    ensures d == CivilDate(2024, 2, 29) ==> Weekday(day) == 3
    ensures d == CivilDate(2000, 1, 1) ==> Weekday(day) == 5
  {
    DayOfDate(day);
    OrdinalsOf(d, Ordinal(d.year, d.month) + d.day - 1);
  }

  lemma {:induction false} OrdinalsOf(d: CivilDate, day: int)
    requires day == Ordinal(d.year, d.month) + d.day - 1
    ensures d == CivilDate(2024, 1, 1) ==> Weekday(day) == 0
    ensures d == CivilDate(2024, 2, 29) ==> Weekday(day) == 3
    ensures d == CivilDate(2000, 1, 1) ==> Weekday(day) == 5
  {
  }
}
