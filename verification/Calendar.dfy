/** The proleptic Gregorian calendar in UTC. Days are counted from Monday,
    1 January of year 1, in both directions. */
module Calendar {

  predicate IsLeap(y: int) { y % 4 == 0 && (y % 100 != 0 || y % 400 == 0) }

  function YearLength(y: int): int { if IsLeap(y) then 366 else 365 }

  function DaysIn(y: int, m: int): int {
    if m == 2 then (if IsLeap(y) then 29 else 28)
    else if m == 4 || m == 6 || m == 9 || m == 11 then 30
    else 31
  }

  /** Days from the epoch to 1 January of year y. */
  function DaysBeforeYear(y: int): int { 365 * (y - 1) + (y - 1) / 4 - (y - 1) / 100 + (y - 1) / 400 }

  lemma YearStep(y: int)
    ensures DaysBeforeYear(y + 1) == DaysBeforeYear(y) + YearLength(y)
  {
    QuotientStep(y, 4);
    QuotientStep(y, 100);
    QuotientStep(y, 400);
    MultipleOf(y, 100, 4);
    MultipleOf(y, 400, 100);
  }

  predicate Period(k: int) { k == 4 || k == 100 || k == 400 }

  lemma QuotientStep(y: int, k: int)
    requires Period(k)
    ensures y / k == (y - 1) / k + (if y % k == 0 then 1 else 0)
  {}

  lemma DivIs(x: int, k: int, q: int, r: int)
    requires Period(k) && x == k * q + r && 0 <= r < k
    ensures x / k == q && x % k == r
  {}

  lemma MultipleOf(y: int, big: int, small: int)
    requires (big == 100 && small == 4) || (big == 400 && small == 100)
    ensures y % big == 0 ==> y % small == 0
  {
    if y % big == 0 {
      var q := y / big;
      if big == 100 { DivIs(y, 4, 25 * q, 0); } else { DivIs(y, 100, 4 * q, 0); }
    }
  }

  /** The calendar repeats every 400 years. */
  lemma CycleStep(y: int, c: int)
    ensures DaysBeforeYear(y + 400 * c) == DaysBeforeYear(y) + 146097 * c
    ensures IsLeap(y + 400 * c) == IsLeap(y)
  {
    Shift(y - 1, 4, 100 * c);
    Shift(y - 1, 100, 4 * c);
    Shift(y - 1, 400, c);
    Shift(y, 4, 100 * c);
    Shift(y, 100, 4 * c);
    Shift(y, 400, c);
  }

  lemma Shift(x: int, k: int, q: int)
    requires Period(k)
    ensures (x + k * q) / k == x / k + q && (x + k * q) % k == x % k
  {}

  function YearFrom(n: int, y: int): (r: int)
    requires DaysBeforeYear(y) <= n
    ensures DaysBeforeYear(r) <= n < DaysBeforeYear(r + 1)
    decreases n - DaysBeforeYear(y)
  {
    YearStep(y);
    if n < DaysBeforeYear(y + 1) then y else YearFrom(n, y + 1)
  }

  function YearOf(n: int): (y: int)
    ensures DaysBeforeYear(y) <= n < DaysBeforeYear(y + 1)
  {
    var c := n / 146097;
    var y := YearFrom(n % 146097, 1);
    CycleStep(y, c);
    CycleStep(y + 1, c);
    y + 400 * c
  }

  lemma {:induction false} YearsIncrease(a: int, b: int)
    requires a <= b
    ensures DaysBeforeYear(a) + 365 * (b - a) <= DaysBeforeYear(b) <= DaysBeforeYear(a) + 366 * (b - a)
    decreases b - a
  {
    if a < b {
      YearStep(a);
      YearsIncrease(a + 1, b);
    }
  }

  lemma YearIsUnique(n: int, y: int)
    requires DaysBeforeYear(y) <= n < DaysBeforeYear(y + 1)
    ensures YearOf(n) == y
  {}

  function DaysBeforeMonth(y: int, m: int): (d: int)
    requires 1 <= m <= 13
    ensures 0 <= d
  {
    if m == 1 then 0 else DaysBeforeMonth(y, m - 1) + DaysIn(y, m - 1)
  }

  lemma MonthsFillYear(y: int)
    ensures DaysBeforeMonth(y, 13) == YearLength(y)
  {
    var leap := if IsLeap(y) then 1 else 0;
    assert DaysBeforeMonth(y, 1) == 0;
    assert DaysBeforeMonth(y, 2) == 31;
    assert DaysBeforeMonth(y, 3) == 59 + leap;
    assert DaysBeforeMonth(y, 5) == 120 + leap;
    assert DaysBeforeMonth(y, 7) == 181 + leap;
    assert DaysBeforeMonth(y, 9) == 243 + leap;
    assert DaysBeforeMonth(y, 11) == 304 + leap;
  }

  lemma {:induction false} MonthsIncrease(y: int, a: int, b: int)
    requires 1 <= a <= b <= 13
    ensures DaysBeforeMonth(y, a) + 28 * (b - a) <= DaysBeforeMonth(y, b)
    decreases b - a
  {
    if a < b { MonthsIncrease(y, a, b - 1); }
  }

  function MonthFrom(y: int, k: int, m: int): (r: int)
    requires 1 <= m <= 12 && DaysBeforeMonth(y, m) <= k < YearLength(y)
    ensures 1 <= r <= 12 && DaysBeforeMonth(y, r) <= k < DaysBeforeMonth(y, r + 1)
    decreases 12 - m
  {
    MonthsFillYear(y);
    if k < DaysBeforeMonth(y, m + 1) then m else MonthFrom(y, k, m + 1)
  }

  datatype Date = Date(year: int, month: int, day: int)

  predicate ValidDate(d: Date) { 1 <= d.month <= 12 && 1 <= d.day <= DaysIn(d.year, d.month) }

  function DayNumber(d: Date): int
    requires 1 <= d.month <= 12
  {
    DaysBeforeYear(d.year) + DaysBeforeMonth(d.year, d.month) + d.day - 1
  }

  function DateOf(n: int): (d: Date)
    ensures ValidDate(d) && DayNumber(d) == n
  {
    var y := YearOf(n);
    YearStep(y);
    var k := n - DaysBeforeYear(y);
    var m := MonthFrom(y, k, 1);
    Date(y, m, k - DaysBeforeMonth(y, m) + 1)
  }

  lemma DayInsideYear(d: Date)
    requires ValidDate(d)
    ensures DaysBeforeYear(d.year) <= DayNumber(d) < DaysBeforeYear(d.year + 1)
  {
    YearStep(d.year);
    MonthsFillYear(d.year);
    MonthsIncrease(d.year, d.month + 1, 13);
  }

  lemma SameDay(a: Date, b: Date)
    requires ValidDate(a) && ValidDate(b) && DayNumber(a) == DayNumber(b)
    ensures a == b
  {
    DayInsideYear(a);
    DayInsideYear(b);
    YearIsUnique(DayNumber(a), a.year);
    YearIsUnique(DayNumber(b), b.year);
    YearStep(a.year);
    var k := DayNumber(a) - DaysBeforeYear(a.year);
    MonthIsUnique(a.year, k, a.month);
    MonthIsUnique(b.year, k, b.month);
  }

  /** Every valid date has its own day number. */
  lemma DateIsUnique(d: Date)
    requires ValidDate(d)
    ensures DateOf(DayNumber(d)) == d
  {
    SameDay(DateOf(DayNumber(d)), d);
  }

  lemma MonthIsUnique(y: int, k: int, m: int)
    requires 1 <= m <= 12 && DaysBeforeMonth(y, m) <= k < DaysBeforeMonth(y, m + 1) && k < YearLength(y)
    ensures MonthFrom(y, k, 1) == m
  {
    var z := MonthFrom(y, k, 1);
    if z < m { MonthsIncrease(y, z + 1, m); }
    if m < z { MonthsIncrease(y, m + 1, z); }
  }

  /** 0 is Sunday; the epoch is a Monday. */
  function Weekday(n: int): (w: int)
    ensures 0 <= w <= 6
  {
    (n + 1) % 7
  }

  /** Every weekday occurs among any seven consecutive days. */
  lemma WeekdayOccurs(n: int, w: int) returns (k: int)
    requires 0 <= w <= 6
    ensures 0 <= k <= 6 && Weekday(n + k) == w
  {
    k := (w - Weekday(n)) % 7;
  }

  /** The Unix epoch: 1 January 1970 is day 719162, a Thursday. */
  lemma UnixEpoch(d: Date)
    requires d == Date(1970, 1, 1)
    ensures DayNumber(d) == 719162 && Weekday(DayNumber(d)) == 4
  {
    assert DaysBeforeYear(d.year) == 719162;
    assert DaysBeforeMonth(d.year, d.month) == 0;
  }

  function ToCentury(y: int): (k: nat) { if y % 400 == 0 then 0 else 400 - y % 400 }

  lemma ToCenturyStep(y: int)
    requires y % 400 != 0
    ensures ToCentury(y + 1) == ToCentury(y) - 1
  {}

  /** The first leap year from y on. */
  function LeapFrom(y: int): (r: int)
    ensures y <= r && IsLeap(r) && forall z :: y <= z < r ==> !IsLeap(z)
    decreases ToCentury(y)
  {
    if IsLeap(y) then y
    else
      MultipleOf(y, 400, 100);
      MultipleOf(y, 100, 4);
      ToCenturyStep(y);
      LeapFrom(y + 1)
  }
}
