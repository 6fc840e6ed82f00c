/** internal/pkg/cronexpr/cronexpr.go: when a parsed schedule matches, and the
    bounded minute-by-minute search for its next run. Times are minutes since the
    calendar's epoch. */
module CronSchedule {
  import opened Common
  import opened Calendar

  datatype Field = Field(any: bool, values: set<int>)

  datatype Schedule = Schedule(minute: Field, hour: Field, day: Field, month: Field, week: Field)

  const SEARCH_LIMIT := 5 * 366 * 24 * 60

  predicate Contains(f: Field, v: int) { f.any || v in f.values }

  predicate MatchesDay(s: Schedule, d: Date, weekday: int) {
    Contains(s.month, d.month) &&
    if s.day.any && s.week.any then true
    else if s.day.any then Contains(s.week, weekday)
    else if s.week.any then Contains(s.day, d.day)
    else Contains(s.day, d.day) || Contains(s.week, weekday)
  }

  predicate MatchesTime(s: Schedule, t: int) { Contains(s.minute, t % 60) && Contains(s.hour, t / 60 % 24) }

  predicate Matches(s: Schedule, t: int) {
    MatchesTime(s, t) && MatchesDay(s, DateOf(t / 1440), Weekday(t / 1440))
  }

  /** The first matching minute among the n minutes from c on. */
  function FirstMatch(s: Schedule, c: int, n: nat): Option<int>
    decreases n
  {
    if n == 0 then None
    else if Matches(s, c) then Some(c)
    else FirstMatch(s, c + 1, n - 1)
  }

  /** The search finds the least match in its window, or there is none. */
  lemma {:induction false} FirstMatchIsLeast(s: Schedule, c: int, n: nat)
    ensures match FirstMatch(s, c, n)
            case Some(t) => c <= t < c + n && Matches(s, t) && forall u :: c <= u < t ==> !Matches(s, u)
            case None => forall u :: c <= u < c + n ==> !Matches(s, u)
    decreases n
  {
    if n > 0 && !Matches(s, c) { FirstMatchIsLeast(s, c + 1, n - 1); }
  }

  lemma {:induction false} WiderWindow(s: Schedule, c: int, n: nat)
    requires FirstMatch(s, c, n).Some?
    ensures FirstMatch(s, c, n + 1) == FirstMatch(s, c, n)
    decreases n
  {
    if !Matches(s, c) { WiderWindow(s, c + 1, n - 1); }
  }

  /** A search that starts later, but not after the match, finds the same match. */
  lemma {:induction false} FirstMatchStable(s: Schedule, c: int, d: int, n: nat)
    requires FirstMatch(s, c, n).Some? && c <= d <= FirstMatch(s, c, n).value
    ensures FirstMatch(s, d, n) == FirstMatch(s, c, n)
    decreases d - c
  {
    if c < d {
      WiderWindow(s, c + 1, n - 1);
      FirstMatchStable(s, c + 1, d, n);
    }
  }

  /** The loop of NextAfter from the minute after the given one. */
  method Search(s: Schedule, start: int) returns (r: Option<int>)
    ensures r == FirstMatch(s, start, SEARCH_LIMIT)
  {
    var candidate, i := start, 0;
    while i < SEARCH_LIMIT
      invariant 0 <= i <= SEARCH_LIMIT && candidate == start + i
      invariant FirstMatch(s, candidate, SEARCH_LIMIT - i) == FirstMatch(s, start, SEARCH_LIMIT)
    {
      if Matches(s, candidate) { return Some(candidate); }
      candidate, i := candidate + 1, i + 1;
    }
    return None;
  }

  // --------------------------------------------------------- when a run is found

  ghost predicate FieldOk(f: Field, lo: int, hi: int) {
    f.any || (f.values != {} && forall v :: v in f.values ==> lo <= v <= hi)
  }

  /** What the parser guarantees of every schedule it accepts. */
  ghost predicate ScheduleOk(s: Schedule) {
    && FieldOk(s.minute, 0, 59) && FieldOk(s.hour, 0, 23) && FieldOk(s.day, 1, 31)
    && FieldOk(s.month, 1, 12) && FieldOk(s.week, 0, 6)
  }

  /** The least value a field admits. */
  ghost function First(f: Field, lo: int, hi: int): (v: int)
    requires FieldOk(f, lo, hi) && lo <= hi
    ensures lo <= v <= hi && Contains(f, v)
    ensures forall u :: lo <= u && Contains(f, u) ==> v <= u
  {
    if f.any then lo else Least(f.values)
  }

  /** The first minute of a day at which the schedule runs. */
  ghost function FirstTime(s: Schedule): (t: int)
    requires ScheduleOk(s)
    ensures 0 <= t < 1440 && MatchesTime(s, t)
  {
    First(s.hour, 0, 23) * 60 + First(s.minute, 0, 59)
  }

  predicate ClockUnit(k: int) { k == 24 || k == 60 || k == 1440 }

  lemma DivideBy(x: int, k: int, q: int, r: int)
    requires ClockUnit(k) && x == k * q + r && 0 <= r < k
    ensures x / k == q && x % k == r
  {}

  lemma Parts(x: int, k: int) returns (q: int, r: int)
    requires ClockUnit(k)
    ensures q == x / k && r == x % k && x == k * q + r && 0 <= r < k
  {
    q, r := x / k, x % k;
  }

  /** Minute t is minute m of hour h of day d. */
  lemma Clock(t: int, d: int, h: int, m: int)
    requires 0 <= h < 24 && 0 <= m < 60 && t == 1440 * d + 60 * h + m
    ensures t / 1440 == d && t % 1440 == 60 * h + m && t / 60 % 24 == h && t % 60 == m
  {
    DivideBy(t, 1440, d, 60 * h + m);
    DivideBy(t, 60, 24 * d + h, m);
    DivideBy(24 * d + h, 24, d, h);
  }

  lemma ReadClock(t: int) returns (d: int, h: int, m: int)
    ensures 0 <= h < 24 && 0 <= m < 60 && t == 1440 * d + 60 * h + m
  {
    var hours, minute := Parts(t, 60);
    var day, hour := Parts(hours, 24);
    d, h, m := day, hour, minute;
  }

  lemma FirstTimeIsLeast(s: Schedule, t: int)
    requires ScheduleOk(s) && MatchesTime(s, t)
    ensures FirstTime(s) <= t % 1440
  {
    var d, h, m := ReadClock(t);
    Clock(t, d, h, m);
    assert First(s.hour, 0, 23) <= h && First(s.minute, 0, 59) <= m;
  }

  lemma MinuteOfDay(s: Schedule, day: int, t: int)
    requires 0 <= t < 1440
    ensures (day * 1440 + t) / 1440 == day && MatchesTime(s, day * 1440 + t) == MatchesTime(s, t)
  {
    var h, m := Parts(t, 60);
    Clock(t, 0, h, m);
    Clock(day * 1440 + t, day, h, m);
  }

  /** Only the day of the month is restricted. */
  predicate ByDayOnly(s: Schedule) { s.week.any && !s.day.any }

  const COMMON_YEAR := 1

  /** Some admitted month has an admitted day in every year. */
  ghost predicate HasYearlyDay(s: Schedule) {
    exists m, d :: 1 <= m <= 12 && Contains(s.month, m) && Contains(s.day, d) && 1 <= d <= DaysIn(COMMON_YEAR, m)
  }

  ghost predicate Dependable(s: Schedule) { !ByDayOnly(s) || HasYearlyDay(s) }

  /** 29 February is admitted. */
  predicate AdmitsLeapDay(s: Schedule) { Contains(s.month, 2) && Contains(s.day, 29) }

  lemma DaysInCommonYear(y: int, m: int)
    ensures DaysIn(COMMON_YEAR, m) <= DaysIn(y, m)
    ensures DaysIn(y, m) == DaysIn(COMMON_YEAR, m) || (m == 2 && DaysIn(y, m) == 29 && IsLeap(y))
    ensures 28 <= DaysIn(COMMON_YEAR, m)
  {}

  /** A dependable schedule matches some day of every year. */
  lemma MatchingDay(s: Schedule, y: int) returns (d: Date)
    requires ScheduleOk(s) && Dependable(s)
    ensures d.year == y && ValidDate(d) && MatchesDay(s, d, Weekday(DayNumber(d)))
  {
    if ByDayOnly(s) {
      var m, day :| 1 <= m <= 12 && Contains(s.month, m) && Contains(s.day, day) && 1 <= day <= DaysIn(COMMON_YEAR, m);
      DaysInCommonYear(y, m);
      d := Date(y, m, day);
    } else {
      var m := First(s.month, 1, 12);
      DaysInCommonYear(y, m);
      d := Date(y, m, 1);
      if !s.week.any {
        var k := WeekdayOccurs(DayNumber(d), First(s.week, 0, 6));
        var e := Date(y, m, 1 + k);
        assert DayNumber(e) == DayNumber(d) + k;
        d := e;
      }
    }
  }

  /** Next year's matching day is at most 731 days away. */
  lemma NextYearIsNear(n: int, d: Date)
    requires ValidDate(d) && d.year == YearOf(n) + 1
    ensures n < DayNumber(d) <= n + 731
  {
    var y := YearOf(n);
    DayInsideYear(d);
    YearStep(y);
    YearStep(y + 1);
  }

  lemma MatchIsFound(s: Schedule, c: int, n: nat, t: int)
    requires c <= t < c + n && Matches(s, t)
    ensures FirstMatch(s, c, n).Some?
  {
    FirstMatchIsLeast(s, c, n);
  }

  lemma MatchingDayIsFound(s: Schedule, c: int, n: nat, day: int)
    requires ScheduleOk(s) && MatchesDay(s, DateOf(day), Weekday(day))
    requires c <= day * 1440 + FirstTime(s) < c + n
    ensures FirstMatch(s, c, n).Some?
  {
    MinuteOfDay(s, day, FirstTime(s));
    MatchIsFound(s, c, n, day * 1440 + FirstTime(s));
  }

  /** Every dependable schedule has a run in the search window, from any start. */
  lemma DependableRuns(s: Schedule, c: int)
    requires ScheduleOk(s) && Dependable(s)
    ensures FirstMatch(s, c, SEARCH_LIMIT).Some?
  {
    var today := c / 1440;
    var d := MatchingDay(s, YearOf(today) + 1);
    NextYearIsNear(today, d);
    DateIsUnique(d);
    MatchingDayIsFound(s, c, SEARCH_LIMIT, DayNumber(d));
  }

  /** A schedule that is not dependable matches on 29 February only. */
  lemma OnlyLeapDays(s: Schedule, t: int)
    requires !Dependable(s) && Matches(s, t)
    ensures var d := DateOf(t / 1440); AdmitsLeapDay(s) && IsLeap(d.year) && d.month == 2 && d.day == 29
  {
    var d := DateOf(t / 1440);
    DaysInCommonYear(d.year, d.month);
  }

  /** The day number of 29 February, in a leap year. */
  function LeapDay(y: int): int { DaysBeforeYear(y) + 59 }

  lemma LeapDayInsideYear(y: int)
    ensures DaysBeforeYear(y) <= LeapDay(y) < DaysBeforeYear(y + 1)
  {}

  lemma LeapDayIsDate(y: int)
    requires IsLeap(y)
    ensures DateOf(LeapDay(y)) == Date(y, 2, 29)
  {
    var d := Date(y, 2, 29);
    assert DaysBeforeMonth(y, 1) == 0;
    assert DaysBeforeMonth(y, 2) == 31;
    assert DayNumber(d) == LeapDay(y);
    DateIsUnique(d);
  }

  lemma LeapDayOfDate(n: int)
    requires DateOf(n).month == 2 && DateOf(n).day == 29
    ensures LeapDay(DateOf(n).year) == n
  {
    var y := DateOf(n).year;
    assert DaysBeforeMonth(y, 1) == 0;
    assert DaysBeforeMonth(y, 2) == 31;
    assert DayNumber(DateOf(n)) == n;
  }

  /** The year of the first 29 February after day n. */
  ghost function NextLeapYear(n: int): (z: int)
    ensures IsLeap(z) && LeapDay(z) > n
  {
    var y := YearOf(n);
    if IsLeap(y) && n < LeapDay(y) then y
    else
      var z := LeapFrom(y + 1);
      YearsIncrease(y + 1, z);
      z
  }

  /** No 29 February lies between a day and its next one. */
  lemma NextLeapYearIsNext(n: int, y: int)
    requires IsLeap(y) && LeapDay(y) > n
    ensures NextLeapYear(n) <= y
  {
    var now := YearOf(n);
    LeapDayInsideYear(y);
    if y < now { YearsIncrease(y + 1, now); }
  }

  /** The first 29 February after day n. */
  ghost function NextLeapDay(n: int): (r: int)
    ensures r > n
  {
    LeapDay(NextLeapYear(n))
  }

  lemma NextLeapDayIsNext(n: int, y: int)
    requires IsLeap(y) && LeapDay(y) > n
    ensures NextLeapDay(n) <= LeapDay(y)
  {
    NextLeapYearIsNext(n, y);
    YearsIncrease(NextLeapYear(n), y);
  }

  /** The start falls on a 29 February and the schedule still runs on that day. */
  ghost predicate RunsLaterToday(s: Schedule, c: int) {
    var d := DateOf(c / 1440);
    d.month == 2 && d.day == 29 && exists t :: c <= t < (c / 1440 + 1) * 1440 && MatchesTime(s, t)
  }

  ghost predicate LeapDayInWindow(s: Schedule, c: int)
    requires ScheduleOk(s)
  {
    RunsLaterToday(s, c) || NextLeapDay(c / 1440) * 1440 + FirstTime(s) < c + SEARCH_LIMIT
  }

  lemma LeapDayMatches(s: Schedule, day: int)
    requires AdmitsLeapDay(s) && ByDayOnly(s) && DateOf(day).month == 2 && DateOf(day).day == 29
    ensures MatchesDay(s, DateOf(day), Weekday(day))
  {}

  lemma LaterTodayRuns(s: Schedule, c: int, n: nat)
    requires ByDayOnly(s) && AdmitsLeapDay(s) && RunsLaterToday(s, c) && n >= 1440
    ensures FirstMatch(s, c, n).Some?
  {
    var t :| c <= t < (c / 1440 + 1) * 1440 && MatchesTime(s, t);
    assert t / 1440 == c / 1440;
    LeapDayMatches(s, c / 1440);
    MatchIsFound(s, c, n, t);
  }

  lemma LeapDayRuns(s: Schedule, c: int)
    requires ScheduleOk(s) && ByDayOnly(s) && AdmitsLeapDay(s) && LeapDayInWindow(s, c)
    ensures FirstMatch(s, c, SEARCH_LIMIT).Some?
  {
    if RunsLaterToday(s, c) {
      LaterTodayRuns(s, c, SEARCH_LIMIT);
    } else {
      var day := NextLeapDay(c / 1440);
      LeapDayIsDate(NextLeapYear(c / 1440));
      LeapDayMatches(s, day);
      MatchingDayIsFound(s, c, SEARCH_LIMIT, day);
    }
  }

  lemma LeapDayRunIsInWindow(s: Schedule, c: int, t: int)
    requires ScheduleOk(s) && !Dependable(s) && Matches(s, t) && c <= t < c + SEARCH_LIMIT
    ensures AdmitsLeapDay(s) && LeapDayInWindow(s, c)
  {
    OnlyLeapDays(s, t);
    var today, day := c / 1440, t / 1440;
    if day == today {
      assert c <= t < (today + 1) * 1440;
      assert RunsLaterToday(s, c);
    } else {
      var d := DateOf(day);
      LeapDayOfDate(day);
      NextLeapDayIsNext(today, d.year);
      FirstTimeIsLeast(s, t);
    }
  }

  /** Exactly when the search finds a run: always for a dependable schedule, never
      for one that admits no existing date, and for a 29-February schedule exactly
      if the next such day begins its first run inside the window. */
  lemma RunExistsIff(s: Schedule, c: int)
    requires ScheduleOk(s)
    ensures FirstMatch(s, c, SEARCH_LIMIT).Some? <==> Dependable(s) || (AdmitsLeapDay(s) && LeapDayInWindow(s, c))
  {
    if Dependable(s) {
      DependableRuns(s, c);
    } else {
      FirstMatchIsLeast(s, c, SEARCH_LIMIT);
      if FirstMatch(s, c, SEARCH_LIMIT).Some? {
        LeapDayRunIsInWindow(s, c, FirstMatch(s, c, SEARCH_LIMIT).value);
      } else if AdmitsLeapDay(s) && LeapDayInWindow(s, c) {
        LeapDayRuns(s, c);
      }
    }
  }

  /** Unless a century interrupts the four-year rhythm, 29 February is found too. */
  lemma LeapDayNearby(s: Schedule, c: int, y: int)
    requires ScheduleOk(s) && ByDayOnly(s) && AdmitsLeapDay(s)
    requires IsLeap(y) && YearOf(c / 1440) < y <= YearOf(c / 1440) + 4
    ensures FirstMatch(s, c, SEARCH_LIMIT).Some?
  {
    var today := c / 1440;
    YearsIncrease(YearOf(today), y);
    YearsIncrease(YearOf(today) + 1, y);
    NextLeapDayIsNext(today, y);
    assert NextLeapDay(today) <= today + 1523;
    LeapDayRuns(s, c);
  }

  /** After the last leap day before such a century the search gives up: the next
      29 February is eight years away. */
  lemma CenturyGap(s: Schedule, y: int, c: int)
    requires ScheduleOk(s) && !Dependable(s)
    requires IsLeap(y) && !IsLeap(y + 4) && c / 1440 == LeapDay(y) + 1
    ensures FirstMatch(s, c, SEARCH_LIMIT) == None
  {
    FirstMatchIsLeast(s, c, SEARCH_LIMIT);
    forall t | c <= t < c + SEARCH_LIMIT ensures !Matches(s, t) {
      if Matches(s, t) {
        OnlyLeapDays(s, t);
        var d := DateOf(t / 1440);
        LeapDayOfDate(t / 1440);
        NoLeapForEight(y, d.year);
        if d.year <= y { YearsIncrease(d.year, y); } else { YearsIncrease(y, d.year); }
      }
    }
  }

  lemma NoLeapForEight(y: int, z: int)
    requires IsLeap(y) && !IsLeap(y + 4) && IsLeap(z)
    ensures z <= y || z >= y + 8
  {
    FourApart(y, z);
  }

  lemma FourApart(y: int, z: int)
    requires y % 4 == 0 && z % 4 == 0
    ensures y < z < y + 8 ==> z == y + 4
  {
    assert y == 4 * (y / 4) && z == 4 * (z / 4);
  }
}
