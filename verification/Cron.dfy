/** internal/pkg/cronexpr/cronexpr.go: the next run of a cron expression. Instants
    are nanoseconds since 1 January of year 1, UTC. */
module Cron {
  import opened Common
  import opened CronSchedule
  import opened CronParser
  import opened CronGrammar
  import opened Calendar
  import Text

  const MINUTE_NS := 60_000_000_000

  /** The run of a schedule after `now`. */
  function RunAfter(s: Schedule, now: int): Option<int> {
    var t := FirstMatch(s, now / MINUTE_NS + 1, SEARCH_LIMIT);
    if t == None then None else Some(t.value * MINUTE_NS)
  }

  function NextRun(now: int, expr: string): Option<int> {
    var s := ScheduleOf(expr);
    if s == None then None else RunAfter(s.value, now)
  }

  method NextAfter(now: int, expr: string) returns (r: Option<int>)
    ensures r == NextRun(now, expr)
  {
    var s := Parse(expr);
    if s == None { return None; }
    var t := Search(s.value, now / MINUTE_NS + 1);
    if t.Some? { return Some(t.value * MINUTE_NS); }
    return None;
  }

  /** No run at an instant after `now` and before `end`. */
  ghost predicate Quiet(s: Schedule, now: int, end: int) {
    forall u :: now < u * MINUTE_NS < end ==> !Matches(s, u)
  }

  lemma QuietMinutes(s: Schedule, now: int, m: int)
    requires forall u :: now / MINUTE_NS + 1 <= u < m ==> !Matches(s, u)
    ensures Quiet(s, now, m * MINUTE_NS)
  {}

  lemma MinuteAfter(now: int, m: int)
    ensures now / MINUTE_NS + 1 <= m <==> now < m * MINUTE_NS
  {}

  /** The end of the n minutes a search looks at. */
  function WindowEnd(now: int, n: nat): int { (now / MINUTE_NS + 1 + n) * MINUTE_NS }

  lemma MatchAfter(s: Schedule, now: int, n: nat)
    ensures match FirstMatch(s, now / MINUTE_NS + 1, n)
            case Some(m) => now < m * MINUTE_NS < WindowEnd(now, n) && Matches(s, m) && Quiet(s, now, m * MINUTE_NS)
            case None => Quiet(s, now, WindowEnd(now, n))
  {
    var c := now / MINUTE_NS + 1;
    FirstMatchIsLeast(s, c, n);
    match FirstMatch(s, c, n)
    case Some(m) =>
      QuietMinutes(s, now, m);
      MinuteAfter(now, m);
    case None =>
      QuietMinutes(s, now, c + n);
  }

  /** `r` is the first whole minute strictly after `now` that the schedule admits, and
      it lies in the search window; without one, the whole window is quiet. */
  ghost predicate IsFirstRun(r: Option<int>, s: Schedule, now: int) {
    match r
    case Some(i) =>
      now < i < WindowEnd(now, SEARCH_LIMIT) && i % MINUTE_NS == 0 && Matches(s, i / MINUTE_NS) && Quiet(s, now, i)
    case None => Quiet(s, now, WindowEnd(now, SEARCH_LIMIT))
  }

  lemma RunIsFirst(s: Schedule, now: int)
    ensures IsFirstRun(RunAfter(s, now), s, now)
  {
    var n: nat := SEARCH_LIMIT;
    MatchAfter(s, now, n);
    var t := FirstMatch(s, now / MINUTE_NS + 1, n);
    if t.Some? {
      WholeMinute(t.value);
      FoundIsFirst(s, now, t.value, t.value * MINUTE_NS, n);
    }
  }

  lemma WholeMinute(m: int)
    ensures m * MINUTE_NS / MINUTE_NS == m && m * MINUTE_NS % MINUTE_NS == 0
  {}

  lemma FoundIsFirst(s: Schedule, now: int, m: int, i: int, n: nat)
    requires n == SEARCH_LIMIT && now < i < WindowEnd(now, n) && i % MINUTE_NS == 0 && i / MINUTE_NS == m
    requires Matches(s, m) && Quiet(s, now, i)
    ensures IsFirstRun(Some(i), s, now)
  {}

  /** The two cases of IsFirstRun exclude each other, so the search fails exactly if the
      window is quiet. */
  lemma FailsIffQuiet(s: Schedule, now: int)
    ensures RunAfter(s, now) == None <==> Quiet(s, now, WindowEnd(now, SEARCH_LIMIT))
  {
    RunIsFirst(s, now);
    if RunAfter(s, now).Some? {
      var i := RunAfter(s, now).value;
      assert i / MINUTE_NS * MINUTE_NS == i;
    }
  }

  lemma NextRunIsFirst(now: int, expr: string, s: Schedule)
    requires ScheduleOf(expr) == Some(s)
    ensures IsFirstRun(NextRun(now, expr), s, now)
    ensures NextRun(now, expr) == None <==> Quiet(s, now, WindowEnd(now, SEARCH_LIMIT))
  {
    RunIsFirst(s, now);
    FailsIffQuiet(s, now);
  }

  lemma RunAfterExistsIff(s: Schedule, now: int)
    requires ScheduleOk(s)
    ensures RunAfter(s, now).Some? <==> Dependable(s) || (AdmitsLeapDay(s) && LeapDayInWindow(s, now / MINUTE_NS + 1))
  {
    RunExistsIff(s, now / MINUTE_NS + 1);
  }

  /** Every accepted expression has a next run unless it admits 29 February only
      and none is near, or no date at all. */
  lemma NextRunExistsIff(now: int, expr: string, s: Schedule)
    requires ScheduleOf(expr) == Some(s)
    ensures ScheduleOk(s)
    ensures NextRun(now, expr).Some?
            <==> Dependable(s) || (AdmitsLeapDay(s) && LeapDayInWindow(s, now / MINUTE_NS + 1))
  {
    AcceptedIsOk(expr);
    RunAfterExistsIff(s, now);
  }

  lemma RunIsStable(s: Schedule, now: int, later: int)
    requires RunAfter(s, now).Some? && now <= later < RunAfter(s, now).value
    ensures RunAfter(s, later) == RunAfter(s, now)
  {
    var c, n := now / MINUTE_NS + 1, SEARCH_LIMIT;
    MinuteAfter(later, FirstMatch(s, c, n).value);
    FirstMatchStable(s, c, later / MINUTE_NS + 1, n);
  }

  /** Asking again before the run is due gives the same run: none is skipped. */
  lemma NextRunIsStable(now: int, later: int, expr: string)
    requires NextRun(now, expr).Some? && now <= later < NextRun(now, expr).value
    ensures NextRun(later, expr) == NextRun(now, expr)
  {
    RunIsStable(ScheduleOf(expr).value, now, later);
  }

  /** A written expression runs when its meaning says. */
  lemma WrittenRuns(now: int, tree: Tree)
    requires TreeOk(tree)
    ensures ScheduleOf(ShowTree(tree)) == Some(Meaning(tree))
    ensures Dependable(Meaning(tree)) ==> NextRun(now, ShowTree(tree)).Some?
  {
    ReadTree(tree);
    NextRunExistsIff(now, ShowTree(tree), Meaning(tree));
  }

  // ------------------------------------------------------------ an expression that fails

  function Exactly(v: nat): FieldTree { Items([Plain(One(v))]) }

  /** Midnight of 29 February. */
  function LeapNight(): Tree { Tree(Exactly(0), Exactly(0), Exactly(29), Exactly(2), Anything) }

  lemma ShowExactly(v: nat)
    ensures ShowField(Exactly(v)) == Text.Itoa(v)
  {
    assert ShowItems([Plain(One(v))]) == [Text.Itoa(v)];
  }

  lemma LeapNightText()
    ensures ShowTree(LeapNight()) == "0 0 29 2 *"
  {
    ShowExactly(0);
    ShowExactly(29);
    ShowExactly(2);
    assert Text.Itoa(0) == "0" && Text.Itoa(2) == "2" && Text.Itoa(29) == "29";
    var w := ShowFields(LeapNight());
    assert w == ["0", "0", "29", "2", "*"];
    assert w[1..] == ["0", "29", "2", "*"] && w[1..][1..] == ["29", "2", "*"];
    assert w[1..][1..][1..] == ["2", "*"] && w[1..][1..][1..][1..] == ["*"];
    assert Text.Join(["2", "*"], ' ') == "2 *";
    assert Text.Join(["29", "2", "*"], ' ') == "29 2 *";
    assert Text.Join(["0", "29", "2", "*"], ' ') == "0 29 2 *";
  }

  lemma ExactlyMeans(v: nat, l: Limits)
    requires IsFieldLimits(l) && InLimits(v, l) && (v < 7 || !l.sunday)
    ensures FieldTreeOk(Exactly(v), l) && !FieldMeaning(Exactly(v), l).any
    ensures forall x :: x in FieldMeaning(Exactly(v), l).values ==> x == v
  {}

  lemma LeapNightMeans(expr: string) returns (s: Schedule)
    requires expr == ShowTree(LeapNight())
    ensures ScheduleOf(expr) == Some(s) && ScheduleOk(s) && !Dependable(s)
  {
    ExactlyMeans(0, MINUTE);
    ExactlyMeans(0, HOUR);
    ExactlyMeans(29, DAY);
    ExactlyMeans(2, MONTH);
    ReadTree(LeapNight());
    AcceptedIsOk(expr);
    s := Meaning(LeapNight());
    LeapNightIsRare(s);
  }

  lemma LeapNightIsRare(s: Schedule)
    requires !s.day.any && !s.month.any && s.week.any
    requires (forall x :: x in s.day.values ==> x == 29) && (forall x :: x in s.month.values ==> x == 2)
    ensures !Dependable(s)
  {}

  /** From midnight of the day after the last 29 February before a century that is no leap
      year, an expression that admits no other date has no next run. */
  lemma NothingAfterGap(expr: string, s: Schedule, y: int, now: int)
    requires ScheduleOf(expr) == Some(s) && ScheduleOk(s) && !Dependable(s)
    requires IsLeap(y) && !IsLeap(y + 4) && now == (LeapDay(y) + 1) * 1440 * MINUTE_NS
    ensures NextRun(now, expr) == None
  {
    NoRunAfterGap(s, y, LeapDay(y) + 1, now);
  }

  lemma SecondMinute(day: int)
    ensures (day * 1440 + 1) / 1440 == day
  {}

  lemma NoRunFrom(s: Schedule, now: int, c: int)
    requires now / MINUTE_NS + 1 == c && FirstMatch(s, c, SEARCH_LIMIT) == None
    ensures RunAfter(s, now) == None
  {}

  lemma NoMatchAfterGap(s: Schedule, y: int, c: int)
    requires ScheduleOk(s) && !Dependable(s) && IsLeap(y) && !IsLeap(y + 4) && c == (LeapDay(y) + 1) * 1440 + 1
    ensures FirstMatch(s, c, SEARCH_LIMIT) == None
  {
    SecondMinute(LeapDay(y) + 1);
    CenturyGap(s, y, c);
  }

  lemma NoRunAfterGap(s: Schedule, y: int, day: int, now: int)
    requires ScheduleOk(s) && !Dependable(s) && IsLeap(y) && !IsLeap(y + 4) && day == LeapDay(y) + 1
    requires now == day * 1440 * MINUTE_NS
    ensures RunAfter(s, now) == None
  {
    var c := day * 1440 + 1;
    assert now / MINUTE_NS + 1 == c by { WholeMinute(day * 1440); }
    NoMatchAfterGap(s, y, c);
    NoRunFrom(s, now, c);
  }

  /** 1 March 2096 is such a day. */
  lemma GapDay(d: Date)
    requires d == Date(2096, 3, 1)
    ensures IsLeap(d.year) && !IsLeap(d.year + 4) && DayNumber(d) == LeapDay(d.year) + 1 == 765243
  {
    assert DaysBeforeMonth(d.year, 1) == 0;
    assert DaysBeforeMonth(d.year, 2) == 31;
    assert DaysBeforeMonth(d.year, 3) == 60;
  }

  lemma NoLeapNightAfter2096(expr: string, y: int, now: int) returns (s: Schedule)
    requires expr == "0 0 29 2 *" && y == 2096 && now == (LeapDay(y) + 1) * 1440 * MINUTE_NS
    ensures ScheduleOf(expr) == Some(s) && NextRun(now, expr) == None
  {
    assert expr == ShowTree(LeapNight()) by { LeapNightText(); }
    s := LeapNightMeans(expr);
    assert IsLeap(y) && !IsLeap(y + 4) by { GapDay(Date(y, 3, 1)); }
    NothingAfterGap(expr, s, y, now);
  }
}
