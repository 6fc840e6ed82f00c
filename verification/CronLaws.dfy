/** What a cron schedule means, as laws between schedules: how the fields combine, what a
    single value admits, and which values each field accepts. */
module CronLaws {
  import opened Common
  import opened Calendar
  import opened CronSchedule
  import opened CronParser
  import opened CronGrammar
  import opened Cron
  import Text

  const ANY := Field(true, {})

  /** Every minute. */
  const ALWAYS := Schedule(ANY, ANY, ANY, ANY, ANY)

  function Only(values: set<int>): Field { Field(false, values) }

  /** The schedule admits this minute, hour, date and weekday. */
  ghost predicate Admits(s: Schedule, m: int, h: int, d: Date, w: int) {
    Contains(s.minute, m) && Contains(s.hour, h) && MatchesDay(s, d, w)
  }

  lemma MatchesIs(s: Schedule, t: int)
    ensures Matches(s, t) <==> Admits(s, t % 60, t / 60 % 24, DateOf(t / 1440), Weekday(t / 1440))
  {}

  // ------------------------------------------------------------------- combination

  /** Minute, hour, month and the two day fields each have to agree. */
  lemma FieldsAgree(s: Schedule, t: int)
    ensures Matches(s, t) <==>
              && Matches(ALWAYS.(minute := s.minute), t) && Matches(ALWAYS.(hour := s.hour), t)
              && Matches(ALWAYS.(month := s.month), t) && Matches(ALWAYS.(day := s.day, week := s.week), t)
  {}

  /** If both day fields are restricted, either suffices. */
  lemma EitherDay(s: Schedule, t: int)
    requires !s.day.any && !s.week.any
    ensures Matches(s, t) <==> Matches(s.(week := ANY), t) || Matches(s.(day := ANY), t)
  {}

  /** A field admits what its values admit one by one. */
  lemma ValuesAdd(s: Schedule, a: set<int>, b: set<int>, t: int)
    ensures Matches(s.(minute := Only(a + b)), t) <==> Matches(s.(minute := Only(a)), t) || Matches(s.(minute := Only(b)), t)
    ensures Matches(s.(hour := Only(a + b)), t) <==> Matches(s.(hour := Only(a)), t) || Matches(s.(hour := Only(b)), t)
    ensures Matches(s.(day := Only(a + b)), t) <==> Matches(s.(day := Only(a)), t) || Matches(s.(day := Only(b)), t)
    ensures Matches(s.(month := Only(a + b)), t) <==> Matches(s.(month := Only(a)), t) || Matches(s.(month := Only(b)), t)
    ensures Matches(s.(week := Only(a + b)), t) <==> Matches(s.(week := Only(a)), t) || Matches(s.(week := Only(b)), t)
  {
    AddsUp(s.(minute := Only(a + b)), s.(minute := Only(a)), s.(minute := Only(b)), a, b, t);
    AddsUp(s.(hour := Only(a + b)), s.(hour := Only(a)), s.(hour := Only(b)), a, b, t);
    AddsUp(s.(day := Only(a + b)), s.(day := Only(a)), s.(day := Only(b)), a, b, t);
    AddsUp(s.(month := Only(a + b)), s.(month := Only(a)), s.(month := Only(b)), a, b, t);
    AddsUp(s.(week := Only(a + b)), s.(week := Only(a)), s.(week := Only(b)), a, b, t);
  }

  /** One field of u holds what the same field of x and of y hold together. */
  ghost predicate DifferInOne(u: Schedule, x: Schedule, y: Schedule, a: set<int>, b: set<int>) {
    || (u.minute == Only(a + b) && x == u.(minute := Only(a)) && y == u.(minute := Only(b)))
    || (u.hour == Only(a + b) && x == u.(hour := Only(a)) && y == u.(hour := Only(b)))
    || (u.day == Only(a + b) && x == u.(day := Only(a)) && y == u.(day := Only(b)))
    || (u.month == Only(a + b) && x == u.(month := Only(a)) && y == u.(month := Only(b)))
    || (u.week == Only(a + b) && x == u.(week := Only(a)) && y == u.(week := Only(b)))
  }

  lemma AdmitsAdds(u: Schedule, x: Schedule, y: Schedule, a: set<int>, b: set<int>, m: int, h: int, d: Date, w: int)
    requires DifferInOne(u, x, y, a, b)
    ensures Admits(u, m, h, d, w) <==> Admits(x, m, h, d, w) || Admits(y, m, h, d, w)
  {}

  lemma AddsUp(u: Schedule, x: Schedule, y: Schedule, a: set<int>, b: set<int>, t: int)
    requires DifferInOne(u, x, y, a, b)
    ensures Matches(u, t) <==> Matches(x, t) || Matches(y, t)
  {
    MatchesIs(u, t);
    MatchesIs(x, t);
    MatchesIs(y, t);
    AdmitsAdds(u, x, y, a, b, t % 60, t / 60 % 24, DateOf(t / 1440), Weekday(t / 1440));
  }

  /** A single value admits exactly the minutes whose part of the clock or of the date it
      is; an unrestricted schedule admits every minute. */
  lemma OneValueMatches(v: int, t: int, day: int, h: int, m: int)
    requires 0 <= h < 24 && 0 <= m < 60 && t == 1440 * day + 60 * h + m
    ensures Matches(ALWAYS, t)
    ensures Matches(ALWAYS.(minute := Only({v})), t) <==> m == v
    ensures Matches(ALWAYS.(hour := Only({v})), t) <==> h == v
    ensures Matches(ALWAYS.(day := Only({v})), t) <==> DateOf(day).day == v
    ensures Matches(ALWAYS.(month := Only({v})), t) <==> DateOf(day).month == v
    ensures Matches(ALWAYS.(week := Only({v})), t) <==> Weekday(day) == v
  {
    Clock(t, day, h, m);
  }

  /** A day after one weekday comes the next, Sunday after Saturday. */
  lemma NextWeekday(n: int)
    ensures Weekday(n + 1) == if Weekday(n) == 6 then 0 else Weekday(n) + 1
  {
    var q, r := (n + 1) / 7, (n + 1) % 7;
    assert n + 1 == 7 * q + r;
    if r == 6 { SevenDays(n + 2, q + 1, 0); } else { SevenDays(n + 2, q, r + 1); }
  }

  lemma SevenDays(x: int, q: int, r: int)
    requires x == 7 * q + r && 0 <= r < 7
    ensures x % 7 == r
  {}

  /** The first days of the months of a year that is no leap year. */
  lemma MonthStarts(y: int)
    requires y == 1970
    ensures forall m :: 1 <= m <= 12 ==>
              DayNumber(Date(y, m, 1)) == 719162 + [0, 31, 59, 90, 120, 151, 181, 212, 243, 273, 304, 334][m - 1]
  {
    UnixEpoch(Date(y, 1, 1));
    assert !IsLeap(y);
    assert DaysBeforeMonth(y, 1) == 0;
    assert DaysBeforeMonth(y, 2) == 31;
    assert DaysBeforeMonth(y, 3) == 59;
    assert DaysBeforeMonth(y, 4) == 90;
    assert DaysBeforeMonth(y, 5) == 120;
    assert DaysBeforeMonth(y, 6) == 151;
    assert DaysBeforeMonth(y, 7) == 181;
    assert DaysBeforeMonth(y, 8) == 212;
    assert DaysBeforeMonth(y, 9) == 243;
    assert DaysBeforeMonth(y, 10) == 273;
    assert DaysBeforeMonth(y, 11) == 304;
    assert DaysBeforeMonth(y, 12) == 334;
  }

  // ---------------------------------------------------------------- the earlier run

  function Earlier(a: Option<int>, b: Option<int>): Option<int> {
    if a == None then b else if b == None || a.value <= b.value then a else b
  }

  lemma {:induction false} FoundLater(s: Schedule, c: int, n: nat)
    ensures FirstMatch(s, c, n).Some? ==> FirstMatch(s, c, n).value >= c
    decreases n
  {
    if n > 0 && !Matches(s, c) { FoundLater(s, c + 1, n - 1); }
  }

  /** At every minute s matches exactly if a or b does. */
  ghost predicate IsEither(s: Schedule, a: Schedule, b: Schedule) {
    forall t :: Matches(s, t) <==> Matches(a, t) || Matches(b, t)
  }

  lemma {:induction false} FirstOfEither(s: Schedule, a: Schedule, b: Schedule, c: int, n: nat)
    requires IsEither(s, a, b)
    ensures FirstMatch(s, c, n) == Earlier(FirstMatch(a, c, n), FirstMatch(b, c, n))
    decreases n
  {
    if n > 0 {
      FirstOfEither(s, a, b, c + 1, n - 1);
      EitherStep(s, a, b, c, n);
    }
  }

  lemma EitherStep(s: Schedule, a: Schedule, b: Schedule, c: int, n: nat)
    requires n > 0 && (Matches(s, c) <==> Matches(a, c) || Matches(b, c))
    requires FirstMatch(s, c + 1, n - 1) == Earlier(FirstMatch(a, c + 1, n - 1), FirstMatch(b, c + 1, n - 1))
    ensures FirstMatch(s, c, n) == Earlier(FirstMatch(a, c, n), FirstMatch(b, c, n))
  {
    FoundLater(a, c + 1, n - 1);
    FoundLater(b, c + 1, n - 1);
  }

  lemma EarlierScales(a: Option<int>, b: Option<int>, e: Option<int>)
    requires e == Earlier(a, b)
    ensures Scaled(e) == Earlier(Scaled(a), Scaled(b))
  {}

  function Scaled(o: Option<int>): Option<int> { if o == None then None else Some(o.value * MINUTE_NS) }

  /** With both day fields restricted, the next run is the earlier of the next run on a
      day of the month and the next run on a weekday. */
  lemma EarlierDayRuns(s: Schedule, now: int)
    requires !s.day.any && !s.week.any
    ensures RunAfter(s, now) == Earlier(RunAfter(s.(week := ANY), now), RunAfter(s.(day := ANY), now))
  {
    var c, n: nat, a, b := now / MINUTE_NS + 1, SEARCH_LIMIT, s.(week := ANY), s.(day := ANY);
    assert IsEither(s, a, b) by { forall t ensures Matches(s, t) <==> Matches(a, t) || Matches(b, t) { EitherDay(s, t); } }
    FirstOfEither(s, a, b, c, n);
    EarlierScales(FirstMatch(a, c, n), FirstMatch(b, c, n), FirstMatch(s, c, n));
  }

  // ------------------------------------------------------------------- the values

  lemma OneValue(v: nat, l: Limits)
    requires IsFieldLimits(l)
    ensures FieldOf(Text.Itoa(v), l) == if InLimits(v, l) then Some(Only({Norm(v, l)})) else None
  {
    var text := Text.Itoa(v);
    NoSeparator(v, ',');
    NoSeparator(v, '/');
    NoSeparator(v, '-');
    TrimOfWord(text);
    Text.AtoiOfItoa(v);
    assert text[0] != '*';
    assert Text.Split(text, ',') == [text] by { Text.SplitJoin([text], ','); }
    assert ListValues([text], l) == if InLimits(v, l) then Some({Norm(v, l)}) else None by { OneSegment(text, v, l); }
  }

  lemma OneSegment(text: string, v: nat, l: Limits)
    requires IsFieldLimits(l) && text != "" && Text.TrimSpace(text) == text && '/' !in text && '-' !in text && text[0] != '*'
    requires Text.Atoi(text) == if v <= MAX_INT64 then Some(v) else None
    ensures ListValues([text], l) == if InLimits(v, l) then Some({Norm(v, l)}) else None
  {
    if InLimits(v, l) {
      assert Value(text, l) == Some(v) && RangeOf(text, l) == Some(Span(v, v));
      assert Stepped(Span(v, v), 1, l) == {Norm(v, l)} by { assert OnStep(v, v, 1); }
      assert {Norm(v, l)} + {} == {Norm(v, l)};
    }
  }

  /** Exactly the minutes 0 to 59, the hours 0 to 23, the days 1 to 31, the months 1 to 12
      and the weekdays 0 to 7 are accepted, and 7 is Sunday as 0 is. */
  lemma AcceptedValues(v: nat)
    ensures FieldOf(Text.Itoa(v), MINUTE) == if v <= 59 then Some(Only({v})) else None
    ensures FieldOf(Text.Itoa(v), HOUR) == if v <= 23 then Some(Only({v})) else None
    ensures FieldOf(Text.Itoa(v), DAY) == if 1 <= v <= 31 then Some(Only({v})) else None
    ensures FieldOf(Text.Itoa(v), MONTH) == if 1 <= v <= 12 then Some(Only({v})) else None
    ensures FieldOf(Text.Itoa(v), WEEK) == if v <= 6 then Some(Only({v})) else if v == 7 then Some(Only({0})) else None
  {
    OneValue(v, MINUTE);
    OneValue(v, HOUR);
    OneValue(v, DAY);
    OneValue(v, MONTH);
    OneValue(v, WEEK);
  }

  /** A range admits every value from its first to its last. */
  lemma RangeValues(a: nat, b: nat, l: Limits)
    requires IsFieldLimits(l) && IsSpan(Span(a, b), l)
    ensures FieldOf(Text.Itoa(a) + "-" + Text.Itoa(b), l) == Some(Only(set v | a <= v <= b :: Norm(v, l)))
  {
    var items := [Plain(FromTo(a, b))];
    assert ShowItems(items) == [Text.Itoa(a) + "-" + Text.Itoa(b)];
    ReadField(Items(items), l);
    assert Union(items, l) == SegmentMeaning(items[0], l);
    assert SegmentMeaning(items[0], l) == set v | a <= v <= b :: Norm(v, l) by {
      forall v | a <= v <= b ensures OnStep(v, a, 1) {}
    }
  }

  // ---------------------------------------------------------- the 15th or a Monday

  function Midmonth(): Tree { Tree(Exactly(0), Exactly(0), Exactly(15), Anything, Exactly(1)) }

  lemma MidmonthText()
    ensures ShowTree(Midmonth()) == "0 0 15 * 1"
  {
    ShowExactly(0);
    ShowExactly(15);
    ShowExactly(1);
    assert Text.Itoa(0) == "0" && Text.Itoa(1) == "1" && Text.Itoa(15) == "15";
    var w := ShowFields(Midmonth());
    assert w == ["0", "0", "15", "*", "1"];
    assert w[1..] == ["0", "15", "*", "1"] && w[1..][1..] == ["15", "*", "1"];
    assert w[1..][1..][1..] == ["*", "1"] && w[1..][1..][1..][1..] == ["1"];
    assert Text.Join(["*", "1"], ' ') == "* 1";
    assert Text.Join(["15", "*", "1"], ' ') == "15 * 1";
    assert Text.Join(["0", "15", "*", "1"], ' ') == "0 15 * 1";
  }

  lemma ExactlyIs(v: nat, l: Limits)
    requires IsFieldLimits(l) && InLimits(v, l) && (v < 7 || !l.sunday)
    ensures FieldTreeOk(Exactly(v), l) && FieldMeaning(Exactly(v), l) == Only({v})
  {
    ShowExactly(v);
    ReadField(Exactly(v), l);
    OneValue(v, l);
  }

  const MIDMONTH := Schedule(Only({0}), Only({0}), Only({15}), ANY, Only({1}))

  lemma MidmonthMeans(expr: string)
    requires expr == "0 0 15 * 1"
    ensures ScheduleOf(expr) == Some(MIDMONTH)
  {
    MidmonthText();
    ExactlyIs(0, MINUTE);
    ExactlyIs(0, HOUR);
    ExactlyIs(15, DAY);
    ExactlyIs(1, WEEK);
    ReadTree(Midmonth());
  }

  lemma JanuaryDay(y: int, k: int)
    requires y == 1970 && 1 <= k <= 31
    ensures DateOf(719161 + k) == Date(y, 1, k)
  {
    var d := Date(y, 1, k);
    UnixEpoch(Date(y, 1, 1));
    assert DaysBeforeMonth(y, 1) == 0;
    DateIsUnique(d);
  }

  lemma MidJanuary(day: int, k: int)
    requires 13 <= k <= 15 && day == 719161 + k
    ensures DateOf(day) == Date(1970, 1, k) && Weekday(day) == k - 11
  {
    JanuaryDay(1970, k);
    SevenDays(day + 1, 102739, k - 11);
  }

  lemma DayDecides(s: Schedule, t: int, day: int, d: Date, w: int)
    requires t / 1440 == day && DateOf(day) == d && Weekday(day) == w && !MatchesDay(s, d, w)
    ensures !Matches(s, t)
  {}

  lemma {:induction false} SkipMinutes(s: Schedule, c: int, k: nat, n: nat)
    requires k <= n && forall u :: c <= u < c + k ==> !Matches(s, u)
    ensures FirstMatch(s, c, n) == FirstMatch(s, c + k, n - k)
    decreases k
  {
    if k > 0 { SkipMinutes(s, c + 1, k - 1, n - 1); }
  }

  /** A day that does not match is passed over. */
  lemma SkipDay(s: Schedule, c: int, day: int, d: Date, w: int, k: nat, n: nat)
    requires day * 1440 <= c && c + k == (day + 1) * 1440 && k <= n
    requires DateOf(day) == d && Weekday(day) == w && !MatchesDay(s, d, w)
    ensures FirstMatch(s, c, n) == FirstMatch(s, c + k, n - k)
  {
    forall u | c <= u < c + k ensures !Matches(s, u) {
      DivideBy(u, 1440, day, u - day * 1440);
      DayDecides(s, u, day, d, w);
    }
    SkipMinutes(s, c, k, n);
  }

  lemma FoundAtMidnight(day: int, n: nat)
    requires DateOf(day).day == 15 && n > 0
    ensures FirstMatch(MIDMONTH, day * 1440, n) == Some(day * 1440)
  {
    Clock(day * 1440, day, 0, 0);
  }

  lemma NotThe15th(d: Date, w: int)
    requires d.day != 15 && w != 1
    ensures !MatchesDay(MIDMONTH, d, w)
  {}

  lemma SkipOther(day: int, d: Date, w: int, c: int, k: nat, n: nat)
    requires DateOf(day) == d && Weekday(day) == w && d.day != 15 && w != 1
    requires day * 1440 <= c && c + k == (day + 1) * 1440 && k <= n
    ensures FirstMatch(MIDMONTH, c, n) == FirstMatch(MIDMONTH, c + k, n - k)
  {
    NotThe15th(d, w);
    SkipDay(MIDMONTH, c, day, d, w, k, n);
  }

  lemma OtherDay(day: int, k: int) returns (d: Date, w: int)
    requires 13 <= k <= 14 && day == 719161 + k
    ensures DateOf(day) == d && Weekday(day) == w && d.day != 15 && w != 1
  {
    MidJanuary(day, k);
    d, w := DateOf(day), Weekday(day);
  }

  lemma SkipMid(day: int, k: int, c: int, skip: nat, n: nat)
    requires 13 <= k <= 14 && day == 719161 + k
    requires day * 1440 <= c && c + skip == (day + 1) * 1440 && skip <= n
    ensures FirstMatch(MIDMONTH, c, n) == FirstMatch(MIDMONTH, c + skip, n - skip)
  {
    var d, w := OtherDay(day, k);
    SkipOther(day, d, w, c, skip, n);
  }

  lemma FoundOnThe15th(day: int, n: nat)
    requires day == 719174 && n > 2879
    ensures FirstMatch(MIDMONTH, day * 1440 + 1, n) == Some((day + 2) * 1440)
  {
    SkipMid(day, 13, day * 1440 + 1, 1439, n);
    SkipMid(day + 1, 14, (day + 1) * 1440, 1440, n - 1439);
    assert DateOf(day + 2).day == 15 by { MidJanuary(day + 2, 15); }
    FoundAtMidnight(day + 2, n - 2879);
  }

  lemma FoundByRun(s: Schedule, now: int, c: int, t: int, expr: string)
    requires ScheduleOf(expr) == Some(s) && now / MINUTE_NS + 1 == c && FirstMatch(s, c, SEARCH_LIMIT) == Some(t)
    ensures NextRun(now, expr) == Some(t * MINUTE_NS)
  {}

  /** Asked on Tuesday, 13 January 1970, for the 15th or a Monday: Thursday the 15th. */
  lemma FifteenthBeforeMonday(expr: string, day: int, now: int)
    requires expr == "0 0 15 * 1" && day == 719174 && now == day * 1440 * MINUTE_NS
    ensures NextRun(now, expr) == Some((day + 2) * 1440 * MINUTE_NS)
  {
    MidmonthMeans(expr);
    WholeMinute(day * 1440);
    FoundOnThe15th(day, SEARCH_LIMIT);
    FoundByRun(MIDMONTH, now, day * 1440 + 1, (day + 2) * 1440, expr);
  }
}
