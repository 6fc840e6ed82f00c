/** internal/pkg/cronexpr/cronexpr.go: which five-field expressions are accepted
    and the values they stand for. */
module CronParser {
  import opened Common
  import opened Text
  import opened CronSchedule

  /** The values a field may hold; a week field also takes 7 for Sunday. */
  datatype Limits = Limits(lo: int, hi: int, sunday: bool)

  const MINUTE := Limits(0, 59, false)
  const HOUR := Limits(0, 23, false)
  const DAY := Limits(1, 31, false)
  const MONTH := Limits(1, 12, false)
  const WEEK := Limits(0, 6, true)

  /** What the limits of the five fields have in common. */
  predicate IsFieldLimits(l: Limits) { 0 <= l.lo <= l.hi < 60 && (l.sunday ==> l.lo == 0 && l.hi == 6) }

  datatype Span = Span(first: int, last: int)

  function Norm(v: int, l: Limits): int { if l.sunday && v == 7 then 0 else v }

  predicate InLimits(v: int, l: Limits) { l.lo <= Norm(v, l) <= l.hi }

  function Value(text: string, l: Limits): (r: Option<int>)
    ensures r.Some? ==> InLimits(r.value, l)
  {
    var v := Atoi(text);
    if v.Some? && InLimits(v.value, l) then v else None
  }

  predicate IsSpan(r: Span, l: Limits) { InLimits(r.first, l) && InLimits(r.last, l) && r.first <= r.last }

  function RangeOf(base: string, l: Limits): (r: Option<Span>)
    requires IsFieldLimits(l)
    ensures r.Some? ==> IsSpan(r.value, l)
  {
    if base == "*" then Some(Span(l.lo, l.hi))
    else if '-' in base then
      var parts := Split(base, '-');
      if |parts| != 2 then None
      else
        var first, last := Value(parts[0], l), Value(parts[1], l);
        if first.Some? && last.Some? && first.value <= last.value then Some(Span(first.value, last.value)) else None
    else
      var v := Value(base, l);
      if v.Some? then Some(Span(v.value, v.value)) else None
  }

  /** The base of a segment and its step, 1 if none is written. */
  function StepOf(segment: string): (r: Option<(string, int)>)
    ensures r.Some? ==> 1 <= r.value.1 <= MAX_INT64
  {
    if '/' in segment then
      var parts := Split(segment, '/');
      if |parts| != 2 then None
      else
        var step := Atoi(parts[1]);
        if step.Some? && step.value > 0 then Some((parts[0], step.value)) else None
    else Some((segment, 1))
  }

  predicate OnStep(v: int, first: int, step: int)
    requires step > 0
  {
    first <= v && (v - first) % step == 0
  }

  /** Every step-th value of a span, Sunday folded to 0. */
  function Stepped(r: Span, step: int, l: Limits): set<int>
    requires step > 0
  {
    set v | r.first <= v <= r.last && OnStep(v, r.first, step) :: Norm(v, l)
  }

  /** A segment's values. A step that carries the first value past the 64-bit
      range wraps to a negative value, which is out of range. */
  function SegmentValues(segment: string, l: Limits): Option<set<int>>
    requires IsFieldLimits(l)
  {
    var s := StepOf(segment);
    if s == None then None
    else
      var span := RangeOf(s.value.0, l);
      if span == None || span.value.first + s.value.1 > MAX_INT64 then None
      else Some(Stepped(span.value, s.value.1, l))
  }

  function With(values: set<int>, more: Option<set<int>>): Option<set<int>> {
    if more == None then None else Some(values + more.value)
  }

  function PartValues(part: string, l: Limits): Option<set<int>>
    requires IsFieldLimits(l)
  {
    var p := TrimSpace(part);
    if p == "" then None else SegmentValues(p, l)
  }

  /** The values of a comma-separated list, if every segment is acceptable. */
  function ListValues(parts: seq<string>, l: Limits): Option<set<int>>
    requires IsFieldLimits(l)
  {
    if parts == [] then Some({})
    else
      var vs := PartValues(parts[0], l);
      if vs == None then None else With(vs.value, ListValues(parts[1..], l))
  }

  function FieldOf(token: string, l: Limits): Option<Field>
    requires IsFieldLimits(l)
  {
    var t := TrimSpace(token);
    if t == "" then None
    else if t == "*" then Some(Field(true, {}))
    else
      var vs := ListValues(Split(t, ','), l);
      if vs == None then None else Some(Field(false, vs.value))
  }

  function ScheduleOf(expr: string): Option<Schedule> {
    ScheduleOfFields(Fields(TrimSpace(expr)))
  }

  function ScheduleOfFields(parts: seq<string>): Option<Schedule> {
    if |parts| != 5 then None
    else
      var minute, hour, day := FieldOf(parts[0], MINUTE), FieldOf(parts[1], HOUR), FieldOf(parts[2], DAY);
      var month, week := FieldOf(parts[3], MONTH), FieldOf(parts[4], WEEK);
      if minute == None || hour == None || day == None || month == None || week == None then None
      else Some(Schedule(minute.value, hour.value, day.value, month.value, week.value))
  }

  // ---------------------------------------------------- accepted means satisfiable

  ghost predicate Admits(vs: set<int>, l: Limits) { vs != {} && forall v :: v in vs ==> l.lo <= v <= l.hi }

  lemma SegmentAdmits(segment: string, l: Limits)
    requires IsFieldLimits(l) && SegmentValues(segment, l).Some?
    ensures Admits(SegmentValues(segment, l).value, l)
  {
    var s := StepOf(segment).value;
    var r := RangeOf(s.0, l).value;
    assert OnStep(r.first, r.first, s.1);
    assert Norm(r.first, l) in Stepped(r, s.1, l);
  }

  lemma BothAdmit(a: set<int>, b: set<int>, l: Limits)
    requires Admits(a, l) && Admits(b, l)
    ensures Admits(a + b, l)
  {}

  lemma {:induction false} ListAdmits(parts: seq<string>, l: Limits)
    requires IsFieldLimits(l) && ListValues(parts, l).Some? && parts != []
    ensures Admits(ListValues(parts, l).value, l)
  {
    var vs := PartValues(parts[0], l).value;
    SegmentAdmits(TrimSpace(parts[0]), l);
    if |parts| > 1 {
      ListAdmits(parts[1..], l);
      BothAdmit(vs, ListValues(parts[1..], l).value, l);
    } else {
      assert vs + {} == vs;
    }
  }

  lemma FieldAdmits(token: string, l: Limits)
    requires IsFieldLimits(l) && FieldOf(token, l).Some?
    ensures FieldOk(FieldOf(token, l).value, l.lo, l.hi)
  {
    if !FieldOf(token, l).value.any { ListAdmits(Split(TrimSpace(token), ','), l); }
  }

  /** Every field of an accepted expression admits some value, and only values of
      its own range. */
  lemma AcceptedIsOk(expr: string)
    requires ScheduleOf(expr).Some?
    ensures ScheduleOk(ScheduleOf(expr).value)
  {
    var parts := Fields(TrimSpace(expr));
    FieldAdmits(parts[0], MINUTE);
    FieldAdmits(parts[1], HOUR);
    FieldAdmits(parts[2], DAY);
    FieldAdmits(parts[3], MONTH);
    FieldAdmits(parts[4], WEEK);
  }

  // ------------------------------------------------------------------ the loops

  lemma ModDrop(x: int, k: int)
    requires 0 < k <= x
    ensures (x - k) % k == x % k
  {
    var q, r, p, s := (x - k) / k, (x - k) % k, x / k, x % k;
    assert x - k == q * k + r && x == p * k + s;
    assert (p - q - 1) * k == r - s;
    SmallMultiple(p - q - 1, k);
  }

  lemma StepPeel(v: int, first: int, step: int)
    requires step > 0
    ensures OnStep(v, first, step) <==> v == first || OnStep(v, first + step, step)
  {
    if v >= first + step { ModDrop(v - first, step); }
    if first <= v < first + step { assert (v - first) % step == v - first; }
  }

  /** Peeling the first value off a stepped span. */
  lemma SteppedPeel(r: Span, step: int, l: Limits)
    requires step > 0 && r.first <= r.last
    ensures Stepped(r, step, l) == {Norm(r.first, l)} + Stepped(Span(r.first + step, r.last), step, l)
  {
    forall v ensures OnStep(v, r.first, step) <==> v == r.first || OnStep(v, r.first + step, step) {
      StepPeel(v, r.first, step);
    }
  }

  /** The values the loop of addSegment visits. */
  function Walk(v: int, last: int, step: int, l: Limits): set<int>
    requires step > 0
    decreases last - v
  {
    if v > last then {} else {Norm(v, l)} + Walk(v + step, last, step, l)
  }

  lemma {:induction false} WalkIsStepped(r: Span, step: int, l: Limits)
    requires step > 0
    ensures Walk(r.first, r.last, step, l) == Stepped(r, step, l)
    decreases r.last - r.first
  {
    if r.first <= r.last {
      SteppedPeel(r, step, l);
      WalkIsStepped(Span(r.first + step, r.last), step, l);
    }
  }

  /** The loop of addSegment; its counter is a 64-bit integer. */
  method AddValues(values: set<int>, r: Span, step: int, l: Limits) returns (result: Option<set<int>>)
    requires IsFieldLimits(l) && IsSpan(r, l) && 1 <= step <= MAX_INT64
    ensures result == if r.first + step > MAX_INT64 then None else Some(values + Stepped(r, step, l))
  {
    WalkIsStepped(r, step, l);
    var value, all := r.first, values;
    while value <= r.last
      invariant value == r.first || (value < 0 && r.first + step > MAX_INT64)
                || (r.first + step <= value <= r.last + step && r.first + step <= MAX_INT64)
      invariant value >= 0 ==> all + Walk(value, r.last, step, l) == values + Walk(r.first, r.last, step, l)
      decreases value >= 0, r.last - value
    {
      var normalized := Norm(value, l);
      if normalized < l.lo || normalized > l.hi { return None; }
      WrapStep(value, step);
      Regroup(all, {normalized}, Walk(value + step, r.last, step, l));
      all := all + {normalized};
      value := Wrap64(value + step);
    }
    assert all + {} == all;
    return Some(all);
  }

  lemma Regroup(a: set<int>, b: set<int>, c: set<int>)
    ensures a + (b + c) == (a + b) + c
  {}

  lemma WithNothing(o: Option<set<int>>)
    ensures With({}, o) == o
  {
    if o.Some? { assert {} + o.value == o.value; }
  }

  lemma WithBoth(a: set<int>, b: set<int>, o: Option<set<int>>)
    ensures With(a, With(b, o)) == With(a + b, o)
  {
    if o.Some? { Regroup(a, b, o.value); }
  }

  lemma WrapStep(value: int, step: int)
    requires 0 <= value < 60 && 1 <= step <= MAX_INT64
    ensures Wrap64(value + step) == if value + step > MAX_INT64 then value + step - TWO_64 else value + step
  {}

  method AddSegment(values: set<int>, segment: string, l: Limits) returns (r: Option<set<int>>)
    requires IsFieldLimits(l)
    ensures r == With(values, SegmentValues(segment, l))
  {
    var step, base := 1, segment;
    if '/' in segment {
      var parts := Split(segment, '/');
      if |parts| != 2 { return None; }
      base := parts[0];
      var parsed := Atoi(parts[1]);
      if parsed == None || parsed.value <= 0 { return None; }
      step := parsed.value;
    }
    assert StepOf(segment) == Some((base, step));
    var range := RangeOf(base, l);
    if range == None { return None; }
    r := AddValues(values, range.value, step, l);
  }

  lemma ListPeel(parts: seq<string>, i: nat, l: Limits)
    requires IsFieldLimits(l) && i < |parts|
    ensures var vs := PartValues(parts[i], l);
            ListValues(parts[i..], l) == if vs == None then None else With(vs.value, ListValues(parts[i + 1..], l))
  {}

  /** The loop of parseField. */
  method ParseList(parts: seq<string>, l: Limits) returns (r: Option<set<int>>)
    requires IsFieldLimits(l)
    ensures r == ListValues(parts, l)
  {
    var values, i := {}, 0;
    WithNothing(ListValues(parts, l));
    assert parts[0..] == parts;
    while i < |parts|
      invariant 0 <= i <= |parts|
      invariant With(values, ListValues(parts[i..], l)) == ListValues(parts, l)
    {
      ListPeel(parts, i, l);
      var part := TrimSpace(parts[i]);
      if part == "" { return None; }
      var next := AddSegment(values, part, l);
      if next == None { return None; }
      WithBoth(values, SegmentValues(part, l).value, ListValues(parts[i + 1..], l));
      values, i := next.value, i + 1;
    }
    assert values + {} == values;
    return Some(values);
  }

  method ParseField(token: string, l: Limits) returns (r: Option<Field>)
    requires IsFieldLimits(l)
    ensures r == FieldOf(token, l)
  {
    var t := TrimSpace(token);
    if t == "" { return None; }
    if t == "*" { return Some(Field(true, {})); }
    var values := ParseList(Split(t, ','), l);
    if values == None { return None; }
    return Some(Field(false, values.value));
  }

  method Parse(expr: string) returns (r: Option<Schedule>)
    ensures r == ScheduleOf(expr)
  {
    var parts := Fields(TrimSpace(expr));
    if |parts| != 5 { return None; }
    var minute := ParseField(parts[0], MINUTE);
    if minute == None { return None; }
    var hour := ParseField(parts[1], HOUR);
    if hour == None { return None; }
    var day := ParseField(parts[2], DAY);
    if day == None { return None; }
    var month := ParseField(parts[3], MONTH);
    if month == None { return None; }
    var week := ParseField(parts[4], WEEK);
    if week == None { return None; }
    return Some(Schedule(minute.value, hour.value, day.value, month.value, week.value));
  }
}
