/** The notation of internal/pkg/cronexpr/cronexpr.go: syntax trees for cron
    expressions, how they are written, what they mean, and that the parser reads
    every written expression back with that meaning. */
module CronGrammar {
  import opened Common
  import opened Text
  import opened CronSchedule
  import opened CronParser

  datatype Range = Star | One(value: nat) | FromTo(first: nat, last: nat)

  datatype Segment = Plain(range: Range) | Every(range: Range, step: nat)

  datatype FieldTree = Anything | Items(items: seq<Segment>)

  function Show(r: Range): string {
    match r
    case Star => "*"
    case One(v) => Itoa(v)
    case FromTo(a, b) => Itoa(a) + "-" + Itoa(b)
  }

  function ShowSegment(s: Segment): string {
    match s
    case Plain(r) => Show(r)
    case Every(r, n) => Show(r) + "/" + Itoa(n)
  }

  function ShowItems(items: seq<Segment>): seq<string> { seq(|items|, i requires 0 <= i < |items| => ShowSegment(items[i])) }

  function ShowField(f: FieldTree): string {
    match f
    case Anything => "*"
    case Items(items) => Join(ShowItems(items), ',')
  }

  function SpanOf(r: Range, l: Limits): Span {
    match r
    case Star => Span(l.lo, l.hi)
    case One(v) => Span(v, v)
    case FromTo(a, b) => Span(a, b)
  }

  function StepSize(s: Segment): nat { match s case Plain(_) => 1 case Every(_, n) => n }

  /** The first value is inside the limits and the steps stay 64-bit integers. */
  predicate SegmentOk(s: Segment, l: Limits) {
    var r := SpanOf(s.range, l);
    IsSpan(r, l) && 1 <= StepSize(s) && r.first + StepSize(s) <= MAX_INT64
  }

  predicate ItemsOk(items: seq<Segment>, l: Limits) { forall i :: 0 <= i < |items| ==> SegmentOk(items[i], l) }

  predicate FieldTreeOk(f: FieldTree, l: Limits) {
    f.Items? ==> f.items != [] && f.items != [Plain(Star)] && ItemsOk(f.items, l)
  }

  function SegmentMeaning(s: Segment, l: Limits): set<int>
    requires SegmentOk(s, l)
  {
    Stepped(SpanOf(s.range, l), StepSize(s), l)
  }

  function Union(items: seq<Segment>, l: Limits): set<int>
    requires ItemsOk(items, l)
  {
    set i, v | 0 <= i < |items| && v in SegmentMeaning(items[i], l) :: v
  }

  /** A lone star leaves the field unrestricted; a list admits the union of its
      segments, even if that is every value. */
  function FieldMeaning(f: FieldTree, l: Limits): Field
    requires FieldTreeOk(f, l)
  {
    match f
    case Anything => Field(true, {})
    case Items(items) => Field(false, Union(items, l))
  }

  // ------------------------------------------------------------------ characters

  lemma RangeChars(r: Range)
    ensures Show(r) != "" && forall i :: 0 <= i < |Show(r)| ==> IsDigit(Show(r)[i]) || Show(r)[i] in "*-"
  {}

  lemma SegmentChars(s: Segment)
    ensures ShowSegment(s) != ""
    ensures forall i :: 0 <= i < |ShowSegment(s)| ==> IsDigit(ShowSegment(s)[i]) || ShowSegment(s)[i] in "*-/"
  {}

  /** Text without spaces is not touched by trimming. */
  lemma TrimOfWord(s: string)
    requires forall i :: 0 <= i < |s| ==> !IsSpace(s[i])
    ensures TrimSpace(s) == s
  {}

  lemma SplitInTwo(a: string, b: string, sep: char)
    requires sep !in a && sep !in b
    ensures Split(a + [sep] + b, sep) == [a, b]
  {
    assert Join([a, b], sep) == a + [sep] + b;
    SplitJoin([a, b], sep);
  }

  // ------------------------------------------------------------------- round trip

  lemma ReadValue(v: nat, l: Limits)
    requires IsFieldLimits(l) && InLimits(v, l)
    ensures Value(Itoa(v), l) == Some(v)
  {
    AtoiOfItoa(v);
  }

  lemma NoSeparator(n: nat, c: char)
    requires !IsDigit(c)
    ensures c !in Itoa(n)
  {}

  lemma ReadRange(r: Range, l: Limits)
    requires IsFieldLimits(l) && IsSpan(SpanOf(r, l), l)
    ensures RangeOf(Show(r), l) == Some(SpanOf(r, l))
  {
    match r
    case Star =>
    case One(v) =>
      NoSeparator(v, '-');
      assert Itoa(v)[0] != '*';
      ReadValue(v, l);
    case FromTo(a, b) =>
      assert Show(r)[|Itoa(a)|] == '-';
      assert Show(r)[0] != '*' by { assert Show(r)[0] == Itoa(a)[0]; }
      NoSeparator(a, '-');
      NoSeparator(b, '-');
      SplitInTwo(Itoa(a), Itoa(b), '-');
      ReadValue(a, l);
      ReadValue(b, l);
  }

  lemma ReadStep(s: Segment, l: Limits)
    requires IsFieldLimits(l) && SegmentOk(s, l)
    ensures StepOf(ShowSegment(s)) == Some((Show(s.range), StepSize(s)))
  {
    RangeChars(s.range);
    if s.Every? {
      var base, step := Show(s.range), Itoa(s.step);
      NoSeparator(s.step, '/');
      SplitInTwo(base, step, '/');
      AtoiOfItoa(s.step);
      assert ShowSegment(s) == base + ['/'] + step;
      assert ShowSegment(s)[|base|] == '/';
    }
  }

  lemma ReadSegment(s: Segment, l: Limits)
    requires IsFieldLimits(l) && SegmentOk(s, l)
    ensures PartValues(ShowSegment(s), l) == Some(SegmentMeaning(s, l))
  {
    SegmentChars(s);
    TrimOfWord(ShowSegment(s));
    ReadStep(s, l);
    ReadRange(s.range, l);
  }

  lemma UnionPeel(items: seq<Segment>, l: Limits)
    requires items != [] && ItemsOk(items, l)
    ensures Union(items, l) == SegmentMeaning(items[0], l) + Union(items[1..], l)
  {}

  lemma ShowItemsTail(items: seq<Segment>)
    requires items != []
    ensures ShowItems(items)[0..] == ShowItems(items) && ShowItems(items)[1..] == ShowItems(items[1..])
  {}

  lemma {:induction false} ReadItems(items: seq<Segment>, l: Limits)
    requires IsFieldLimits(l) && ItemsOk(items, l)
    ensures ListValues(ShowItems(items), l) == Some(Union(items, l))
  {
    if items == [] {
      assert Union(items, l) == {};
    } else {
      UnionPeel(items, l);
      ReadSegment(items[0], l);
      ReadItems(items[1..], l);
      ListPeel(ShowItems(items), 0, l);
      ShowItemsTail(items);
    }
  }

  lemma {:induction false} JoinChars(parts: seq<string>, sep: char)
    requires !IsSpace(sep) && forall i :: 0 <= i < |parts| ==> IsWord(parts[i])
    ensures forall i :: 0 <= i < |Join(parts, sep)| ==> !IsSpace(Join(parts, sep)[i])
  {
    if |parts| > 1 { JoinChars(parts[1..], sep); }
  }

  lemma ItemsAreWords(items: seq<Segment>)
    ensures forall i :: 0 <= i < |items| ==> IsWord(ShowItems(items)[i]) && ',' !in ShowItems(items)[i]
  {
    forall i | 0 <= i < |items| ensures IsWord(ShowItems(items)[i]) && ',' !in ShowItems(items)[i] {
      SegmentChars(items[i]);
    }
  }

  lemma ListIsNotStar(items: seq<Segment>)
    requires items != [] && items != [Plain(Star)]
    ensures Join(ShowItems(items), ',') !in {"", "*"}
  {
    var parts := ShowItems(items);
    SegmentChars(items[0]);
    if |items| > 1 {
      assert Join(parts, ',')[|parts[0]|] == ',';
    } else if items[0] == Plain(items[0].range) {
      assert Show(items[0].range)[0] != '*';
    } else {
      assert |ShowSegment(items[0])| > 1;
    }
  }

  lemma ReadList(text: string, parts: seq<string>, vs: set<int>, l: Limits)
    requires IsFieldLimits(l) && TrimSpace(text) == text && text !in {"", "*"}
    requires Split(text, ',') == parts && ListValues(parts, l) == Some(vs)
    ensures FieldOf(text, l) == Some(Field(false, vs))
  {}

  lemma FieldIsWord(f: FieldTree)
    requires f.Items? ==> f.items != [] && f.items != [Plain(Star)]
    ensures IsWord(ShowField(f))
  {
    if f.Items? {
      ItemsAreWords(f.items);
      JoinChars(ShowItems(f.items), ',');
      ListIsNotStar(f.items);
    }
  }

  /** The parser reads a written field as what it means. */
  lemma ReadField(f: FieldTree, l: Limits)
    requires IsFieldLimits(l) && FieldTreeOk(f, l)
    ensures FieldOf(ShowField(f), l) == Some(FieldMeaning(f, l))
  {
    if f.Items? {
      var parts := ShowItems(f.items);
      FieldIsWord(f);
      ListIsNotStar(f.items);
      ItemsAreWords(f.items);
      SplitJoin(parts, ',');
      ReadItems(f.items, l);
      TrimOfWord(ShowField(f));
      ReadList(ShowField(f), parts, Union(f.items, l), l);
    }
  }

  // ------------------------------------------------------------ whole expressions

  lemma FieldsCons(w: string, tail: string)
    requires IsWord(w)
    ensures Fields(w + [' '] + tail) == [w] + Fields(tail)
  {
    var rest := [' '] + tail;
    assert w + [' '] + tail == w + rest;
    FieldsStep(w, rest);
    SkipSpace(rest);
    assert rest[1..] == tail;
  }

  lemma FieldsOfOne(w: string)
    requires IsWord(w)
    ensures Fields(w) == [w]
  {
    var rest: string := [];
    FieldsStep(w, rest);
    assert w + rest == w;
  }

  lemma {:induction false} FieldsOfJoin(words: seq<string>)
    requires forall i :: 0 <= i < |words| ==> IsWord(words[i])
    ensures Fields(Join(words, ' ')) == words
  {
    if |words| == 1 {
      FieldsOfOne(words[0]);
    } else if |words| > 1 {
      FieldsCons(words[0], Join(words[1..], ' '));
      FieldsOfJoin(words[1..]);
      HeadAndTail(words);
    }
  }

  lemma {:induction false} TrimOfJoin(words: seq<string>)
    requires words != [] && forall i :: 0 <= i < |words| ==> IsWord(words[i])
    ensures var s := Join(words, ' '); s != "" && !IsSpace(s[0]) && !IsSpace(s[|s| - 1])
  {
    if |words| > 1 { TrimOfJoin(words[1..]); }
  }

  datatype Tree = Tree(minute: FieldTree, hour: FieldTree, day: FieldTree, month: FieldTree, week: FieldTree)

  predicate TreeOk(t: Tree) {
    && FieldTreeOk(t.minute, MINUTE) && FieldTreeOk(t.hour, HOUR) && FieldTreeOk(t.day, DAY)
    && FieldTreeOk(t.month, MONTH) && FieldTreeOk(t.week, WEEK)
  }

  function ShowFields(t: Tree): seq<string> {
    [ShowField(t.minute), ShowField(t.hour), ShowField(t.day), ShowField(t.month), ShowField(t.week)]
  }

  function ShowTree(t: Tree): string { Join(ShowFields(t), ' ') }

  function Meaning(t: Tree): Schedule
    requires TreeOk(t)
  {
    Schedule(FieldMeaning(t.minute, MINUTE), FieldMeaning(t.hour, HOUR), FieldMeaning(t.day, DAY),
             FieldMeaning(t.month, MONTH), FieldMeaning(t.week, WEEK))
  }

  lemma Assemble(minute: string, hour: string, day: string, month: string, week: string, s: Schedule)
    requires FieldOf(minute, MINUTE) == Some(s.minute) && FieldOf(hour, HOUR) == Some(s.hour)
    requires FieldOf(day, DAY) == Some(s.day) && FieldOf(month, MONTH) == Some(s.month)
    requires FieldOf(week, WEEK) == Some(s.week)
    ensures ScheduleOfFields([minute, hour, day, month, week]) == Some(s)
  {}

  lemma ReadFields(t: Tree)
    requires TreeOk(t)
    ensures ScheduleOfFields(ShowFields(t)) == Some(Meaning(t))
  {
    ReadField(t.minute, MINUTE);
    ReadField(t.hour, HOUR);
    ReadField(t.day, DAY);
    ReadField(t.month, MONTH);
    ReadField(t.week, WEEK);
    Assemble(ShowField(t.minute), ShowField(t.hour), ShowField(t.day), ShowField(t.month), ShowField(t.week), Meaning(t));
  }

  lemma FieldsAreWords(t: Tree)
    requires TreeOk(t)
    ensures forall i :: 0 <= i < 5 ==> IsWord(ShowFields(t)[i])
  {
    forall i | 0 <= i < 5 ensures IsWord(ShowFields(t)[i]) {
      var f := [t.minute, t.hour, t.day, t.month, t.week][i];
      assert ShowFields(t)[i] == ShowField(f);
      FieldIsWord(f);
    }
  }

  /** Parsing undoes writing, for every expression of the notation. */
  lemma ReadTree(t: Tree)
    requires TreeOk(t)
    ensures ScheduleOf(ShowTree(t)) == Some(Meaning(t))
  {
    var words := ShowFields(t);
    ReadFields(t);
    FieldsAreWords(t);
    TrimOfJoin(words);
    FieldsOfJoin(words);
    TrimEnds(ShowTree(t));
  }

  lemma TrimEnds(s: string)
    requires s != "" && !IsSpace(s[0]) && !IsSpace(s[|s| - 1])
    ensures TrimSpace(s) == s
  {}

  // ------------------------------------------------------- what texts are accepted

  /** The text spells the range: a star, a number, or two numbers with a dash between. The
      numbers may have a plus sign and leading zeros. */
  ghost predicate Spells(text: string, r: Range) {
    match r
    case Star => text == "*"
    case One(v) => text != "*" && '-' !in text && Atoi(text) == Some(v)
    case FromTo(a, b) =>
      exists x, y :: text == x + ['-'] + y && '-' !in x && '-' !in y && Atoi(x) == Some(a) && Atoi(y) == Some(b)
  }

  ghost predicate SpellsSegment(text: string, s: Segment) {
    match s
    case Plain(r) => '/' !in text && Spells(text, r)
    case Every(r, n) => exists x, y :: text == x + ['/'] + y && '/' !in x && '/' !in y && Spells(x, r) && Atoi(y) == Some(n)
  }

  /** The parts spell the segments one by one, up to space around them. */
  ghost predicate SpellsItems(parts: seq<string>, items: seq<Segment>) {
    |parts| == |items| && forall i :: 0 <= i < |items| ==> SpellsSegment(TrimSpace(parts[i]), items[i])
  }

  ghost predicate SpellsField(token: string, f: FieldTree) {
    match f
    case Anything => TrimSpace(token) == "*"
    case Items(items) =>
      exists parts ::
        && Join(parts, ',') == TrimSpace(token) && (forall i :: 0 <= i < |parts| ==> ',' !in parts[i])
        && SpellsItems(parts, items)
  }

  /** Five fields with space between. */
  ghost predicate SpellsTree(expr: string, t: Tree) {
    var words := Fields(TrimSpace(expr));
    && |words| == 5 && SpellsField(words[0], t.minute) && SpellsField(words[1], t.hour) && SpellsField(words[2], t.day)
    && SpellsField(words[3], t.month) && SpellsField(words[4], t.week)
  }

  lemma SplitOfTwo(text: string, sep: char) returns (x: string, y: string)
    requires |Split(text, sep)| == 2
    ensures Split(text, sep) == [x, y] && text == x + [sep] + y && sep !in x && sep !in y
  {
    x, y := Split(text, sep)[0], Split(text, sep)[1];
    JoinSplit(text, sep);
    assert Join([x, y], sep) == x + [sep] + y;
  }

  lemma RangeHasTree(base: string, l: Limits) returns (r: Range)
    requires IsFieldLimits(l) && RangeOf(base, l).Some?
    ensures Spells(base, r) && RangeOf(base, l) == Some(SpanOf(r, l))
  {
    var span := RangeOf(base, l).value;
    if base == "*" {
      r := Star;
    } else if '-' in base {
      var x, y := SplitOfTwo(base, '-');
      r := FromTo(span.first, span.last);
    } else {
      r := One(span.first);
    }
  }

  lemma SegmentHasTree(segment: string, l: Limits) returns (s: Segment)
    requires IsFieldLimits(l) && SegmentValues(segment, l).Some?
    ensures SpellsSegment(segment, s) && SegmentOk(s, l) && SegmentValues(segment, l) == Some(SegmentMeaning(s, l))
  {
    var step := StepOf(segment).value;
    var r := RangeHasTree(step.0, l);
    if '/' in segment {
      var x, y := SplitOfTwo(segment, '/');
      s := Every(r, step.1);
    } else {
      s := Plain(r);
    }
  }

  lemma {:induction false} ListHasTree(parts: seq<string>, l: Limits) returns (items: seq<Segment>)
    requires IsFieldLimits(l) && ListValues(parts, l).Some?
    ensures SpellsItems(parts, items) && ItemsOk(items, l) && ListValues(parts, l) == Some(Union(items, l))
    decreases |parts|
  {
    if parts == [] {
      items := [];
      assert Union(items, l) == {};
    } else {
      var s := SegmentHasTree(TrimSpace(parts[0]), l);
      var rest := ListHasTree(parts[1..], l);
      items := [s] + rest;
      assert items[1..] == rest;
      forall i | 0 <= i < |items| ensures SpellsSegment(TrimSpace(parts[i]), items[i]) {
        if i > 0 { assert parts[i] == parts[1..][i - 1]; }
      }
      UnionPeel(items, l);
    }
  }

  lemma TrimTwice(s: string)
    ensures TrimSpace(TrimSpace(s)) == TrimSpace(s)
  {
    var i, j := TrimIs(s);
    var t := TrimSpace(s);
    if i < j {
      assert t[0] == s[i] && t[|t| - 1] == s[j - 1];
      TrimEnds(t);
    }
  }

  lemma StarPart(text: string, parts: seq<string>, items: seq<Segment>)
    requires parts == Split(text, ',') && TrimSpace(text) == text && SpellsItems(parts, items) && items == [Plain(Star)]
    ensures text == "*"
  {
    JoinSplit(text, ',');
    assert SpellsSegment(TrimSpace(parts[0]), items[0]);
  }

  lemma FieldHasTree(token: string, l: Limits) returns (f: FieldTree)
    requires IsFieldLimits(l) && FieldOf(token, l).Some?
    ensures SpellsField(token, f) && FieldTreeOk(f, l) && FieldOf(token, l) == Some(FieldMeaning(f, l))
  {
    var text := TrimSpace(token);
    if text == "*" {
      f := Anything;
    } else {
      var parts := Split(text, ',');
      var items := ListHasTree(parts, l);
      JoinSplit(text, ',');
      TrimTwice(token);
      if items == [Plain(Star)] {
        StarPart(text, parts, items);
        assert false;
      }
      f := Items(items);
    }
  }

  lemma SpelledRange(text: string, r: Range, l: Limits)
    requires IsFieldLimits(l) && Spells(text, r) && IsSpan(SpanOf(r, l), l)
    ensures RangeOf(text, l) == Some(SpanOf(r, l))
  {
    if r.FromTo? {
      var x, y :| text == x + ['-'] + y && '-' !in x && '-' !in y && Atoi(x) == Some(r.first) && Atoi(y) == Some(r.last);
      SplitInTwo(x, y, '-');
      assert text[|x|] == '-';
      assert text != "*";
    }
  }

  lemma SpelledStep(text: string, s: Segment, l: Limits) returns (x: string)
    requires IsFieldLimits(l) && SpellsSegment(text, s) && SegmentOk(s, l)
    ensures text != "" && StepOf(text) == Some((x, StepSize(s))) && Spells(x, s.range)
  {
    if s.Every? {
      var a, b :| text == a + ['/'] + b && '/' !in a && '/' !in b && Spells(a, s.range) && Atoi(b) == Some(s.step);
      SplitInTwo(a, b, '/');
      assert text[|a|] == '/';
      x := a;
    } else {
      x := text;
    }
  }

  lemma SpelledSegment(text: string, s: Segment, l: Limits)
    requires IsFieldLimits(l) && SpellsSegment(text, s) && SegmentOk(s, l)
    ensures text != "" && SegmentValues(text, l) == Some(SegmentMeaning(s, l))
  {
    var x := SpelledStep(text, s, l);
    SpelledRange(x, s.range, l);
  }

  lemma {:induction false} SpelledList(parts: seq<string>, items: seq<Segment>, l: Limits)
    requires IsFieldLimits(l) && SpellsItems(parts, items) && ItemsOk(items, l)
    ensures ListValues(parts, l) == Some(Union(items, l))
    decreases |parts|
  {
    if items == [] {
      assert Union(items, l) == {};
    } else {
      SpelledSegment(TrimSpace(parts[0]), items[0], l);
      assert SpellsItems(parts[1..], items[1..]) by {
        forall i | 0 <= i < |items[1..]| ensures SpellsSegment(TrimSpace(parts[1..][i]), items[1..][i]) {
          assert parts[1..][i] == parts[i + 1] && items[1..][i] == items[i + 1];
        }
      }
      SpelledList(parts[1..], items[1..], l);
      UnionPeel(items, l);
    }
  }

  lemma SpelledField(token: string, f: FieldTree, l: Limits)
    requires IsFieldLimits(l) && SpellsField(token, f) && FieldTreeOk(f, l)
    ensures FieldOf(token, l) == Some(FieldMeaning(f, l))
  {
    if f.Items? {
      var text := TrimSpace(token);
      var parts :| && Join(parts, ',') == text && (forall i :: 0 <= i < |parts| ==> ',' !in parts[i])
                   && SpellsItems(parts, f.items);
      SplitJoin(parts, ',');
      SpelledList(parts, f.items, l);
      SpelledIsNoStar(text, parts, f.items, l);
    }
  }

  /** A list that spells segments is neither empty nor a lone star. */
  lemma SpelledIsNoStar(text: string, parts: seq<string>, items: seq<Segment>, l: Limits)
    requires IsFieldLimits(l) && parts != [] && Join(parts, ',') == text && SpellsItems(parts, items) && ItemsOk(items, l)
    requires items != [Plain(Star)]
    ensures text != "" && text != "*"
  {
    if |parts| == 1 {
      assert items == [items[0]] && text == parts[0];
      OnePart(text, items[0], l);
    } else {
      assert text[|parts[0]|] == ',';
    }
  }

  lemma TrimOfOne(text: string)
    requires |text| <= 1 && (text == "" || !IsSpace(text[0]))
    ensures TrimSpace(text) == text
  {
    TrimOfWord(text);
  }

  lemma OnePart(text: string, s: Segment, l: Limits)
    requires IsFieldLimits(l) && SpellsSegment(TrimSpace(text), s) && SegmentOk(s, l) && s != Plain(Star)
    ensures text != "" && text != "*"
  {
    var t := TrimSpace(text);
    var _ := SpelledStep(t, s, l);
    OnlyStarIsStar(t, s);
    assert t != "" && t != "*";
    if |text| <= 1 && (text == "" || !IsSpace(text[0])) { TrimOfOne(text); }
  }

  lemma OnlyStarIsStar(text: string, s: Segment)
    requires SpellsSegment(text, s)
    ensures text == "*" <==> s == Plain(Star)
  {
    if s.Every? {
      var x, y :| text == x + ['/'] + y && '/' !in x && '/' !in y && Spells(x, s.range) && Atoi(y) == Some(s.step);
      assert text[|x|] == '/';
    } else if s.range.FromTo? {
      var x, y :| && text == x + ['-'] + y && '-' !in x && '-' !in y && Atoi(x) == Some(s.range.first)
                  && Atoi(y) == Some(s.range.last);
      assert text[|x|] == '-';
    }
  }

  lemma SpelledTree(expr: string, t: Tree)
    requires SpellsTree(expr, t) && TreeOk(t)
    ensures ScheduleOf(expr) == Some(Meaning(t))
  {
    var words := Fields(TrimSpace(expr));
    SpelledField(words[0], t.minute, MINUTE);
    SpelledField(words[1], t.hour, HOUR);
    SpelledField(words[2], t.day, DAY);
    SpelledField(words[3], t.month, MONTH);
    SpelledField(words[4], t.week, WEEK);
  }

  lemma AcceptedHasTree(expr: string) returns (t: Tree)
    requires ScheduleOf(expr).Some?
    ensures SpellsTree(expr, t) && TreeOk(t) && ScheduleOf(expr) == Some(Meaning(t))
  {
    var words := Fields(TrimSpace(expr));
    var minute := FieldHasTree(words[0], MINUTE);
    var hour := FieldHasTree(words[1], HOUR);
    var day := FieldHasTree(words[2], DAY);
    var month := FieldHasTree(words[3], MONTH);
    var week := FieldHasTree(words[4], WEEK);
    t := Tree(minute, hour, day, month, week);
  }

  /** An expression is accepted if and only if it spells a tree of the notation, and then
      it has the meaning of every tree it spells. */
  lemma AcceptedIff(expr: string)
    ensures ScheduleOf(expr).Some? <==> exists t :: SpellsTree(expr, t) && TreeOk(t)
    ensures forall t :: SpellsTree(expr, t) && TreeOk(t) ==> ScheduleOf(expr) == Some(Meaning(t))
  {
    forall t | SpellsTree(expr, t) && TreeOk(t) ensures ScheduleOf(expr) == Some(Meaning(t)) { SpelledTree(expr, t); }
    if ScheduleOf(expr).Some? { var t := AcceptedHasTree(expr); }
  }
}
