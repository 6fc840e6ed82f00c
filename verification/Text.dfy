/** The string helpers the scheduler's Go code relies on: strings.TrimSpace,
    strings.Split with a one-character separator, strings.Fields and strconv.Atoi. */
module Text {
  import opened Common

  predicate IsSpace(c: char) {
    c in "\t\n\r \U{000B}\U{000C}\U{0085}\U{00A0}\U{1680}\U{2028}\U{2029}\U{202F}\U{205F}\U{3000}"
    || '\U{2000}' <= c <= '\U{200A}'
  }

  function TrimLeft(s: string): (r: string)
    ensures |r| <= |s| && (r != "" ==> !IsSpace(r[0]))
  {
    if s == "" || !IsSpace(s[0]) then s else TrimLeft(s[1..])
  }

  function TrimRight(s: string): (r: string)
    ensures |r| <= |s| && (r != "" ==> !IsSpace(r[|r| - 1]))
  {
    if s == "" || !IsSpace(s[|s| - 1]) then s else TrimRight(s[..|s| - 1])
  }

  function TrimSpace(s: string): string { TrimRight(TrimLeft(s)) }

  /** From i to j there is nothing but space. */
  predicate Blank(s: string, i: nat, j: nat)
    requires j <= |s|
  {
    forall k :: i <= k < j ==> IsSpace(s[k])
  }

  lemma {:induction false} TrimLeftIs(s: string) returns (i: nat)
    ensures i <= |s| && TrimLeft(s) == s[i..] && Blank(s, 0, i)
    decreases |s|
  {
    i := 0;
    if s != "" && IsSpace(s[0]) {
      var tail := s[1..];
      var n := TrimLeftIs(tail);
      i := n + 1;
      assert tail[n..] == s[i..];
      forall k | 0 <= k < i ensures IsSpace(s[k]) { assert k > 0 ==> s[k] == tail[k - 1]; }
    }
  }

  lemma {:induction false} TrimRightIs(s: string) returns (j: nat)
    ensures j <= |s| && TrimRight(s) == s[..j] && Blank(s, j, |s|)
    decreases |s|
  {
    j := |s|;
    if s != "" && IsSpace(s[|s| - 1]) {
      var front := s[..|s| - 1];
      j := TrimRightIs(front);
      assert front[..j] == s[..j];
      forall k | j <= k < |s| ensures IsSpace(s[k]) { assert k < |front| ==> s[k] == front[k]; }
    }
  }

  /** Trimming takes away space at both ends and nothing else. */
  lemma TrimIs(s: string) returns (i: nat, j: nat)
    ensures i <= j <= |s| && TrimSpace(s) == s[i..j] && Blank(s, 0, i) && Blank(s, j, |s|)
    ensures i < j ==> !IsSpace(s[i]) && !IsSpace(s[j - 1])
  {
    i := TrimLeftIs(s);
    var rest := s[i..];
    var n := TrimRightIs(rest);
    j := i + n;
    assert rest[..n] == s[i..j];
    forall k | j <= k < |s| ensures IsSpace(s[k]) { assert s[k] == rest[k - i]; }
    if n > 0 { assert s[i] == rest[0] && s[j - 1] == TrimSpace(s)[n - 1]; }
  }

  /** Index of the first separator, or the length of the string. */
  function FirstSep(s: string, sep: char): (k: nat)
    ensures k <= |s| && sep !in s[..k] && (k < |s| ==> s[k] == sep)
  {
    if s == "" then 0
    else if s[0] == sep then 0
    else
      var k := FirstSep(s[1..], sep);
      assert s[..k + 1] == [s[0]] + s[1..][..k];
      1 + k
  }

  function Split(s: string, sep: char): (parts: seq<string>)
    ensures |parts| >= 1
    ensures forall i :: 0 <= i < |parts| ==> sep !in parts[i]
    ensures (|parts| == 1) <==> (sep !in s)
    decreases |s|
  {
    var k := FirstSep(s, sep);
    if k == |s| then
      assert s[..k] == s;
      [s]
    else
      assert s[k] == sep;
      [s[..k]] + Split(s[k + 1..], sep)
  }

  function Join(parts: seq<string>, sep: char): string {
    if parts == [] then ""
    else if |parts| == 1 then parts[0]
    else parts[0] + [sep] + Join(parts[1..], sep)
  }

  lemma {:induction false} FirstSepAt(s: string, sep: char, k: nat)
    requires k <= |s| && sep !in s[..k] && (k < |s| ==> s[k] == sep)
    ensures FirstSep(s, sep) == k
  {}

  lemma {:induction false} SplitJoin(parts: seq<string>, sep: char)
    requires |parts| >= 1 && forall i :: 0 <= i < |parts| ==> sep !in parts[i]
    ensures Split(Join(parts, sep), sep) == parts
  {
    var s := Join(parts, sep);
    var p := parts[0];
    assert s[..|p|] == p;
    FirstSepAt(s, sep, |p|);
    if |parts| > 1 {
      assert s[|p| + 1..] == Join(parts[1..], sep);
      SplitJoin(parts[1..], sep);
    }
  }

  /** Nothing is lost: joining the parts gives the text back. */
  lemma {:induction false} JoinSplit(s: string, sep: char)
    ensures Join(Split(s, sep), sep) == s
    decreases |s|
  {
    var k := FirstSep(s, sep);
    if k < |s| {
      var tail := s[k + 1..];
      JoinSplit(tail, sep);
      JoinCons(s[..k], Split(tail, sep), sep);
      CutAt(s, k, sep);
    }
  }

  lemma CutAt(s: string, k: nat, sep: char)
    requires k < |s| && s[k] == sep
    ensures s[..k] + [sep] + s[k + 1..] == s
  {}

  lemma JoinCons(p: string, parts: seq<string>, sep: char)
    requires parts != []
    ensures Join([p] + parts, sep) == p + [sep] + Join(parts, sep)
  {
    assert ([p] + parts)[1..] == parts;
  }

  /** Length of the leading run of non-space characters. */
  function WordLen(s: string): (k: nat)
    ensures k <= |s|
    ensures forall i :: 0 <= i < k ==> !IsSpace(s[i])
    ensures k < |s| ==> IsSpace(s[k])
  {
    if s == "" || IsSpace(s[0]) then 0 else 1 + WordLen(s[1..])
  }

  predicate IsWord(p: string) { p != "" && forall i :: 0 <= i < |p| ==> !IsSpace(p[i]) }

  /** strings.Fields: the maximal runs of non-space characters, in order. */
  function Fields(s: string): (parts: seq<string>)
    ensures forall i :: 0 <= i < |parts| ==> IsWord(parts[i])
    decreases |s|
  {
    var t := TrimLeft(s);
    if t == "" then []
    else
      var k := WordLen(t);
      var rest := Fields(t[k..]);
      assert IsWord(t[..k]);
      [t[..k]] + rest
  }

  lemma {:induction false} WordLenOf(w: string, rest: string)
    requires forall i :: 0 <= i < |w| ==> !IsSpace(w[i])
    requires rest == "" || IsSpace(rest[0])
    ensures WordLen(w + rest) == |w|
  {
    if w == "" {
      assert w + rest == rest;
    } else {
      assert (w + rest)[1..] == w[1..] + rest;
      WordLenOf(w[1..], rest);
    }
  }

  /** A word, up to a space or the end, is the first field. */
  lemma FieldsStep(w: string, rest: string)
    requires IsWord(w) && (rest == "" || IsSpace(rest[0]))
    ensures Fields(w + rest) == [w] + Fields(rest)
  {
    var s := w + rest;
    assert s[0] == w[0];
    WordLenOf(w, rest);
    assert s[..|w|] == w && s[|w|..] == rest;
  }

  /** Leading space makes no field. */
  lemma SkipSpace(s: string)
    requires s != "" && IsSpace(s[0])
    ensures Fields(s) == Fields(s[1..])
  {}

  predicate IsDigit(c: char) { '0' <= c <= '9' }

  predicate AllDigits(s: string) { forall i :: 0 <= i < |s| ==> IsDigit(s[i]) }

  function DecimalValue(s: string): nat
    requires AllDigits(s)
  {
    if s == "" then 0
    else 10 * DecimalValue(s[..|s| - 1]) + ((s[|s| - 1] as int) - ('0' as int))
  }

  /** strconv.Atoi on a 64-bit platform: an optional sign, at least one digit,
      and a value inside the int64 range; anything else is an error. */
  function Atoi(s: string): (r: Option<int>)
    ensures r.Some? ==> -MAX_INT64 - 1 <= r.value <= MAX_INT64
    ensures r.Some? ==> s != ""
  {
    if s == "" then None
    else
      var negative := s[0] == '-';
      var digits := if s[0] == '-' || s[0] == '+' then s[1..] else s;
      if digits == "" || !AllDigits(digits) then None
      else
        var v: int := DecimalValue(digits);
        if negative then (if v > MAX_INT64 + 1 then None else Some(-v))
        else (if v > MAX_INT64 then None else Some(v))
  }

  function Digit(d: nat): char
    requires d < 10
  {
    ('0' as int + d) as char
  }

  /** Decimal notation without leading zeros. */
  function Itoa(n: nat): (s: string)
    ensures s != "" && AllDigits(s)
  {
    if n < 10 then [Digit(n)] else Itoa(n / 10) + [Digit(n % 10)]
  }

  lemma {:induction false} DecimalOfItoa(n: nat)
    ensures DecimalValue(Itoa(n)) == n
  {
    var s := Itoa(n);
    if n < 10 {
      assert s[..|s| - 1] == "";
    } else {
      DecimalOfItoa(n / 10);
      assert s[..|s| - 1] == Itoa(n / 10);
    }
  }

  lemma AtoiUnsigned(d: string)
    requires d != "" && AllDigits(d)
    ensures Atoi(d) == if DecimalValue(d) <= MAX_INT64 then Some(DecimalValue(d)) else None
  {
    assert IsDigit(d[0]);
  }

  lemma AtoiSigned(d: string, sign: char)
    requires d != "" && AllDigits(d) && (sign == '+' || sign == '-')
    ensures var v: int := DecimalValue(d);
            Atoi([sign] + d) == if sign == '+' then (if v <= MAX_INT64 then Some(v) else None)
                                else (if v <= MAX_INT64 + 1 then Some(-v) else None)
  {
    assert ([sign] + d)[0] == sign && ([sign] + d)[1..] == d;
  }

  predicate Signed(s: string) { s != "" && (s[0] == '+' || s[0] == '-') }

  /** Only digits, after at most one sign, are a number. */
  lemma AtoiNeedsDigits(s: string)
    requires Atoi(s).Some?
    ensures var digits := if Signed(s) then s[1..] else s; digits != "" && AllDigits(digits)
    ensures var v: int := DecimalValue(if Signed(s) then s[1..] else s); Atoi(s).value == if s[0] == '-' then -v else v
  {}

  /** The digits count in tens from the left. */
  lemma {:induction false} DecimalAdds(s: string, t: string)
    requires AllDigits(s) && AllDigits(t)
    ensures AllDigits(s + t) && DecimalValue(s + t) == DecimalValue(s) * Pow10(|t|) + DecimalValue(t)
    decreases |t|
  {
    if t == "" {
      assert s + t == s;
    } else {
      var front := t[..|t| - 1];
      assert (s + t)[..|s + t| - 1] == s + front;
      DecimalAdds(s, front);
      Shift(DecimalValue(s), Pow10(|front|), DecimalValue(front), (t[|t| - 1] as int) - ('0' as int));
    }
  }

  lemma Shift(a: int, p: int, b: int, d: int)
    ensures 10 * (a * p + b) + d == a * (10 * p) + (10 * b + d)
  {}

  function Pow10(n: nat): nat { if n == 0 then 1 else 10 * Pow10(n - 1) }

  /** Decimal notation is read back with either sign, exactly if it fits 64 bits. */
  lemma AtoiOfItoa(n: nat)
    ensures Atoi(Itoa(n)) == if n <= MAX_INT64 then Some(n) else None
    ensures Atoi(['+'] + Itoa(n)) == if n <= MAX_INT64 then Some(n) else None
    ensures Atoi(['-'] + Itoa(n)) == if n <= MAX_INT64 + 1 then Some(0 - n) else None
  {
    DecimalOfItoa(n);
    AtoiUnsigned(Itoa(n));
    AtoiSigned(Itoa(n), '+');
    AtoiSigned(Itoa(n), '-');
  }
}
