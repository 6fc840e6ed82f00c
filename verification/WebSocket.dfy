/** internal/ai/stream/ws.go: the hand-written frames of RFC 6455, sections 5.2 and
    5.3. Writes succeed while the connection is open. */
module WebSocket {
  import opened Common

  type Byte = n: int | 0 <= n < 256

  type Bytes = seq<Byte>

  // -------------------------------------------------------------------- big endian

  function Pow256(k: nat): nat { if k == 0 then 1 else 256 * Pow256(k - 1) }

  /** The k low bytes of a number, most significant first. */
  function BigEndian(n: nat, k: nat): (r: Bytes)
    ensures |r| == k
  {
    if k == 0 then [] else BigEndian(n / 256, k - 1) + [n % 256]
  }

  function Number(b: Bytes): (n: nat) {
    if b == [] then 0 else 256 * Number(b[..|b| - 1]) + b[|b| - 1]
  }

  lemma {:induction false} NumberOfBigEndian(n: nat, k: nat)
    requires n < Pow256(k)
    ensures Number(BigEndian(n, k)) == n
  {
    if k > 0 {
      NumberOfBigEndian(n / 256, k - 1);
      NumberEnd(BigEndian(n / 256, k - 1), n % 256);
    }
  }

  lemma NumberEnd(b: Bytes, c: Byte)
    ensures Number(b + [c]) == 256 * Number(b) + c
  {}

  lemma {:induction false} NumberInRange(b: Bytes)
    ensures Number(b) < Pow256(|b|)
  {
    if b != [] { NumberInRange(b[..|b| - 1]); }
  }

  /** The first byte is the most significant one. */
  lemma {:induction false} NumberHead(c: Byte, b: Bytes)
    ensures Number([c] + b) == c * Pow256(|b|) + Number(b)
    decreases |b|
  {
    if b == [] {
      assert [c] + b == [c] && [c][..0] == [];
    } else {
      var front, last := b[..|b| - 1], b[|b| - 1];
      assert ([c] + b)[..|b|] == [c] + front && ([c] + b)[|b|] == last;
      NumberHead(c, front);
      Distribute(c, Pow256(|front|), Number(front), last);
    }
  }

  lemma Distribute(c: int, p: int, n: int, x: int)
    ensures 256 * (c * p + n) + x == c * (256 * p) + (256 * n + x)
  {}

  lemma Widths()
    ensures Pow256(2) == 65536 && Pow256(8) == TWO_64
  {}

  // ---------------------------------------------------------------------- masking

  /** Bitwise exclusive or of the k low bits. */
  function XorBits(a: nat, b: nat, k: nat): (r: nat)
    ensures r < Pow2(k)
  {
    if k == 0 then 0 else 2 * XorBits(a / 2, b / 2, k - 1) + (a + b) % 2
  }

  function Xor(a: Byte, b: Byte): Byte {
    EightBits();
    XorBits(a, b, 8)
  }

  lemma EightBits()
    ensures Pow2(8) == 256
  {}

  lemma Halves(q: nat, r: nat)
    requires r < 2
    ensures (2 * q + r) / 2 == q && (2 * q + r) % 2 == r
  {}

  lemma Parity(x: nat, a: nat, b: nat)
    requires x % 2 == (a + b) % 2
    ensures (x + b) % 2 == a % 2
  {}

  lemma {:induction false} XorBitsTwice(a: nat, b: nat, k: nat)
    requires a < Pow2(k)
    ensures XorBits(XorBits(a, b, k), b, k) == a
  {
    if k > 0 {
      Halves(XorBits(a / 2, b / 2, k - 1), (a + b) % 2);
      XorBitsTwice(a / 2, b / 2, k - 1);
      Parity(XorBits(a, b, k), a, b);
    }
  }

  lemma XorTwice(a: Byte, b: Byte)
    ensures Xor(Xor(a, b), b) == a
  {
    EightBits();
    XorBitsTwice(a, b, 8);
  }

  /** Bit i of a number. */
  function Bit(x: nat, i: nat): nat { if i == 0 then x % 2 else Bit(x / 2, i - 1) }

  lemma {:induction false} BitIs(x: nat, i: nat)
    ensures Bit(x, i) == x / Pow2(i) % 2
  {
    if i > 0 {
      BitIs(x / 2, i - 1);
      HalfThen(x, Pow2(i - 1));
    }
  }

  lemma HalfThen(x: nat, p: nat)
    requires p > 0
    ensures x / 2 / p == x / (2 * p)
  {
    var q, r := x / 2, x % 2;
    var q1, r1 := q / p, q % p;
    assert x == 2 * q + r && q == p * q1 + r1;
    assert x == (2 * p) * q1 + (2 * r1 + r) by { Regroup(p, q1, r1, r); }
    QuotientIs(x, 2 * p, q1, 2 * r1 + r);
  }

  lemma Regroup(p: nat, q: nat, a: nat, b: nat)
    ensures 2 * (p * q + a) + b == (2 * p) * q + (2 * a + b)
  {}

  lemma QuotientIs(x: nat, k: nat, q: nat, r: nat)
    requires k > 0 && x == k * q + r && r < k
    ensures x / k == q
  {
    var q1, r1 := x / k, x % k;
    assert x == q1 * k + r1;
    assert (q1 - q) * k == r - r1;
    SmallMultiple(q1 - q, k);
  }

  lemma {:induction false} XorBit(a: nat, b: nat, k: nat, i: nat)
    requires i < k
    ensures Bit(XorBits(a, b, k), i) == if Bit(a, i) == Bit(b, i) then 0 else 1
  {
    Halves(XorBits(a / 2, b / 2, k - 1), (a + b) % 2);
    if i == 0 { ParityOfSum(a, b); } else { XorBit(a / 2, b / 2, k - 1, i - 1); }
  }

  lemma ParityOfSum(a: nat, b: nat)
    ensures (a + b) % 2 == if a % 2 == b % 2 then 0 else 1
  {}

  lemma {:induction false} BitsDetermine(x: nat, y: nat, k: nat)
    requires x < Pow2(k) && y < Pow2(k) && forall i :: 0 <= i < k ==> Bit(x, i) == Bit(y, i)
    ensures x == y
  {
    if k > 0 {
      forall i | 0 <= i < k - 1 ensures Bit(x / 2, i) == Bit(y / 2, i) { assert Bit(x, i + 1) == Bit(y, i + 1); }
      BitsDetermine(x / 2, y / 2, k - 1);
      assert Bit(x, 0) == Bit(y, 0);
    }
  }

  /** The exclusive or of two bytes is the one byte whose every bit is 1 exactly if the
      two bits differ. */
  lemma XorIs(a: Byte, b: Byte, x: Byte)
    ensures x == Xor(a, b) <==>
            forall i :: 0 <= i < 8 ==> x / Pow2(i) % 2 == if a / Pow2(i) % 2 == b / Pow2(i) % 2 then 0 else 1
  {
    EightBits();
    forall i | 0 <= i < 8
      ensures Bit(a, i) == a / Pow2(i) % 2 && Bit(b, i) == b / Pow2(i) % 2 && Bit(x, i) == x / Pow2(i) % 2
      ensures Bit(Xor(a, b), i) == if Bit(a, i) == Bit(b, i) then 0 else 1
    {
      BitIs(a, i);
      BitIs(b, i);
      BitIs(x, i);
      XorBit(a, b, 8, i);
    }
    if forall i :: 0 <= i < 8 ==> x / Pow2(i) % 2 == if a / Pow2(i) % 2 == b / Pow2(i) % 2 then 0 else 1 {
      forall i | 0 <= i < 8 ensures Bit(x, i) == Bit(Xor(a, b), i) {
        assert x / Pow2(i) % 2 == if a / Pow2(i) % 2 == b / Pow2(i) % 2 then 0 else 1;
      }
      BitsDetermine(x, Xor(a, b), 8);
    }
  }

  /** No key, or four bytes. */
  type Key = k: Bytes | |k| == 0 || |k| == 4 witness []

  function Masked(data: Bytes, key: Key): (r: Bytes)
    ensures |r| == |data|
  {
    if key == [] then data else seq(|data|, i requires 0 <= i < |data| => Xor(data[i], key[i % 4]))
  }

  /** Masking twice with the same key gives the data back. */
  lemma MaskTwice(data: Bytes, key: Key)
    ensures Masked(Masked(data, key), key) == data
  {
    if key != [] {
      forall i | 0 <= i < |data| ensures Masked(Masked(data, key), key)[i] == data[i] {
        XorTwice(data[i], key[i % 4]);
      }
    }
  }

  // --------------------------------------------------------------------- encoding

  /** The length field: one byte, or a marker and two or eight more. */
  function LengthField(n: nat): (r: Bytes)
    ensures r != [] && r[0] < 128
  {
    if n <= 125 then [n]
    else if n <= 65535 then [126] + BigEndian(n, 2)
    else [127] + BigEndian(n, 8)
  }

  /** An unfragmented text frame; a client's frame carries a key. */
  function Frame(payload: Bytes, key: Key): Bytes {
    var field := LengthField(|payload|);
    [0x81] + [if key == [] then field[0] else field[0] + 128] + field[1..] + key + Masked(payload, key)
  }

  /** A server's frame: a final text frame, the length in one byte, or after a marker in
      two or eight with the most significant first, and the payload as it is. */
  lemma FrameIs(payload: Bytes)
    requires |payload| < TWO_64
    ensures var n, f := |payload|, Frame(payload, []);
            && f[0] == 0x81 && f[|f| - n..] == payload
            && (n <= 125 ==> |f| == n + 2 && f[1] == n)
            && (125 < n <= 65535 ==> |f| == n + 4 && f[1] == 126 && f[2] == n / 256 && f[3] == n % 256)
            && (65535 < n ==> |f| == n + 10 && f[1] == 127 && Number(f[2..10]) == n)
  {
    var n, f := |payload|, Frame(payload, []);
    Widths();
    if n > 65535 {
      NumberOfBigEndian(n, 8);
      assert f[2..10] == BigEndian(n, 8);
    } else if n > 125 {
      assert BigEndian(n, 2) == BigEndian(n / 256, 1) + [n % 256];
      assert BigEndian(n / 256, 1) == [n / 256 % 256];
    }
  }

  // --------------------------------------------------------------------- decoding

  datatype Read = Payload(data: Bytes, rest: Bytes) | Short | Closed | Panic

  /** How many bytes the length takes beyond the second header byte. */
  function Extra(b: Byte): nat { if b % 128 == 126 then 2 else if b % 128 == 127 then 8 else 0 }

  function KeySize(b: Byte): nat { if b >= 128 then 4 else 0 }

  /** A length of 2^63 or more becomes negative. */
  function Length(b: Byte, more: Bytes): int { if more == [] then b % 128 else Wrap64(Number(more)) }

  function Decode(input: Bytes): Read {
    if |input| < 2 then Short
    else if input[0] % 16 == 8 then Closed
    else
      var b := input[1];
      var start := 2 + Extra(b) + KeySize(b);
      if |input| < start then Short
      else
        var length := Length(b, input[2..2 + Extra(b)]);
        if length < 0 then Panic
        else if |input| < start + length then Short
        else Payload(Masked(input[start..start + length], input[2 + Extra(b)..start]), input[start + length..])
  }

  /** What is left after reading one frame: a short read takes everything, a close
      frame is left after its header, and an impossible length before its payload. */
  function Unread(input: Bytes): Bytes {
    match Decode(input)
    case Payload(_, rest) => rest
    case Short => []
    case Closed => if |input| < 2 then [] else input[2..]
    case Panic =>
      if |input| < 2 then []
      else
        var start := 2 + Extra(input[1]) + KeySize(input[1]);
        if |input| < start then [] else input[start..]
  }

  // ------------------------------------------------------------------- round trips

  /** The second byte of a frame, with or without the mask bit. */
  function Second(n: nat, key: Key): Byte {
    if key == [] then LengthField(n)[0] else LengthField(n)[0] + 128
  }

  lemma LengthIsRead(n: nat, key: Key)
    requires n <= MAX_INT64
    ensures var b, more := Second(n, key), LengthField(n)[1..];
            Extra(b) == |more| && KeySize(b) == |key| && Length(b, more) == n
  {
    Widths();
    if 126 <= n <= 65535 {
      NumberOfBigEndian(n, 2);
      assert LengthField(n)[1..] == BigEndian(n, 2);
    } else if n > 65535 {
      NumberOfBigEndian(n, 8);
      assert LengthField(n)[1..] == BigEndian(n, 8);
    }
  }

  lemma Slices(head: Bytes, more: Bytes, key: Bytes, body: Bytes, rest: Bytes)
    ensures var f, e := head + more + key + body + rest, |head| + |more|;
            && f[..|head|] == head && f[|head|..e] == more && f[e..e + |key|] == key
            && f[e + |key|..e + |key| + |body|] == body && f[e + |key| + |body|..] == rest
  {}

  /** Where the parts of a frame lie in the input. */
  lemma FrameParts(payload: Bytes, key: Key, rest: Bytes)
    ensures var f, more := Frame(payload, key) + rest, LengthField(|payload|)[1..];
            var e := 2 + |more|;
            && |Frame(payload, key)| == e + |key| + |payload|
            && f[0] == 0x81 && f[1] == Second(|payload|, key) && f[2..e] == more && f[e..e + |key|] == key
            && f[e + |key|..e + |key| + |payload|] == Masked(payload, key)
            && f[e + |key| + |payload|..] == rest
  {
    var head: Bytes := [0x81] + [Second(|payload|, key)];
    Slices(head, LengthField(|payload|)[1..], key, Masked(payload, key), rest);
    var f := Frame(payload, key) + rest;
    assert f[0] == f[..2][0] && f[1] == f[..2][1];
  }

  /** Reading a written frame returns its payload and leaves what follows it. */
  lemma RoundTrip(payload: Bytes, key: Key, rest: Bytes)
    requires |payload| <= MAX_INT64
    ensures Decode(Frame(payload, key) + rest) == Payload(payload, rest)
  {
    FrameParts(payload, key, rest);
    LengthIsRead(|payload|, key);
    MaskTwice(payload, key);
  }

  const HELLO: Bytes := [0x48, 0x65, 0x6c, 0x6c, 0x6f]

  lemma ShortFrameIsRead(second: Byte, key: Key, data: Bytes, input: Bytes)
    requires |data| <= 125 && second == |data| + (if key == [] then 0 else 128)
    requires input == [0x81] + [second] + key + data
    ensures Decode(input) == Payload(Masked(data, key), [])
  {
    var payload := Masked(data, key);
    MaskTwice(data, key);
    assert LengthField(|payload|)[1..] == [];
    assert input == Frame(payload, key) && input + [] == input;
    RoundTrip(payload, key, []);
  }

  /** Every number is half of the one before. */
  ghost predicate Halving(a: seq<nat>) { forall i :: 0 <= i < |a| - 1 ==> a[i + 1] == a[i] / 2 }

  lemma {:induction false} XorByHalves(a: seq<nat>, b: seq<nat>, x: seq<nat>, k: nat)
    requires |a| == |b| == |x| == k + 1 && Halving(a) && Halving(b) && Halving(x) && x[k] == 0
    requires forall i :: 0 <= i < k ==> x[i] % 2 == (a[i] + b[i]) % 2
    ensures XorBits(a[0], b[0], k) == x[0]
    decreases k
  {
    if k > 0 {
      assert a[1..][0] == a[0] / 2 && b[1..][0] == b[0] / 2 && x[1..][0] == x[0] / 2;
      XorByHalves(a[1..], b[1..], x[1..], k - 1);
    }
  }

  lemma XorFromHalves(a: Byte, b: Byte, halfA: seq<nat>, halfB: seq<nat>, halfX: seq<nat>)
    requires |halfA| == |halfB| == |halfX| == 9 && halfA[0] == a && halfB[0] == b && halfX[8] == 0
    requires Halving(halfA) && Halving(halfB) && Halving(halfX)
    requires forall i :: 0 <= i < 8 ==> halfX[i] % 2 == (halfA[i] + halfB[i]) % 2
    ensures Xor(a, b) == halfX[0]
  {
    XorByHalves(halfA, halfB, halfX, 8);
  }

  lemma LetterH(a: Byte, b: Byte)
    requires a == 0x7f && b == 0x37
    ensures Xor(a, b) == 0x48
  {
    XorFromHalves(a, b, [127, 63, 31, 15, 7, 3, 1, 0, 0], [55, 27, 13, 6, 3, 1, 0, 0, 0], [72, 36, 18, 9, 4, 2, 1, 0, 0]);
  }

  lemma LetterE(a: Byte, b: Byte)
    requires a == 0x9f && b == 0xfa
    ensures Xor(a, b) == 0x65
  {
    XorFromHalves(a, b, [159, 79, 39, 19, 9, 4, 2, 1, 0], [250, 125, 62, 31, 15, 7, 3, 1, 0], [101, 50, 25, 12, 6, 3, 1, 0, 0]);
  }

  lemma FirstL(a: Byte, b: Byte)
    requires a == 0x4d && b == 0x21
    ensures Xor(a, b) == 0x6c
  {
    XorFromHalves(a, b, [77, 38, 19, 9, 4, 2, 1, 0, 0], [33, 16, 8, 4, 2, 1, 0, 0, 0], [108, 54, 27, 13, 6, 3, 1, 0, 0]);
  }

  lemma SecondL(a: Byte, b: Byte)
    requires a == 0x51 && b == 0x3d
    ensures Xor(a, b) == 0x6c
  {
    XorFromHalves(a, b, [81, 40, 20, 10, 5, 2, 1, 0, 0], [61, 30, 15, 7, 3, 1, 0, 0, 0], [108, 54, 27, 13, 6, 3, 1, 0, 0]);
  }

  lemma LetterO(a: Byte, b: Byte)
    requires a == 0x58 && b == 0x37
    ensures Xor(a, b) == 0x6f
  {
    XorFromHalves(a, b, [88, 44, 22, 11, 5, 2, 1, 0, 0], [55, 27, 13, 6, 3, 1, 0, 0, 0], [111, 55, 27, 13, 6, 3, 1, 0, 0]);
  }

  lemma HelloIsMasked(data: Bytes, key: Key)
    requires data == [0x7f, 0x9f, 0x4d, 0x51, 0x58] && key == [0x37, 0xfa, 0x21, 0x3d]
    ensures Masked(data, key) == HELLO
  {
    LetterH(data[0], key[0]);
    LetterE(data[1], key[1]);
    FirstL(data[2], key[2]);
    SecondL(data[3], key[3]);
    LetterO(data[4], key[0]);
  }

  /** The text "Hello" as section 5.7 of RFC 6455 writes it, without and with a mask. */
  lemma HelloIsRead(key: Key, data: Bytes)
    requires key == [0x37, 0xfa, 0x21, 0x3d] && data == [0x7f, 0x9f, 0x4d, 0x51, 0x58]
    ensures Decode([0x81] + [0x05] + [] + HELLO) == Payload(HELLO, [])
    ensures Decode([0x81] + [0x85] + key + data) == Payload(HELLO, [])
  {
    var five, maskedFive: Byte := 0x05, 0x85;
    ShortFrameIsRead(five, [], HELLO, [0x81] + [five] + [] + HELLO);
    ShortFrameIsRead(maskedFive, key, data, [0x81] + [maskedFive] + key + data);
    HelloIsMasked(data, key);
  }

  lemma PrefixHeader(payload: Bytes, key: Key, k: nat)
    requires 2 <= k <= |Frame(payload, key)|
    ensures var g, more := Frame(payload, key)[..k], LengthField(|payload|)[1..];
            && |Frame(payload, key)| == 2 + |more| + |key| + |payload|
            && g[0] == 0x81 && g[1] == Second(|payload|, key) && (k >= 2 + |more| ==> g[2..2 + |more|] == more)
  {
    FrameParts(payload, key, []);
    assert Frame(payload, key) + [] == Frame(payload, key);
  }

  /** A frame cut off anywhere is not mistaken for a shorter one. */
  lemma PrefixIsShort(payload: Bytes, key: Key, k: nat)
    requires |payload| <= MAX_INT64 && k < |Frame(payload, key)|
    ensures Decode(Frame(payload, key)[..k]) == Short
  {
    if k >= 2 {
      PrefixHeader(payload, key, k);
      LengthIsRead(|payload|, key);
      var g, start := Frame(payload, key)[..k], 1 + |LengthField(|payload|)| + |key|;
      if k >= start { BodyIsShort(g, |payload|); } else { HeaderIsShort(g, start); }
    }
  }

  lemma HeaderIsShort(input: Bytes, start: nat)
    requires 2 <= |input| < start && input[0] == 0x81 && start == 2 + Extra(input[1]) + KeySize(input[1])
    ensures Decode(input) == Short
  {}

  lemma BodyIsShort(input: Bytes, n: nat)
    requires |input| >= 2 && input[0] == 0x81
    requires var b := input[1];
             var start := 2 + Extra(b) + KeySize(b);
             start <= |input| < start + n && Length(b, input[2..2 + Extra(b)]) == n
    ensures Decode(input) == Short
  {}

  lemma LengthBound(b: Byte, more: Bytes)
    requires |more| == Extra(b)
    ensures |more| == 0 ==> Length(b, more) <= 125
    ensures |more| == 2 ==> Length(b, more) <= 65535
  {
    Widths();
    NumberInRange(more);
  }

  /** The length field is minimal: no input the decoder reads as this payload is
      shorter than the frame. */
  lemma FrameIsShortest(input: Bytes, payload: Bytes, rest: Bytes)
    requires Decode(input) == Payload(payload, rest)
    ensures |input| >= |Frame(payload, [])| + |rest|
  {
    LengthBound(input[1], input[2..2 + Extra(input[1])]);
    FrameParts(payload, [], []);
  }

  // ---------------------------------------------------------------------- streams

  /** All payloads that can be read, and how reading ends. */
  function Drain(input: Bytes): (seq<Bytes>, Read) {
    var r := Decode(input);
    if r.Payload? then
      var (data, end) := Drain(r.rest);
      ([r.data] + data, end)
    else ([], r)
  }

  function Frames(ps: seq<Bytes>, keys: seq<Key>): Bytes
    requires |ps| == |keys|
  {
    if ps == [] then [] else Frame(ps[0], keys[0]) + Frames(ps[1..], keys[1..])
  }

  lemma DrainHead(input: Bytes, data: Bytes, rest: Bytes)
    requires Decode(input) == Payload(data, rest)
    ensures Drain(input) == ([data] + Drain(rest).0, Drain(rest).1)
  {}

  /** However many frames follow each other, with whatever keys, their payloads are
      read in order and the rest of the input is reached. */
  lemma {:induction false} StreamIsRead(ps: seq<Bytes>, keys: seq<Key>, rest: Bytes)
    requires |ps| == |keys| && forall i :: 0 <= i < |ps| ==> |ps[i]| <= MAX_INT64
    ensures Drain(Frames(ps, keys) + rest) == (ps + Drain(rest).0, Drain(rest).1)
  {
    var (data, end) := Drain(rest);
    if ps == [] {
      assert Frames(ps, keys) + rest == rest;
      assert ps + data == data;
    } else {
      var first, others := Frame(ps[0], keys[0]), Frames(ps[1..], keys[1..]);
      Assoc(first, others, rest);
      RoundTrip(ps[0], keys[0], others + rest);
      DrainHead(first + (others + rest), ps[0], others + rest);
      StreamIsRead(ps[1..], keys[1..], rest);
      Assoc([ps[0]], ps[1..], data);
      HeadAndTail(ps);
    }
  }

  // ----------------------------------------------------------------------- writer

  const CLOSE: Bytes := [0x88, 0x00]

  datatype Writer = Writer(sent: Bytes, closed: bool)

  /** An event, or the last event (done or error) that also closes. */
  datatype Op = Send(payload: Bytes) | Finish(payload: Bytes)

  function Write(w: Writer, payload: Bytes): Writer { if w.closed then w else w.(sent := w.sent + Frame(payload, [])) }

  /** The connection is closed with the writer, so a second close sends nothing. */
  function Step(w: Writer, op: Op): Writer {
    match op
    case Send(p) => Write(w, p)
    case Finish(p) => if w.closed then w else Writer(Write(w, p).sent + CLOSE, true)
  }

  function Run(w: Writer, ops: seq<Op>): Writer
    decreases |ops|
  {
    if ops == [] then w else Run(Step(w, ops[0]), ops[1..])
  }

  /** The payloads up to and including the first closing event. */
  function Delivered(ops: seq<Op>): seq<Bytes> {
    if ops == [] then [] else [ops[0].payload] + (if ops[0].Finish? then [] else Delivered(ops[1..]))
  }

  predicate Closes(ops: seq<Op>) { exists i :: 0 <= i < |ops| && ops[i].Finish? }

  function NoKeys(n: nat): seq<Key> { seq(n, _ => []) }

  function Output(ops: seq<Op>): Bytes {
    Frames(Delivered(ops), NoKeys(|Delivered(ops)|)) + if Closes(ops) then CLOSE else []
  }

  lemma {:induction false} ClosedIsFinal(w: Writer, ops: seq<Op>)
    requires w.closed
    ensures Run(w, ops) == w
    decreases |ops|
  {
    if ops != [] { ClosedIsFinal(w, ops[1..]); }
  }

  lemma ClosesTail(ops: seq<Op>)
    requires ops != [] && ops[0].Send?
    ensures Closes(ops) == Closes(ops[1..])
  {}

  lemma NoKeysTail(n: nat)
    ensures NoKeys(n + 1)[0] == [] && NoKeys(n + 1)[1..] == NoKeys(n)
  {}

  lemma FramesHead(p: Bytes, ps: seq<Bytes>)
    ensures Frames([p] + ps, NoKeys(|ps| + 1)) == Frame(p, []) + Frames(ps, NoKeys(|ps|))
  {
    var all := [p] + ps;
    assert all[0] == p && all[1..] == ps;
    NoKeysTail(|ps|);
  }

  lemma OutputHead(ops: seq<Op>)
    requires ops != []
    ensures Output(ops) == Frame(ops[0].payload, []) + if ops[0].Finish? then CLOSE else Output(ops[1..])
  {
    var p, ds := ops[0].payload, if ops[0].Finish? then [] else Delivered(ops[1..]);
    FramesHead(p, ds);
    if ops[0].Finish? {
      assert Frames(ds, NoKeys(|ds|)) == [];
      assert Frame(p, []) + [] == Frame(p, []);
    } else {
      ClosesTail(ops);
      Assoc(Frame(p, []), Frames(ds, NoKeys(|ds|)), if Closes(ops) then CLOSE else []);
    }
  }

  lemma {:induction false} WriterSends(w: Writer, ops: seq<Op>)
    requires !w.closed
    ensures Run(w, ops).sent == w.sent + Output(ops)
    decreases |ops|
  {
    if ops != [] {
      OutputHead(ops);
      var w', f := Step(w, ops[0]), Frame(ops[0].payload, []);
      if ops[0].Finish? {
        ClosedIsFinal(w', ops[1..]);
        Assoc(w.sent, f, CLOSE);
      } else {
        WriterSends(w', ops[1..]);
        Assoc(w.sent, f, Output(ops[1..]));
      }
    }
  }

  /** The peer reads every event up to the closing one, in order, then the close,
      and nothing after it. */
  lemma PeerReads(ops: seq<Op>)
    requires forall i :: 0 <= i < |ops| ==> |ops[i].payload| <= MAX_INT64
    ensures Drain(Run(Writer([], false), ops).sent) == (Delivered(ops), if Closes(ops) then Closed else Short)
  {
    var w, ds := Writer([], false), Delivered(ops);
    var rest := if Closes(ops) then CLOSE else [];
    WriterSends(w, ops);
    assert w.sent + Output(ops) == Output(ops);
    DeliveredAreSent(ops);
    StreamIsRead(ds, NoKeys(|ds|), rest);
    StreamEnds(rest);
    assert ds + [] == ds;
  }

  lemma StreamEnds(rest: Bytes)
    requires rest == CLOSE || rest == []
    ensures Drain(rest) == ([], if rest == CLOSE then Closed else Short)
  {}

  lemma {:induction false} DeliveredAreSent(ops: seq<Op>)
    requires forall i :: 0 <= i < |ops| ==> |ops[i].payload| <= MAX_INT64
    ensures forall i :: 0 <= i < |Delivered(ops)| ==> |Delivered(ops)[i]| <= MAX_INT64
  {
    if ops != [] && ops[0].Send? { DeliveredAreSent(ops[1..]); }
  }

  lemma SliceOfTail(s: Bytes, a: nat, n: nat)
    requires a + n <= |s|
    ensures s[a..][..n] == s[a..a + n] && s[a..][n..] == s[a + n..]
  {}

  // ------------------------------------------------------------------- the object

  /** Both directions of a hijacked connection. */
  class Connection {
    var sent: Bytes
    var received: Bytes
    var closed: bool
    var open: bool

    ghost predicate Valid()
      reads this
    {
      open == !closed
    }

    ghost function View(): Writer
      reads this
    {
      Writer(sent, closed)
    }

    constructor ()
      ensures Valid() && View() == Writer([], false) && received == []
    {
      sent, received, closed, open := [], [], false, true;
    }

    method ConnWrite(data: Bytes)
      modifies this`sent
      ensures sent == if open then old(sent) + data else old(sent)
    {
      if open { sent := sent + data; }
    }

    method WriteFrame(payload: Bytes)
      requires Valid() && |payload| <= MAX_INT64
      modifies this`sent
      ensures Valid() && View() == Write(old(View()), payload)
    {
      if closed { return; }
      var frame: Bytes := [0x81];
      var n := |payload|;
      if n <= 125 {
        frame := frame + [n];
      } else if n <= 65535 {
        frame := frame + [126];
        frame := frame + BigEndian(n, 2);
      } else {
        frame := frame + [127];
        frame := frame + BigEndian(n, 8);
      }
      frame := frame + payload;
      assert frame == Frame(payload, []);
      ConnWrite(frame);
    }

    /** Done and Error: the last event, the close frame, and the end. */
    method SendLast(payload: Bytes)
      requires Valid() && |payload| <= MAX_INT64
      modifies this
      ensures Valid() && View() == Step(old(View()), Finish(payload)) && received == old(received)
    {
      WriteFrame(payload);
      closed := true;
      ConnWrite(CLOSE);
      open := false;
    }

    /** The unmasking loop works in place. */
    static method Unmask(payload: array<Byte>, key: Key)
      requires key != []
      modifies payload
      ensures payload[..] == Masked(old(payload[..]), key)
    {
      for i := 0 to payload.Length
        invariant forall j :: 0 <= j < payload.Length ==>
                    payload[j] == if j < i then Xor(old(payload[j]), key[j % 4]) else old(payload[j])
      {
        payload[i] := Xor(payload[i], key[i % 4]);
      }
    }

    /** io.ReadFull on the connection; a short read fails. */
    method ReadFull(n: nat) returns (data: Bytes, ok: bool)
      modifies this`received
      ensures ok == (n <= |old(received)|)
      ensures ok ==> data == old(received)[..n] && received == old(received)[n..]
      ensures !ok ==> received == []
    {
      if n > |received| {
        received := [];
        return [], false;
      }
      data, ok := received[..n], true;
      received := received[n..];
    }

    method ReadBody(length: nat, key: Key) returns (data: Bytes, ok: bool)
      modifies this`received
      ensures ok == (length <= |old(received)|)
      ensures ok ==> data == Masked(old(received)[..length], key) && received == old(received)[length..]
      ensures !ok ==> received == []
    {
      var body;
      body, ok := ReadFull(length);
      if !ok { return [], false; }
      var payload := new Byte[length](i requires 0 <= i < length => body[i]);
      assert payload[..] == body;
      if key != [] { Unmask(payload, key); }
      return payload[..], true;
    }

    method ReadFrame() returns (r: Read)
      modifies this`received
      ensures r == Decode(old(received)) && received == Unread(old(received))
    {
      ghost var input := received;
      var header, ok := ReadFull(2);
      if !ok { return Short; }
      if header[0] % 16 == 8 { return Closed; }
      var b, more := header[1], [];
      var length := b % 128;
      if Extra(b) > 0 {
        more, ok := ReadFull(Extra(b));
        if !ok { return Short; }
        length := Wrap64(Number(more));
      }
      assert more == input[2..2 + Extra(b)];
      var key: Bytes := [];
      if b >= 128 {
        key, ok := ReadFull(4);
        if !ok { return Short; }
      }
      ghost var start := 2 + Extra(b) + KeySize(b);
      assert key == input[2 + Extra(b)..start] && received == input[start..];
      if length < 0 { return Panic; }
      var data;
      data, ok := ReadBody(length, key);
      if !ok { return Short; }
      SliceOfTail(input, start, length);
      return Payload(data, received);
    }
  }
}
