/** retryDelay's exponential backoff: 2^n seconds capped at ten minutes, except
    where the 64-bit shift and product overflow. */
module RetryDelays {
  import opened Common
  import opened RuntimeModel

  /** The documented delay, in nanoseconds. */
  function Intended(n: nat): nat { (if Pow2(n) > 600 then 600 else Pow2(n)) * SECOND }

  function Backoff(n: nat): int { RetryDelay(ExponentialBackoff, n, 0) }

  lemma {:induction false} Pow2Monotone(a: nat, b: nat)
    requires a <= b
    ensures 1 <= Pow2(a) <= Pow2(b)
  {
    if b > 0 { Pow2Monotone(if a == b then a - 1 else a, b - 1); }
  }

  /** The product retryDelay computes before capping it. */
  function Product(n: nat): int { Wrap64(Wrap64(Pow2(n)) * SECOND) }

  lemma WrapIsModular(x: int, y: int, k: int)
    requires x - y == TWO_64 * k
    ensures Wrap64(x) == Wrap64(y)
  {
    assert x % TWO_64 == y % TWO_64;
  }

  lemma ProductDoubles(n: nat)
    ensures Product(n + 1) == Wrap64(2 * Product(n))
  {
    var p := Pow2(n);
    var a, b, c := Wrap64(p), Wrap64(2 * p), Wrap64(Wrap64(p) * SECOND);
    var i, j, k := (p - a) / TWO_64, (2 * p - b) / TWO_64, (a * SECOND - c) / TWO_64;
    assert p - a == TWO_64 * i && 2 * p - b == TWO_64 * j && a * SECOND - c == TWO_64 * k;
    WrapIsModular(b * SECOND, 2 * c, (2 * i - j) * SECOND + 2 * k);
  }

  /** Twenty-two doublings of 2^33 seconds in 64-bit arithmetic. */
  lemma Doublings(s: seq<int>)
    requires |s| == 23 && s[0] == 8589934592000000000
    requires forall j :: 0 < j < 23 ==> s[j] == Wrap64(2 * s[j - 1])
    ensures forall j :: 0 < j < 22 ==> if j + 33 in LUCKY then s[j] > 600 * SECOND else s[j] <= 0
    ensures s[22] == 0
  {
    assert s[1] == Wrap64(2 * s[0]) == -1266874889709551616;
    assert s[2] == Wrap64(2 * s[1]) == -2533749779419103232;
    assert s[3] == Wrap64(2 * s[2]) == -5067499558838206464;
    assert s[4] == Wrap64(2 * s[3]) == 8311744956033138688;
    assert s[5] == Wrap64(2 * s[4]) == -1823254161643274240;
    assert s[6] == Wrap64(2 * s[5]) == -3646508323286548480;
    assert s[7] == Wrap64(2 * s[6]) == -7293016646573096960;
    assert s[8] == Wrap64(2 * s[7]) == 3860710780563357696;
    assert s[9] == Wrap64(2 * s[8]) == 7721421561126715392;
    assert s[10] == Wrap64(2 * s[9]) == -3003900951456120832;
    assert s[11] == Wrap64(2 * s[10]) == -6007801902912241664;
    assert s[12] == Wrap64(2 * s[11]) == 6431140267885068288;
    assert s[13] == Wrap64(2 * s[12]) == -5584463537939415040;
    assert s[14] == Wrap64(2 * s[13]) == 7277816997830721536;
    assert s[15] == Wrap64(2 * s[14]) == -3891110078048108544;
    assert s[16] == Wrap64(2 * s[15]) == -7782220156096217088;
    assert s[17] == Wrap64(2 * s[16]) == 2882303761517117440;
    assert s[18] == Wrap64(2 * s[17]) == 5764607523034234880;
    assert s[19] == Wrap64(2 * s[18]) == -6917529027641081856;
    assert s[20] == Wrap64(2 * s[19]) == 4611686018427387904;
    assert s[21] == Wrap64(2 * s[20]) == -9223372036854775808;
    assert s[22] == Wrap64(2 * s[21]) == 0;
  }

  lemma Overflows(n: nat)
    requires 34 <= n <= 55
    ensures n <= 54 ==> if n in LUCKY then Product(n) > 600 * SECOND else Product(n) <= 0
    ensures n == 55 ==> Product(n) == 0
  {
    var base := 33;
    var s := seq(23, j requires 0 <= j < 23 => Product(base + j));
    forall j | 0 < j < 23 ensures s[j] == Wrap64(2 * s[j - 1]) { ProductDoubles(base + j - 1); }
    SmallProducts(base);
    Pow2At33(base);
    Doublings(s);
    assert s[n - 33] == Product(n);
  }

  lemma Pow2At33(n: nat)
    requires n == 33
    ensures Pow2(n) == 8589934592
  {
    Pow2Splits(11, 22);
    Pow2Splits(11, 11);
    assert Pow2(11) == 2048;
  }

  lemma {:induction false} Pow2Splits(a: nat, b: nat)
    ensures Pow2(a + b) == Pow2(a) * Pow2(b)
  {
    if a > 0 { Pow2Splits(a - 1, b); }
  }

  /** Up to 2^33 seconds nothing overflows. */
  lemma SmallProducts(n: nat)
    requires n <= 33
    ensures Product(n) == Pow2(n) * SECOND > 0
  {
    var top := 33;
    Pow2Monotone(n, top);
    Pow2At33(top);
  }

  /** From 2^55 seconds on the product is a multiple of 2^64: no delay at all. */
  lemma {:induction false} ProductVanishes(n: nat)
    requires n >= 55
    ensures Product(n) == 0
  {
    if n == 55 {
      Overflows(n);
    } else {
      ProductVanishes(n - 1);
      ProductDoubles(n - 1);
    }
  }

  /** The retry counts whose overflowed product happens to exceed ten minutes. */
  const LUCKY := {37, 41, 42, 45, 47, 50, 51, 53}

  /** The delay is the documented one exactly for these retry counts; for every
      other count there is no delay and the retry is dispatched at once. */
  lemma BackoffIsExact(n: nat)
    ensures Backoff(n) == Intended(n) <==> n <= 33 || n in LUCKY
    ensures Backoff(n) <= 0 <==> n >= 34 && n !in LUCKY
  {
    if n <= 33 {
      SmallProducts(n);
    } else {
      if n >= 55 { ProductVanishes(n); } else { Overflows(n); }
      var top := 33;
      Pow2Monotone(top, n);
      Pow2At33(top);
    }
  }

  /** A fixed interval is kept exactly as long as it fits into a duration. */
  lemma FixedIsExactIff(n: nat, interval: nat)
    ensures RetryDelay(FixedInterval, n, interval) == interval * SECOND <==> interval * SECOND <= MAX_INT64
  {}
}
