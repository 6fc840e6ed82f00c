/** Small vocabulary shared by the modules: optional values, 64-bit wrap-around
    and ascending listings of key sets. */
module Common {

  datatype Option<+T> = None | Some(value: T)

  const MAX_INT64 := 0x7FFF_FFFF_FFFF_FFFF
  const TWO_64 := 0x1_0000_0000_0000_0000

  /** Two's-complement reduction of an integer to the signed 64-bit range. */
  function Wrap64(x: int): (r: int)
    ensures -MAX_INT64 - 1 <= r <= MAX_INT64
    ensures (x - r) % TWO_64 == 0
    ensures -MAX_INT64 - 1 <= x <= MAX_INT64 ==> r == x
  {
    var m := x % TWO_64;
    if m <= MAX_INT64 then m else m - TWO_64
  }

  function Pow2(n: nat): (p: nat)
    ensures p > 0
  {
    if n == 0 then 1 else 2 * Pow2(n - 1)
  }

  lemma SmallMultiple(a: int, k: int)
    requires -k < a * k < k
    ensures a == 0
  {}

  ghost function Any<T>(s: set<T>): (e: T)
    requires s != {}
    ensures e in s
  {
    var e :| e in s; e
  }

  lemma {:induction false} LeastExists(ids: set<int>)
    requires ids != {}
    ensures exists m :: m in ids && forall x :: x in ids ==> m <= x
  {
    var e := Any(ids);
    if ids != {e} {
      LeastExists(ids - {e});
      var m :| m in ids - {e} && forall x :: x in ids - {e} ==> m <= x;
      var n := if e < m then e else m;
      assert forall x :: x in ids ==> x == e || x in ids - {e};
      assert n in ids && forall x :: x in ids ==> n <= x;
    }
  }

  function Least(ids: set<int>): (m: int)
    requires ids != {}
    ensures m in ids && forall x :: x in ids ==> m <= x
  {
    LeastExists(ids);
    var m :| m in ids && forall x :: x in ids ==> m <= x;
    m
  }

  /** The elements of a set in increasing order. */
  function Ascending(ids: set<int>): (r: seq<int>)
    ensures forall x :: x in r <==> x in ids
    ensures forall i, j :: 0 <= i < j < |r| ==> r[i] < r[j]
  {
    if ids == {} then []
    else
      var m := Least(ids);
      var rest := Ascending(ids - {m});
      assert forall x :: x in ids ==> x == m || x in rest;
      [m] + rest
  }

  function Take<T>(s: seq<T>, n: nat): (r: seq<T>)
    ensures |r| <= n && r <= s
    ensures |s| <= n ==> r == s
  {
    if |s| <= n then s else s[..n]
  }

  lemma HeadAndTail<T>(s: seq<T>)
    requires s != []
    ensures [s[0]] + s[1..] == s
  {}

  lemma Assoc<T>(a: seq<T>, b: seq<T>, c: seq<T>)
    ensures a + (b + c) == (a + b) + c
  {}
}
