/** Datatypes shared by every component: optional values, error returns and bytes. */
module Prelude {

  datatype Option<+T> = None | Some(value: T)

  /** A Go `(value, error)` return. */
  datatype Result<+T> = Ok(value: T) | Err

  /** A Go function that can also panic (index or slice out of range). */
  datatype Outcome<+T> = Done(value: T) | Failed | Panicked

  type byte = b: int | 0 <= b < 256

  const MAX_INT64: int := 0x7fff_ffff_ffff_ffff

  /** Go's conversion of a mathematical integer to int64: two's complement wrap-around. */
  function ToInt64(n: int): (r: int)
    ensures -MAX_INT64 - 1 <= r <= MAX_INT64
  {
    var m := n % 0x1_0000_0000_0000_0000;
    if m <= MAX_INT64 then m else m - 0x1_0000_0000_0000_0000
  }

  lemma Associative<T>(a: seq<T>, b: seq<T>, c: seq<T>)
    ensures a + (b + c) == a + b + c
  {
  }

  /** A sequence cut at three places. */
  lemma Cut<T>(a: seq<T>, i: nat, j: nat, k: nat)
    requires i <= j <= k <= |a|
    ensures a[..j][..i] == a[..i] && a[..j][i..] == a[i..j] && a[i..k] == a[i..j] + a[j..k] && a[j..][k - j..] == a[k..]
  {
  }

  lemma EmptyParts<T>(a: seq<T>)
    ensures [] + a == a && a + [] == a && a[0..] == a && a[..|a|] == a
  {
  }

  lemma QuotientIs(n: nat, d: nat, q: nat, r: nat)
    requires d > 0 && n == d * q + r && r < d
    ensures n / d == q
  {
    var x, y := n / d, n % d;
    assert n == d * x + y && d * (x - q) == r - y;
    assert x - q >= 1 ==> d * (x - q) >= d;
    assert x - q <= -1 ==> d * (x - q) <= 0 - d;
  }
}
