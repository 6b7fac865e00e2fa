/** Byte strings: little-endian integers and the lexicographic order of bytes.Compare. */
module Bytes {
  import opened Prelude

  function Pow256(w: nat): (p: nat)
    ensures p >= 1
  {
    if w == 0 then 1 else 256 * Pow256(w - 1)
  }

  /** The low `w` bytes of `n`, least significant first. */
  function LE(n: nat, w: nat): (bs: seq<byte>)
    ensures |bs| == w
  {
    if w == 0 then [] else [n % 256] + LE(n / 256, w - 1)
  }

  function FromLE(bs: seq<byte>): (n: nat)
    ensures n < Pow256(|bs|)
  {
    if bs == [] then 0 else bs[0] + 256 * FromLE(bs[1..])
  }

  lemma {:induction false} LERoundTrip(n: nat, w: nat)
    ensures n < Pow256(w) <==> FromLE(LE(n, w)) == n
  {
    if w > 0 {
      LERoundTrip(n / 256, w - 1);
      assert LE(n, w)[1..] == LE(n / 256, w - 1);
      assert n == 256 * (n / 256) + n % 256;
    }
  }

  lemma {:induction false} FromLERoundTrip(bs: seq<byte>)
    ensures LE(FromLE(bs), |bs|) == bs
  {
    if bs != [] {
      FromLERoundTrip(bs[1..]);
      assert FromLE(bs) / 256 == FromLE(bs[1..]) && FromLE(bs) % 256 == bs[0];
    }
  }

  /** Byte k of the little-endian form is the k-th right shift by eight bits. */
  lemma {:induction false} LEAt(n: nat, w: nat, k: nat)
    requires k < w
    ensures LE(n, w)[k] == n / Pow256(k) % 256
    decreases k
  {
    if k > 0 {
      LEAt(n / 256, w - 1, k - 1);
      DivDiv(n, Pow256(k - 1));
    }
  }

  lemma DivDiv(n: nat, p: nat)
    requires p > 0
    ensures n / 256 / p == n / (256 * p)
  {
    var q, r := n / 256 / p, n / 256 % p;
    assert n / 256 == q * p + r;
    assert n == 256 * (q * p + r) + n % 256;
    assert n == (256 * p) * q + (256 * r + n % 256);
    assert 256 * r + n % 256 < 256 * p;
    Quotient(n, 256 * p, q, 256 * r + n % 256);
  }

  lemma Quotient(n: nat, d: nat, q: nat, r: nat)
    requires d > 0 && n == d * q + r && r < d
    ensures n / d == q
  {
    var e := n / d - q;
    assert n == d * (n / d) + n % d;
    assert d * e == r - n % d by { assert d * (n / d - q) == d * (n / d) - d * q; }
    assert 0 - d < d * e < d;
    Multiple(d, e);
  }

  lemma Multiple(d: nat, e: int)
    requires d > 0
    ensures (e >= 1 ==> d * e >= d) && (e <= -1 ==> d * e <= 0 - d)
  {
  }

  lemma Pow256Values()
    ensures Pow256(1) == 0x100 && Pow256(2) == 0x1_0000 && Pow256(3) == 0x100_0000 && Pow256(4) == 0x1_0000_0000
    ensures Pow256(5) == 0x100_0000_0000 && Pow256(6) == 0x1_0000_0000_0000 && Pow256(7) == 0x100_0000_0000_0000
        && Pow256(8) == 0x1_0000_0000_0000_0000
  {
    assert Pow256(1) == 256 * Pow256(0);
    assert Pow256(2) == 256 * Pow256(1);
    assert Pow256(3) == 256 * Pow256(2);
    assert Pow256(4) == 256 * Pow256(3);
    assert Pow256(5) == 256 * Pow256(4);
    assert Pow256(6) == 256 * Pow256(5);
    assert Pow256(7) == 256 * Pow256(6);
    assert Pow256(8) == 256 * Pow256(7);
  }

  /** Widths in bytes of Go's fixed-size integers. */
  const W16: nat := 2
  const W24: nat := 3
  const W32: nat := 4
  const W48: nat := 6
  const W64: nat := 8

  /** binary.Write of an int64 or uint64: two's complement, little-endian. */
  function PutInt64(n: int): (bs: seq<byte>)
    ensures |bs| == 8
  {
    LE(n % 0x1_0000_0000_0000_0000, W64)
  }

  /** Reading back the 8 bytes of `n`, shifted by `k`, gives `n + k` wrapped to 64 bits. */
  lemma PutInt64RoundTrip(n: int, k: int)
    ensures FromLE(PutInt64(n)) == n % 0x1_0000_0000_0000_0000
    ensures ToInt64(FromLE(PutInt64(n)) + k) == ToInt64(n + k)
  {
    Pow256Values();
    LERoundTrip(n % 0x1_0000_0000_0000_0000, W64);
    assert (n % 0x1_0000_0000_0000_0000 + k) % 0x1_0000_0000_0000_0000 == (n + k) % 0x1_0000_0000_0000_0000;
  }

  /** bytes.Compare(a, b) < 0 */
  predicate Less(a: seq<byte>, b: seq<byte>) {
    b != [] && (a == [] || a[0] < b[0] || (a[0] == b[0] && Less(a[1..], b[1..])))
  }

  lemma {:induction false} LessTransitive(a: seq<byte>, b: seq<byte>, c: seq<byte>)
    requires Less(a, b) && Less(b, c)
    ensures Less(a, c)
  {
    if a != [] && a[0] == b[0] && b[0] == c[0] {
      LessTransitive(a[1..], b[1..], c[1..]);
    }
  }

  /** Exactly one of a < b, a == b, b < a holds. */
  lemma {:induction false} LessTrichotomy(a: seq<byte>, b: seq<byte>)
    ensures a == b ==> !Less(a, b)
    ensures a != b ==> (Less(a, b) <==> !Less(b, a))
  {
    if a != [] && b != [] && a[0] == b[0] {
      LessTrichotomy(a[1..], b[1..]);
      assert a == [a[0]] + a[1..] && b == [b[0]] + b[1..];
    }
  }

  /** The order is decided at the first difference: there `b` has the larger byte, or `a` has ended. */
  lemma {:induction false} LessAtFirstDifference(a: seq<byte>, b: seq<byte>)
    ensures Less(a, b) <==> exists k :: FirstDifference(a, b, k) && (k == |a| || a[k] < b[k])
  {
    if a == [] || b == [] || a[0] != b[0] {
      assert b != [] && (a == [] || a[0] != b[0]) ==> FirstDifference(a, b, 0);
    } else {
      LessAtFirstDifference(a[1..], b[1..]);
      forall k | 0 < k ensures FirstDifference(a, b, k) <==> FirstDifference(a[1..], b[1..], k - 1) {
        DifferenceLater(a, b, k);
      }
      assert !FirstDifference(a, b, 0);
      if k :| FirstDifference(a[1..], b[1..], k) && (k == |a[1..]| || a[1..][k] < b[1..][k]) {
        assert FirstDifference(a, b, k + 1);
      }
    }
  }

  /** Compared with a single byte only the first one counts. */
  lemma LessThanByte(a: seq<byte>, x: byte)
    ensures Less(a, [x]) <==> a == [] || a[0] < x
  {
    if a != [] {
      assert [x][1..] == [];
    }
  }

  /** The sequences agree up to k, where `b` goes on and `a` does not or differs. */
  predicate FirstDifference(a: seq<byte>, b: seq<byte>, k: int) {
    0 <= k <= |a| && k < |b| && a[..k] == b[..k] && (k == |a| || a[k] != b[k])
  }

  lemma DifferenceLater(a: seq<byte>, b: seq<byte>, k: int)
    requires a != [] && b != [] && a[0] == b[0] && 0 < k
    ensures FirstDifference(a, b, k) <==> FirstDifference(a[1..], b[1..], k - 1)
  {
    if k <= |a| && k < |b| {
      assert a[..k] == [a[0]] + a[1..][..k - 1] && b[..k] == [b[0]] + b[1..][..k - 1];
      assert a[..k][1..] == a[1..][..k - 1] && b[..k][1..] == b[1..][..k - 1];
    }
  }
}
