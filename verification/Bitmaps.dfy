/** Bitmaps of binlog events (mysql/binlog_event.go). */
module Bitmaps {
  import opened Prelude
  import opened Slices

  /** Bit i of a byte, least significant first. */
  function BitOf(b: nat, i: nat): bool {
    if i == 0 then b % 2 == 1 else BitOf(b / 2, i - 1)
  }

  function Mask(i: nat): (m: nat)
    ensures m >= 1
  {
    if i == 0 then 1 else 2 * Mask(i - 1)
  }

  /** Bit i is the i-th binary digit. */
  lemma {:induction false} BitOfIs(b: nat, i: nat)
    ensures BitOf(b, i) <==> b / Mask(i) % 2 == 1
  {
    if i > 0 {
      BitOfIs(b / 2, i - 1);
      HalfThenDivide(b, Mask(i - 1));
    }
  }

  lemma HalfThenDivide(b: nat, m: nat)
    requires m >= 1
    ensures b / 2 / m == b / (2 * m)
  {
    var h := b / 2;
    var q, r := h / m, h % m;
    assert b == 2 * (m * q + r) + b % 2;
    assert 2 * (m * q) == 2 * m * q;
    assert b == 2 * m * q + (2 * r + b % 2) && 0 <= 2 * r + b % 2 < 2 * m;
    QuotientIs(b, 2 * m, q, 2 * r + b % 2);
  }

  /** Setting or clearing one bit changes that bit and no other. */
  lemma {:induction false} SetBitOf(b: nat, i: nat, j: nat)
    ensures !BitOf(b, i) ==> (BitOf(b + Mask(i), j) <==> BitOf(b, j) || j == i)
    ensures BitOf(b, i) ==> b >= Mask(i) && (BitOf(b - Mask(i), j) <==> BitOf(b, j) && j != i)
  {
    if i == 0 {
      if BitOf(b, 0) {
        assert (b - 1) / 2 == b / 2;
      } else {
        assert (b + 1) / 2 == b / 2;
      }
    } else {
      SetBitOf(b / 2, i - 1, if j == 0 then i else j - 1);
      assert (b + 2 * Mask(i - 1)) / 2 == b / 2 + Mask(i - 1) && (b + 2 * Mask(i - 1)) % 2 == b % 2;
      if BitOf(b, i) {
        assert (b - 2 * Mask(i - 1)) / 2 == b / 2 - Mask(i - 1) && (b - 2 * Mask(i - 1)) % 2 == b % 2;
      }
    }
  }

  lemma {:induction false} MaskFits(b: nat, i: nat, n: nat)
    requires b < Mask(n) && i < n && !BitOf(b, i)
    ensures b + Mask(i) < Mask(n)
  {
    var half, m := b / 2, Mask(n - 1);
    assert b == 2 * half + b % 2 && half < m;
    if i > 0 {
      MaskFits(half, i - 1, n - 1);
      assert half + Mask(i - 1) < m;
    }
  }

  datatype Bitmap = Bitmap(data: seq<byte>, count: nat) {
    /** The storage is exactly as long as the count needs. */
    predicate Valid() { |data| == Storage(count) }

    predicate Bit(i: nat)
      requires i / 8 < |data|
    {
      BitOf(data[i / 8], i % 8)
    }
  }

  function Storage(count: nat): nat { (count + 7) / 8 }

  /** newBitmap, on the slice from its position on; the slice expression panics when the capacity is too small. */
  function NewBitmap(s: Slice, count: nat): (r: Outcome<Bitmap>)
    ensures r.Done? ==> r.value.Valid() && r.value.count == count && r.value.data <= s.All()
    ensures r.Panicked? <==> |s.All()| < Storage(count)
  {
    if |s.All()| < Storage(count) then Panicked else Done(Bitmap(s.All()[..Storage(count)], count))
  }

  /** The number of set bits among the first n. */
  function Ones(b: Bitmap, n: nat): (r: nat)
    requires b.Valid() && n <= b.count
    ensures r <= n
  {
    if n == 0 then 0 else Ones(b, n - 1) + if b.Bit(n - 1) then 1 else 0
  }

  method BitCount(b: Bitmap) returns (sum: nat)
    requires b.Valid()
    ensures sum == Ones(b, b.count)
  {
    sum := 0;
    for i := 0 to b.count
      invariant sum == Ones(b, i)
    {
      if b.Bit(i) {
        sum := sum + 1;
      }
    }
  }

  ghost function SetBits(b: Bitmap, n: nat): set<nat>
    requires b.Valid() && n <= b.count
  {
    set i: nat | i < n && b.Bit(i)
  }

  lemma SetBitsStep(b: Bitmap, n: nat)
    requires b.Valid() && 0 < n <= b.count
    ensures SetBits(b, n) == SetBits(b, n - 1) + if b.Bit(n - 1) then {n - 1} else {}
    ensures n - 1 !in SetBits(b, n - 1)
  {
    hide BitOf;
  }

  /** The count is the size of the set of set bits. */
  lemma {:induction false} OnesIsCardinality(b: Bitmap, n: nat)
    requires b.Valid() && n <= b.count
    ensures Ones(b, n) == |SetBits(b, n)|
  {
    if n == 0 {
      assert SetBits(b, 0) == {};
    } else {
      OnesIsCardinality(b, n - 1);
      SetBitsStep(b, n);
      hide SetBits, BitOf;
    }
  }

  /** Bitmap.Set, on the storage in place. */
  method Set(data: array<byte>, index: nat, value: bool)
    requires index / 8 < data.Length
    modifies data
    ensures forall j :: 0 <= j && j / 8 < data.Length ==>
              (Bitmap(data[..], 8 * data.Length).Bit(j) <==>
                 if j == index then value else old(Bitmap(data[..], 8 * data.Length).Bit(j)))
  {
    var k, i := index / 8, index % 8;
    var b: int := data[k];
    MaskValues();
    if value && !BitOf(b, i) {
      MaskFits(b, i, 8);
      data[k] := b + Mask(i);
    } else if !value && BitOf(b, i) {
      SetBitOf(b, i, 0);
      data[k] := b - Mask(i);
    }
    forall j | 0 <= j && j / 8 < data.Length
      ensures BitOf(data[j / 8], j % 8) <==> if j == index then value else BitOf(old(data[j / 8]), j % 8)
    {
      SetBitOf(b, i, j % 8);
    }
  }

  lemma MaskValues()
    ensures Mask(8) == 256
  {
    assert Mask(2) == 4 && Mask(4) == 16;
    assert Mask(6) == 64;
    assert Mask(8) == 256;
  }
}
