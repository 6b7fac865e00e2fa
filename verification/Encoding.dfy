/** The data encoding of mysql/encoding.go: length-encoded integers and strings. */
module Encoding {
  import opened Prelude
  import opened Bytes

  const U64: nat := 0x1_0000_0000_0000_0000

  // ------------------------------------------------------------------- specification

  /** The bytes that stand for `i`: one byte, or a marker and two, three or eight bytes. */
  function LenEncInt(i: nat): (bs: seq<byte>)
    ensures |bs| == LenEncIntSize(i)
  {
    if i < 251 then [i]
    else if i < 0x1_0000 then [0xfc] + LE(i, W16)
    else if i < 0x100_0000 then [0xfd] + LE(i, W24)
    else [0xfe] + LE(i, W64)
  }

  function LenEncString(s: seq<byte>): (bs: seq<byte>)
    ensures |bs| == LenEncIntSize(|s|) + |s|
  {
    LenEncInt(|s|) + s
  }

  function LenEncIntSize(i: nat): (n: nat)
    ensures n in {1, 3, 4, 9}
  {
    if i < 251 then 1 else if i < 0x1_0000 then 3 else if i < 0x100_0000 then 4 else 9
  }

  /** A write of `bs` at `pos`, with every other byte left as it was. */
  ghost predicate Wrote(before: seq<byte>, after: seq<byte>, pos: nat, bs: seq<byte>) {
    && pos + |bs| <= |before| == |after|
    && after[..pos] == before[..pos]
    && after[pos..pos + |bs|] == bs
    && after[pos + |bs|..] == before[pos + |bs|..]
  }

  lemma WroteBoth(a: seq<byte>, b: seq<byte>, c: seq<byte>, pos: nat, bs: seq<byte>, cs: seq<byte>)
    requires Wrote(a, b, pos, bs) && Wrote(b, c, pos + |bs|, cs)
    ensures Wrote(a, c, pos, bs + cs)
  {
    var n := pos + |bs|;
    var end := n + |cs|;
    WroteParts(a, b, pos, bs);
    WroteParts(b, c, n, cs);
    hide Wrote;
    Cut(a, pos, n, end);
    Cut(b, pos, n, end);
    Cut(c, pos, n, end);
    PartsWrote(a, c, pos, bs + cs);
  }

  lemma WroteParts(before: seq<byte>, after: seq<byte>, pos: nat, bs: seq<byte>)
    requires Wrote(before, after, pos, bs)
    ensures pos + |bs| <= |before| == |after| && after[..pos] == before[..pos]
    ensures after[pos..pos + |bs|] == bs && after[pos + |bs|..] == before[pos + |bs|..]
  {
  }

  lemma PartsWrote(before: seq<byte>, after: seq<byte>, pos: nat, bs: seq<byte>)
    requires pos + |bs| <= |before| == |after| && after[..pos] == before[..pos]
    requires after[pos..pos + |bs|] == bs && after[pos + |bs|..] == before[pos + |bs|..]
    ensures Wrote(before, after, pos, bs)
  {
  }

  // -------------------------------------------------------------------------- writers

  method WriteByte(data: array<byte>, pos: nat, value: byte) returns (next: nat)
    requires pos < data.Length
    modifies data
    ensures next == pos + 1 && Wrote(old(data[..]), data[..], pos, [value])
  {
    data[pos] := value;
    return pos + 1;
  }

  method WriteEofString(data: array<byte>, pos: nat, value: seq<byte>) returns (next: nat)
    requires pos + |value| <= data.Length
    modifies data
    ensures next == pos + |value| && Wrote(old(data[..]), data[..], pos, value)
  {
    var i := 0;
    while i < |value|
      invariant i <= |value|
      invariant forall k :: 0 <= k < i ==> data[pos + k] == value[k]
      invariant forall k :: 0 <= k < data.Length && !(pos <= k < pos + i) ==> data[k] == old(data[k])
    {
      data[pos + i] := value[i];
      i := i + 1;
    }
    assert data[pos..pos + |value|] == value;
    return pos + |value|;
  }

  /** Go's copy at the end of what has been written so far: `all`, from the start of the buffer. */
  method Append(data: array<byte>, pos: nat, value: seq<byte>, ghost start: seq<byte>, ghost all: seq<byte>)
      returns (next: nat)
    requires Wrote(start, data[..], 0, all) && pos == |all| && pos + |value| <= data.Length
    modifies data
    ensures next == pos + |value| && Wrote(start, data[..], 0, all + value)
  {
    next := WriteEofString(data, pos, value);
    WroteBoth(start, old(data[..]), data[..], 0, all, value);
  }

  /** Written from the start to the end: the buffer is what was written. */
  lemma WroteAll(before: seq<byte>, after: seq<byte>, bs: seq<byte>)
    requires Wrote(before, after, 0, bs) && |bs| == |after|
    ensures after == bs
  {
  }

  method WriteUint16(data: array<byte>, pos: nat, value: nat) returns (next: nat)
    requires pos + 2 <= data.Length && value < 0x1_0000
    modifies data
    ensures next == pos + 2 && Wrote(old(data[..]), data[..], pos, LE(value, W16))
  {
    data[pos] := value % 256;
    data[pos + 1] := value / 0x100 % 256;
    assert LE(value, W16) == [value % 256, value / 0x100 % 256] by { Two(value); }
    hide LE;
    return pos + 2;
  }

  lemma Two(n: nat)
    ensures LE(n, W16) == [n % 256, n / 0x100 % 256]
  {
    Pow256Values();
    LEAt(n, W16, 0);
    LEAt(n, W16, 1);
  }

  lemma Three(n: nat)
    ensures LE(n, W24) == [n % 256, n / 0x100 % 256, n / 0x1_0000 % 256]
  {
    Pow256Values();
    LEAt(n, W24, 0);
    LEAt(n, W24, 1);
    LEAt(n, W24, 2);
  }

  lemma Four(n: nat)
    ensures LE(n, W32) == [n % 256, n / 0x100 % 256, n / 0x1_0000 % 256, n / 0x100_0000 % 256]
  {
    Pow256Values();
    LEAt(n, W32, 0);
    LEAt(n, W32, 1);
    LEAt(n, W32, 2);
    LEAt(n, W32, 3);
  }

  lemma Six(n: nat)
    ensures LE(n, W48) == [n % 256, n / 0x100 % 256, n / 0x1_0000 % 256, n / 0x100_0000 % 256, n / 0x1_0000_0000 % 256,
                           n / 0x100_0000_0000 % 256]
  {
    Pow256Values();
    LEAt(n, W48, 0);
    LEAt(n, W48, 1);
    LEAt(n, W48, 2);
    LEAt(n, W48, 3);
    LEAt(n, W48, 4);
    LEAt(n, W48, 5);
  }

  lemma Eight(n: nat)
    ensures LE(n, W64) == [n % 256, n / 0x100 % 256, n / 0x1_0000 % 256, n / 0x100_0000 % 256, n / 0x1_0000_0000 % 256,
                           n / 0x100_0000_0000 % 256, n / 0x1_0000_0000_0000 % 256, n / 0x100_0000_0000_0000 % 256]
  {
    Pow256Values();
    LEAt(n, W64, 0);
    LEAt(n, W64, 1);
    LEAt(n, W64, 2);
    LEAt(n, W64, 3);
    LEAt(n, W64, 4);
    LEAt(n, W64, 5);
    LEAt(n, W64, 6);
    LEAt(n, W64, 7);
  }

  method WriteUint24(data: array<byte>, pos: nat, value: nat) returns (next: nat)
    requires pos + 3 <= data.Length && value < 0x100_0000
    modifies data
    ensures next == pos + 3 && Wrote(old(data[..]), data[..], pos, LE(value, W24))
  {
    data[pos] := value % 256;
    data[pos + 1] := value / 0x100 % 256;
    data[pos + 2] := value / 0x1_0000 % 256;
    Three(value);
    hide LE;
    return pos + 3;
  }

  method WriteUint32(data: array<byte>, pos: nat, value: nat) returns (next: nat)
    requires pos + 4 <= data.Length && value < 0x1_0000_0000
    modifies data
    ensures next == pos + 4 && Wrote(old(data[..]), data[..], pos, LE(value, W32))
  {
    data[pos] := value % 256;
    data[pos + 1] := value / 0x100 % 256;
    data[pos + 2] := value / 0x1_0000 % 256;
    data[pos + 3] := value / 0x100_0000 % 256;
    Four(value);
    hide LE;
    return pos + 4;
  }

  /** The low six bytes of a table id. */
  method WriteUint48(data: array<byte>, pos: nat, value: nat) returns (next: nat)
    requires pos + 6 <= data.Length
    modifies data
    ensures next == pos + 6 && Wrote(old(data[..]), data[..], pos, LE(value, W48))
  {
    data[pos] := value % 256;
    data[pos + 1] := value / 0x100 % 256;
    data[pos + 2] := value / 0x1_0000 % 256;
    data[pos + 3] := value / 0x100_0000 % 256;
    data[pos + 4] := value / 0x1_0000_0000 % 256;
    data[pos + 5] := value / 0x100_0000_0000 % 256;
    Six(value);
    hide LE;
    return pos + 6;
  }

  method WriteUint64(data: array<byte>, pos: nat, value: nat) returns (next: nat)
    requires pos + 8 <= data.Length && value < U64
    modifies data
    ensures next == pos + 8 && Wrote(old(data[..]), data[..], pos, LE(value, W64))
  {
    data[pos] := value % 256;
    data[pos + 1] := value / 0x100 % 256;
    data[pos + 2] := value / 0x1_0000 % 256;
    data[pos + 3] := value / 0x100_0000 % 256;
    data[pos + 4] := value / 0x1_0000_0000 % 256;
    data[pos + 5] := value / 0x100_0000_0000 % 256;
    data[pos + 6] := value / 0x1_0000_0000_0000 % 256;
    data[pos + 7] := value / 0x100_0000_0000_0000 % 256;
    Eight(value);
    hide LE;
    return pos + 8;
  }

  method WriteLenEncInt(data: array<byte>, pos: nat, i: nat) returns (next: nat)
    requires pos + LenEncIntSize(i) <= data.Length && i < U64
    modifies data
    ensures next == pos + LenEncIntSize(i) && Wrote(old(data[..]), data[..], pos, LenEncInt(i))
  {
    if i < 251 {
      next := WriteByte(data, pos, i);
    } else {
      hide LE;
      var marker := if i < 0x1_0000 then 0xfc else if i < 0x100_0000 then 0xfd else 0xfe;
      next := WriteByte(data, pos, marker);
      ghost var between := data[..];
      if i < 0x1_0000 {
        next := WriteUint16(data, next, i);
        WroteBoth(old(data[..]), between, data[..], pos, [marker], LE(i, W16));
      } else if i < 0x100_0000 {
        next := WriteUint24(data, next, i);
        WroteBoth(old(data[..]), between, data[..], pos, [marker], LE(i, W24));
      } else {
        next := WriteUint64(data, next, i);
        WroteBoth(old(data[..]), between, data[..], pos, [marker], LE(i, W64));
      }
    }
  }

  method WriteLenEncString(data: array<byte>, pos: nat, value: seq<byte>) returns (next: nat)
    requires pos + LenEncIntSize(|value|) + |value| <= data.Length && |value| < U64
    modifies data
    ensures next == pos + |LenEncString(value)| && Wrote(old(data[..]), data[..], pos, LenEncString(value))
  {
    next := WriteLenEncInt(data, pos, |value|);
    ghost var between := data[..];
    next := WriteEofString(data, next, value);
    WroteBoth(old(data[..]), between, data[..], pos, LenEncInt(|value|), value);
  }

  // -------------------------------------------------------------------------- readers

  /** A read of a `w`-byte little-endian integer (readUint16, readUint32, readUint64). */
  function ReadLE(data: seq<byte>, pos: nat, w: nat): (r: Option<(nat, nat)>)
    ensures r.Some? ==> pos < r.value.1 + 1 && r.value.1 == pos + w <= |data|
  {
    if pos + w > |data| then None else Some((FromLE(data[pos..pos + w]), pos + w))
  }

  function ReadLenEncInt(data: seq<byte>, pos: nat): (r: Option<(nat, nat)>)
    ensures r.Some? ==> pos < r.value.1 <= |data| && r.value.0 < U64
  {
    if pos >= |data| then None
    else
      Pow256Values();
      if data[pos] == 0xfc then ReadLE(data, pos + 1, W16)
      else if data[pos] == 0xfd then ReadLE(data, pos + 1, W24)
      else if data[pos] == 0xfe then ReadLE(data, pos + 1, W64)
      else Some((data[pos], pos + 1))
  }

  /** readLenEncString and readLenEncStringAsBytes. The length is converted to a signed 64-bit int;
      one that comes out negative, or that overflows when added to the position, passes the bounds
      test and the slice expression panics. */
  function ReadLenEncString(data: seq<byte>, pos: nat): (r: Outcome<(seq<byte>, nat)>)
    ensures r.Done? ==> pos < r.value.1 <= |data| && |r.value.0| < r.value.1 - pos
  {
    match ReadLenEncInt(data, pos)
    case None => Failed
    case Some((size, start)) =>
      var s := ToInt64(size);
      if ToInt64(start + s - 1) >= |data| then Failed
      else if 0 <= s && start + s <= |data| then Done((data[start..start + s], start + s))
      else Panicked
  }

  /** skipLenEncString takes no slice: a length that comes out negative moves the position back, even
      to before the start of the data, where the next read panics. */
  function SkipLenEncString(data: seq<byte>, pos: int): Outcome<int> {
    if pos < 0 then Panicked
    else
      match ReadLenEncInt(data, pos)
      case None => Failed
      case Some((size, start)) =>
        var s := ToInt64(size);
        if ToInt64(start + s - 1) >= |data| then Failed else Done(ToInt64(start + s))
  }

  /** A string that can be skipped can be read, up to the same position, exactly when the length it
      announces is a signed 64-bit number and does not overflow, which would end before -1. */
  lemma SkipOrRead(data: seq<byte>, pos: nat)
    requires |data| <= MAX_INT64
    ensures var skipped, read := SkipLenEncString(data, pos), ReadLenEncString(data, pos);
            && (skipped.Failed? <==> read.Failed?)
            && (read.Done? ==> skipped == Done(read.value.1))
            && (skipped.Done? ==>
                  && ReadLenEncInt(data, pos).Some?
                  && (read.Done? <==> ReadLenEncInt(data, pos).value.0 <= MAX_INT64 && skipped.value >= -1))
  {
    hide ReadLenEncInt;
  }

  // ----------------------------------------------------------------------- round trips

  lemma ReadLEBack(pre: seq<byte>, n: nat, w: nat, rest: seq<byte>)
    requires n < Pow256(w)
    ensures ReadLE(pre + LE(n, w) + rest, |pre|, w) == Some((n, |pre| + w))
  {
    var data := pre + LE(n, w) + rest;
    assert data[|pre|..|pre| + w] == LE(n, w);
    LERoundTrip(n, w);
  }

  /** Every 64-bit value is read back, whatever stands before and after it. */
  lemma LenEncIntRoundTrip(pre: seq<byte>, i: nat, rest: seq<byte>)
    requires i < U64
    ensures ReadLenEncInt(pre + LenEncInt(i) + rest, |pre|) == Some((i, |pre| + LenEncIntSize(i)))
  {
    var data := pre + LenEncInt(i) + rest;
    assert data[|pre|] == LenEncInt(i)[0];
    if i >= 251 {
      Pow256Values();
      var w := if i < 0x1_0000 then W16 else if i < 0x100_0000 then W24 else W64;
      var marker := LenEncInt(i)[0];
      hide LE, FromLE;
      assert data == pre + [marker] + LE(i, w) + rest;
      ReadLEBack(pre + [marker], i, w, rest);
    }
  }

  /** Every string is read back, whatever stands before and after it. */
  lemma LenEncStringRoundTrip(pre: seq<byte>, s: seq<byte>, rest: seq<byte>)
    requires |pre + LenEncString(s) + rest| <= MAX_INT64
    ensures ReadLenEncString(pre + LenEncString(s) + rest, |pre|) == Done((s, |pre| + |LenEncString(s)|))
  {
    hide LE, LenEncInt, ReadLenEncInt;
    var data := pre + LenEncString(s) + rest;
    var start := |pre| + LenEncIntSize(|s|);
    assert data == pre + LenEncInt(|s|) + (s + rest);
    LenEncIntRoundTrip(pre, |s|, s + rest);
    assert data[start..start + |s|] == s;
    SmallInt64(|s|);
    SmallInt64(start + |s| - 1);
    hide ToInt64, LenEncIntSize;
  }

  lemma SmallInt64(n: int)
    requires 0 <= n <= MAX_INT64
    ensures ToInt64(n) == n
  {
  }

  /** Which first bytes an integer can have: never the marker of NULL (0xfb) nor of an error packet
      (0xff), and zero only for zero. The eight-byte marker stands for nothing below 2^24. */
  lemma FirstByte(i: nat)
    ensures var b := LenEncInt(i)[0]; b != 0xfb && b != 0xff && (b == 0 <==> i == 0) && (b == 0xfe <==> i >= 0x100_0000)
  {
  }
}
