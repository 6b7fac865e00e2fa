/** Cells of row-based binlog events (mysql/binlog_event_rbr.go): column metadata, how far a cell
    reaches (cellLength) and how far decoding it reaches (CellValue). */
module Cells {
  import opened Prelude
  import opened Bytes
  import opened Encoding
  import opened Slices

  const TypeDecimal: byte := 0
  const TypeTiny: byte := 1
  const TypeShort: byte := 2
  const TypeLong: byte := 3
  const TypeFloat: byte := 4
  const TypeDouble: byte := 5
  const TypeNull: byte := 6
  const TypeTimestamp: byte := 7
  const TypeLongLong: byte := 8
  const TypeInt24: byte := 9
  const TypeDate: byte := 10
  const TypeTime: byte := 11
  const TypeDateTime: byte := 12
  const TypeYear: byte := 13
  const TypeNewDate: byte := 14
  const TypeVarchar: byte := 15
  const TypeBit: byte := 16
  const TypeTimestamp2: byte := 17
  const TypeDateTime2: byte := 18
  const TypeTime2: byte := 19
  const TypeJson: byte := 245
  const TypeNewDecimal: byte := 246
  const TypeEnum: byte := 247
  const TypeSet: byte := 248
  const TypeTinyBlob: byte := 249
  const TypeMediumBlob: byte := 250
  const TypeLongBlob: byte := 251
  const TypeBlob: byte := 252
  const TypeVarString: byte := 253
  const TypeString: byte := 254
  const TypeGeometry: byte := 255

  // ------------------------------------------------------------------------- metadata

  /** How the metadata of a column is stored. */
  datatype MetaKind = NoMeta | OneByte | BigEndian | LittleEndian | Unknown

  function KindOf(typ: byte): MetaKind {
    if typ in {TypeDecimal, TypeTiny, TypeShort, TypeLong, TypeNull, TypeTimestamp, TypeLongLong, TypeInt24, TypeDate,
      TypeTime,
               TypeDateTime, TypeYear, TypeNewDate} then NoMeta
    else if typ in {TypeFloat, TypeDouble, TypeTimestamp2, TypeDateTime2, TypeTime2, TypeJson, TypeTinyBlob,
      TypeMediumBlob,
                    TypeLongBlob, TypeBlob, TypeGeometry} then OneByte
    else if typ in {TypeNewDecimal, TypeEnum, TypeSet, TypeString} then BigEndian
    else if typ in {TypeVarchar, TypeBit, TypeVarString} then LittleEndian
    else Unknown
  }

  function MetaSize(kind: MetaKind): nat {
    match kind
    case NoMeta => 0
    case OneByte => 1
    case BigEndian => 2
    case LittleEndian => 2
    case Unknown => 0
  }

  /** The metadata values a kind can hold. */
  predicate MetaFits(kind: MetaKind, value: nat) {
    match kind
    case NoMeta => value == 0
    case OneByte => value < 0x100
    case BigEndian => value < 0x1_0000
    case LittleEndian => value < 0x1_0000
    case Unknown => false
  }

  function MetaBytes(kind: MetaKind, value: nat): (bs: seq<byte>)
    ensures |bs| == MetaSize(kind)
  {
    match kind
    case NoMeta => []
    case OneByte => [value % 0x100]
    case BigEndian => [value / 0x100 % 0x100, value % 0x100]
    case LittleEndian => [value % 0x100, value / 0x100 % 0x100]
    case Unknown => []
  }

  /** metadataRead, on the bytes from its position on. */
  function MetadataRead(data: seq<byte>, typ: byte): (r: Outcome<(nat, nat)>)
    ensures r.Done? ==> r.value.1 == MetaSize(KindOf(typ)) <= |data| && MetaFits(KindOf(typ), r.value.0)
  {
    match KindOf(typ)
    case NoMeta => Done((0, 0))
    case OneByte => if |data| < 1 then Panicked else Done((data[0], 1))
    case BigEndian => if |data| < 2 then Panicked else Done((0x100 * data[0] as int + data[1] as int, 2))
    case LittleEndian => if |data| < 2 then Panicked else Done((data[0] as int + 0x100 * data[1] as int, 2))
    case Unknown => Failed
  }

  /** metadataWrite, in place. */
  method MetadataWrite(data: array<byte>, pos: nat, typ: byte, value: nat) returns (next: nat)
    requires KindOf(typ) != Unknown && pos + MetaSize(KindOf(typ)) <= data.Length && value < 0x1_0000
    modifies data
    ensures next == pos + MetaSize(KindOf(typ)) && Wrote(old(data[..]), data[..], pos, MetaBytes(KindOf(typ), value))
  {
    hide KindOf;
    match KindOf(typ)
    case NoMeta => next := pos;
    case OneByte =>
      data[pos] := value % 0x100;
      next := pos + 1;
    case BigEndian =>
      data[pos] := value / 0x100 % 0x100;
      data[pos + 1] := value % 0x100;
      next := pos + 2;
    case LittleEndian =>
      data[pos] := value % 0x100;
      data[pos + 1] := value / 0x100 % 0x100;
      next := pos + 2;
  }

  /** A value read back is the value written exactly when it fits. */
  lemma MetadataRoundTrip(typ: byte, value: nat, rest: seq<byte>)
    requires KindOf(typ) != Unknown
    ensures MetadataRead(MetaBytes(KindOf(typ), value) + rest, typ) == Done((value, MetaSize(KindOf(typ))))
        <==> MetaFits(KindOf(typ), value)
  {
    hide KindOf;
    assert value == 0x100 * (value / 0x100) + value % 0x100;
    assert value < 0x1_0000 <==> value / 0x100 < 0x100;
  }

  // ---------------------------------------------------------------------- cell lengths

  /** Bytes needed for the digits left over after groups of nine. */
  function Leftover(digits: nat): nat
    requires digits < 10
  {
    [0, 1, 1, 2, 2, 3, 3, 4, 4, 4][digits]
  }

  /** Go's division, which truncates toward zero. */
  function Quo(n: int, d: int): int
    requires d > 0
  {
    if n >= 0 then n / d else -((0 - n) / d)
  }

  /** The parts of a packed decimal: leftover and full groups, before and after the point. */
  datatype Groups = Groups(intgFull: int, intgLeft: int, fracFull: nat, fracLeft: nat) {
    function Size(): int
      requires 0 <= intgLeft < 9 && fracLeft < 9
    {
      intgFull * 4 + Leftover(intgLeft) + fracFull * 4 + Leftover(fracLeft)
    }
  }

  function GroupsOf(metadata: nat): (g: Groups)
    requires metadata < 0x1_0000
    ensures -9 < g.intgLeft < 9 && g.fracLeft < 9
    ensures metadata / 0x100 >= metadata % 0x100 ==> g.intgFull >= 0 && g.intgLeft >= 0
  {
    var precision, scale := metadata / 0x100, metadata % 0x100;
    var intg := precision - scale;
    Groups(Quo(intg, 9), intg - Quo(intg, 9) * 9, scale / 9, scale % 9)
  }

  /** A little-endian length in the first n bytes, and the bytes it announces. */
  function Prefixed(cell: seq<byte>, n: nat): (r: Outcome<nat>)
    ensures r.Done? ==> r.value >= n && |cell| >= n
  {
    if |cell| < n then Panicked else Done(n + FromLE(cell[..n]))
  }

  /** The longest value of a CHAR column, whose two upper length bits are stored inverted. */
  function StringMax(metadata: nat): nat { (3 - metadata / 0x1000 % 4) * 0x100 + metadata % 0x100 }

  predicate IsBlob(typ: byte) { typ in {TypeJson, TypeTinyBlob, TypeMediumBlob, TypeLongBlob, TypeBlob, TypeGeometry} }

  /** The types of fixed size: how many bytes. */
  function FixedSize(typ: byte): Option<nat> {
    if typ in {TypeTiny, TypeYear} then Some(1)
    else if typ == TypeShort then Some(2)
    else if typ in {TypeInt24, TypeDate, TypeTime, TypeNewDate} then Some(3)
    else if typ in {TypeLong, TypeFloat, TypeTimestamp} then Some(4)
    else if typ in {TypeLongLong, TypeDouble, TypeDateTime} then Some(8)
    else None
  }

  function BitSize(metadata: nat): nat { (metadata / 0x100 * 8 + metadata % 0x100 + 7) / 8 }

  /** cellLength, on the bytes from its position on. */
  function CellLength(cell: seq<byte>, typ: byte, metadata: nat): Outcome<int>
    requires metadata < 0x1_0000
  {
    if FixedSize(typ).Some? then Done(FixedSize(typ).value)
    else if typ == TypeNull then Done(0)
    else if typ in {TypeVarchar, TypeVarString} then Prefixed(cell, if metadata > 255 then 2 else 1)
    else if typ == TypeBit then Done(BitSize(metadata))
    else if typ == TypeTimestamp2 then Done(4 + (metadata + 1) / 2)
    else if typ == TypeDateTime2 then Done(5 + (metadata + 1) / 2)
    else if typ == TypeTime2 then Done(3 + (metadata + 1) / 2)
    else if typ == TypeNewDecimal then
      var g := GroupsOf(metadata);
      if g.intgLeft < 0 then Panicked else Done(g.Size())
    else if typ in {TypeEnum, TypeSet} then Done(metadata % 0x100)
    else if IsBlob(typ) then (if 1 <= metadata <= 4 then Prefixed(cell, metadata) else Failed)
    else if typ == TypeString then
      (if metadata / 0x100 in {TypeEnum as int, TypeSet as int} then Done(metadata % 0x100)
       else Prefixed(cell, if StringMax(metadata) > 255 then 2 else 1))
    else Failed
  }

  /** Decoding looks at n bytes from a position on, one by one. */
  function Needs(data: Slice, pos: nat, n: nat): Outcome<int> {
    if n > 0 && pos + n > |data.seen| then Panicked else Done(n)
  }

  /** Decoding takes a slice of n bytes from a position on, which may reach into the spare ones. */
  function Sliced(data: Slice, pos: nat, n: nat): Outcome<int> { if pos + n > |data.All()| then Panicked else Done(n) }

  /** A prefixed value of which every announced byte is taken. */
  function Taken(data: Slice, pos: nat, n: nat): Outcome<int> {
    var length := Prefixed(After(data.seen, pos), n);
    if length.Done? then Sliced(data, pos, length.value) else Panicked
  }

  /** The bytes of a fractional second that decoding looks at: only one to six digits are known. */
  function FractionSize(metadata: nat): nat { if metadata <= 6 then (metadata + 1) / 2 else 0 }

  /** Decoding walks the groups of a decimal in a copy of the cell, and looks at its first byte for the sign. */
  function DecimalValue(data: Slice, pos: nat, metadata: nat): Outcome<int>
    requires metadata < 0x1_0000
  {
    var g := GroupsOf(metadata);
    if g.intgLeft < 0 then Panicked
    else
      var whole := Leftover(g.intgLeft) + if g.intgFull > 0 then 4 * g.intgFull else 0;
      var walked := whole + if metadata % 0x100 == 0 then 0 else 4 * g.fracFull + Leftover(g.fracLeft);
      if 1 <= g.Size() && pos + g.Size() <= |data.All()| && walked <= g.Size() then Done(g.Size()) else Panicked
  }

  function EnumValue(data: Slice, pos: nat, size: nat): Outcome<int> {
    if size == 1 then Needs(data, pos, 1) else if size == 2 then Sliced(data, pos, 2) else Failed
  }

  function BlobValue(data: Slice, pos: nat, typ: byte, metadata: nat, jsonOk: seq<byte> -> bool): Outcome<int>
    requires metadata > 0
  {
    var l := Taken(data, pos, metadata);
    if l.Done? && typ == TypeJson && metadata <= l.value && pos + l.value <= |data.All()|
      && !jsonOk(data.All()[pos + metadata..pos + l.value])
    then Failed
    else l
  }

  /** The length that CellValue reports. Whether a JSON document can be printed is a parameter. */
  function CellValue(data: Slice, pos: nat, typ: byte, metadata: nat, jsonOk: seq<byte> -> bool): Outcome<int>
    requires metadata < 0x1_0000
  {
    if typ == TypeTiny || typ == TypeYear then Needs(data, pos, 1)
    else if typ == TypeShort then Sliced(data, pos, 2)
    else if typ == TypeInt24 then Needs(data, pos, 3)
    else if typ == TypeLong || typ == TypeFloat then Sliced(data, pos, 4)
    else if typ == TypeDouble then Sliced(data, pos, 8)
    else if typ == TypeTimestamp then Sliced(data, pos, 4)
    else if typ == TypeLongLong then Sliced(data, pos, 8)
    else if typ == TypeDate || typ == TypeNewDate || typ == TypeTime then Needs(data, pos, 3)
    else if typ == TypeDateTime then Sliced(data, pos, 8)
    else if typ in {TypeVarchar, TypeVarString} then Taken(data, pos, if metadata > 255 then 2 else 1)
    else if typ == TypeBit then Sliced(data, pos, BitSize(metadata))
    else if typ == TypeTimestamp2 then
      (if FractionSize(metadata) == 0 then Sliced(data, pos, 4) else Needs(data, pos, 4 + FractionSize(metadata)))
    else if typ == TypeDateTime2 then Needs(data, pos, 5 + FractionSize(metadata))
    else if typ == TypeTime2 then
      (if Needs(data, pos, 3 + FractionSize(metadata)).Done? then Done(3 + (metadata + 1) / 2) else Panicked)
    else if typ == TypeNewDecimal then DecimalValue(data, pos, metadata)
    else if typ == TypeEnum then EnumValue(data, pos, metadata % 0x100)
    else if typ == TypeSet then Sliced(data, pos, metadata % 0x100)
    else if IsBlob(typ) then (if 1 <= metadata <= 4 then BlobValue(data, pos, typ, metadata, jsonOk) else Failed)
    else if typ == TypeString then
      (if metadata / 0x100 == TypeEnum as int then EnumValue(data, pos, metadata % 0x100)
       else if metadata / 0x100 == TypeSet as int then Needs(data, pos, metadata % 0x100)
       else Taken(data, pos, if StringMax(metadata) > 255 then 2 else 1))
    else Failed
  }

  // ------------------------------------------------------------------------ agreement

  /** A timestamp or datetime with more fractional digits than CellValue knows. */
  predicate OddFraction(typ: byte, metadata: nat) { typ in {TypeTimestamp2, TypeDateTime2} && metadata > 6 }

  /** Skipping and decoding agree: whenever CellValue succeeds, cellLength succeeds on the same bytes,
      and reports the same length exactly unless a timestamp or datetime has more than six fractional digits.
      Decoded cells do not reach past the capacity, but for a time of more than six. */
  lemma LengthsAgree(data: Slice, pos: nat, typ: byte, metadata: nat, jsonOk: seq<byte> -> bool)
    requires metadata < 0x1_0000 && CellValue(data, pos, typ, metadata, jsonOk).Done?
    ensures CellLength(After(data.seen, pos), typ, metadata).Done?
    ensures CellLength(After(data.seen, pos), typ, metadata) == CellValue(data, pos, typ, metadata, jsonOk)
        <==> !OddFraction(typ, metadata)
    ensures pos <= |data.All()| && (typ == TypeTime2 ==> metadata <= 6) ==>
              0 <= CellValue(data, pos, typ, metadata, jsonOk).value <= |data.All()| - pos
  {
    hide FromLE, GroupsOf, Leftover, BitSize, StringMax, After;
  }

  /** How many bytes of a cell state its length. */
  function LengthBytes(typ: byte, metadata: nat): nat {
    if typ in {TypeVarchar, TypeVarString} then (if metadata > 255 then 2 else 1)
    else if IsBlob(typ) then (if 1 <= metadata <= 4 then metadata else 0)
    else if typ == TypeString && metadata / 0x100 !in {TypeEnum as int, TypeSet as int}
      then (if StringMax(metadata) > 255 then 2 else 1)
    else 0
  }

  /** What cellLength says of a cell of which only the front can be indexed: the same as of the whole cell,
      exactly when the front has the bytes that state the length. */
  lemma LengthSeen(front: seq<byte>, back: seq<byte>, typ: byte, metadata: nat)
    requires metadata < 0x1_0000
    ensures var whole := CellLength(front + back, typ, metadata);
            CellLength(front, typ, metadata) ==
            if whole.Done? && LengthBytes(typ, metadata) > |front| then Panicked else whole
    ensures var whole := CellLength(front + back, typ, metadata);
            whole.Done? ==> LengthBytes(typ, metadata) <= whole.value
  {
    hide FromLE, GroupsOf, Leftover, BitSize, StringMax;
    PrefixedSeen(front, back, 1);
    PrefixedSeen(front, back, 2);
    if 1 <= metadata <= 4 {
      PrefixedSeen(front, back, metadata);
    }
    if CellLength(front + back, typ, metadata).Done? {
      LengthIsNatural(front + back, typ, metadata);
    }
  }

  lemma PrefixedSeen(front: seq<byte>, back: seq<byte>, k: nat)
    ensures Prefixed(front, k) == if |front| < k then Panicked else Prefixed(front + back, k)
    ensures !Prefixed(front + back, k).Failed?
  {
    if |front| >= k {
      assert (front + back)[..k] == front[..k];
    }
  }

  /** A skipped cell has a non-negative length, and cellLength looks at no byte beyond it. */
  lemma LengthIsLocal(cell: seq<byte>, typ: byte, metadata: nat, n: nat)
    requires metadata < 0x1_0000 && CellLength(cell, typ, metadata).Done?
        && CellLength(cell, typ, metadata).value <= n <= |cell|
    ensures CellLength(cell[..n], typ, metadata) == CellLength(cell, typ, metadata)
  {
    hide FromLE, GroupsOf, Leftover, BitSize, StringMax;
    PrefixedIsLocal(cell, 1, n);
    PrefixedIsLocal(cell, 2, n);
    if 1 <= metadata <= 4 {
      PrefixedIsLocal(cell, metadata, n);
    }
  }

  lemma PrefixedIsLocal(cell: seq<byte>, k: nat, n: nat)
    requires n <= |cell|
    ensures Prefixed(cell, k).Done? && Prefixed(cell, k).value <= n ==> Prefixed(cell[..n], k) == Prefixed(cell, k)
  {
    if Prefixed(cell, k).Done? && Prefixed(cell, k).value <= n {
      assert cell[..n][..k] == cell[..k];
    }
  }

  lemma LengthIsNatural(cell: seq<byte>, typ: byte, metadata: nat)
    requires metadata < 0x1_0000 && CellLength(cell, typ, metadata).Done?
    ensures CellLength(cell, typ, metadata).value >= 0
  {
    if typ == TypeNewDecimal {
      SizeIsNatural(metadata);
    }
  }

  /** Even a scale beyond the precision, which cellLength accepts when they differ by a multiple of nine,
      does not make a cell shorter than nothing. */
  lemma SizeIsNatural(metadata: nat)
    requires metadata < 0x1_0000 && GroupsOf(metadata).intgLeft >= 0
    ensures GroupsOf(metadata).Size() >= 0
  {
    var precision, scale := metadata / 0x100, metadata % 0x100;
    var g := GroupsOf(metadata);
    if precision < scale {
      var k := (scale - precision) / 9;
      assert g.intgFull == 0 - k && g.intgLeft == 9 * k - (scale - precision);
      assert scale >= 9 * k;
      assert g.fracFull >= k;
    }
  }
}
