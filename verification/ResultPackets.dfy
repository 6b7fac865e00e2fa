/** The packets of the text result-set dialogue (mysql/query.go, mysql/conn.go): column definitions,
    rows, OK, EOF and error packets, and what their parsers make of them. */
module ResultPackets {
  import opened Prelude
  import opened Bytes
  import opened Encoding

  // ---------------------------------------------------------------------------- types

  datatype FieldType =
    | Null | Int8 | Uint8 | Int16 | Uint16 | Int24 | Uint24 | Int32 | Uint32 | Int64 | Uint64 | Float32 | Float64
    | Timestamp | Date | Time | Datetime | Year | Decimal | Text | Blob | VarChar | VarBinary | Char | Binary
    | Bit | Enum | Set | Geometry | TypeJson | Tuple | Expression

  function HasFlag(flags: nat, flag: nat): bool
    requires flag > 0
  {
    flags / flag % 2 == 1
  }

  const MysqlUnsigned: nat := 32
  const MysqlBinary: nat := 128
  const MysqlEnum: nat := 256
  const MysqlSet: nat := 2048

  /** The wire type and flags of a type; zero for the types that have none. */
  function TypeToMysql(t: FieldType): (byte, nat) {
    match t
    case Null => (6, MysqlBinary)
    case Int8 => (1, 0)
    case Uint8 => (1, MysqlUnsigned)
    case Int16 => (2, 0)
    case Uint16 => (2, MysqlUnsigned)
    case Int24 => (9, 0)
    case Uint24 => (9, MysqlUnsigned)
    case Int32 => (3, 0)
    case Uint32 => (3, MysqlUnsigned)
    case Int64 => (8, 0)
    case Uint64 => (8, MysqlUnsigned)
    case Float32 => (4, 0)
    case Float64 => (5, 0)
    case Timestamp => (7, 0)
    case Date => (10, MysqlBinary)
    case Time => (11, MysqlBinary)
    case Datetime => (12, MysqlBinary)
    case Year => (13, MysqlUnsigned)
    case Decimal => (246, 0)
    case Text => (252, 0)
    case Blob => (252, MysqlBinary)
    case VarChar => (253, 0)
    case VarBinary => (253, MysqlBinary)
    case Char => (254, 0)
    case Binary => (254, MysqlBinary)
    case Bit => (16, MysqlUnsigned)
    case Enum => (254, MysqlEnum)
    case Set => (254, MysqlSet)
    case Geometry => (255, 0)
    case TypeJson => (245, 0)
    case Tuple => (0, 0)
    case Expression => (0, 0)
  }

  function MysqlToType(t: byte, flags: nat): Option<FieldType> {
    var unsigned := HasFlag(flags, MysqlUnsigned);
    var binary := HasFlag(flags, MysqlBinary);
    match t
    case 1 => Some(if unsigned then Uint8 else Int8)
    case 2 => Some(if unsigned then Uint16 else Int16)
    case 3 => Some(if unsigned then Uint32 else Int32)
    case 4 => Some(Float32)
    case 5 => Some(Float64)
    case 6 => Some(Null)
    case 7 => Some(Timestamp)
    case 8 => Some(if unsigned then Uint64 else Int64)
    case 9 => Some(if unsigned then Uint24 else Int24)
    case 10 => Some(Date)
    case 11 => Some(Time)
    case 12 => Some(Datetime)
    case 13 => Some(Year)
    case 16 => Some(Bit)
    case 245 => Some(TypeJson)
    case 246 => Some(Decimal)
    case 249 => Some(if binary then Blob else Text)
    case 250 => Some(if binary then Blob else Text)
    case 251 => Some(if binary then Blob else Text)
    case 252 => Some(if binary then Blob else Text)
    case 253 => Some(if binary then VarBinary else VarChar)
    case 254 =>
      Some(if binary then Binary else if HasFlag(flags, MysqlEnum) then Enum else if HasFlag(flags, MysqlSet) then Set
        else Char)
    case 255 => Some(Geometry)
    case _ => None
  }

  /** Types that the wire protocol can carry. */
  predicate Mapped(t: FieldType) { t != Tuple && t != Expression }

  /** A type survives the wire exactly when it is mapped; stray flags never turn a type into NULL. */
  lemma TypeRoundTrip(t: FieldType, flags: nat)
    ensures MysqlToType(TypeToMysql(t).0, TypeToMysql(t).1) == Some(t) <==> Mapped(t)
    ensures MysqlToType(TypeToMysql(t).0, flags).Some? <==> Mapped(t)
    ensures MysqlToType(TypeToMysql(t).0, flags) == Some(Null) <==> t == Null
  {
  }

  // --------------------------------------------------------------- column definitions

  datatype Field = Field(
    database: seq<byte>, table: seq<byte>, orgTable: seq<byte>, name: seq<byte>, orgName: seq<byte>,
    charset: nat, columnLength: nat, typ: FieldType, flags: nat, decimals: nat)

  /** The 32-bit fields hold 32-bit numbers. */
  predicate ProperField(f: Field) {
    f.charset < 0x1_0000_0000 && f.columnLength < 0x1_0000_0000 && f.flags < 0x1_0000_0000 && f.decimals < 0x1_0000_0000
  }

  const Def: seq<byte> := [0x64, 0x65, 0x66]

  /** The flags a field is sent with: its own, or those of its type. */
  function SentFlags(f: Field): (n: nat)
    ensures n < 0x1_0000
  {
    if f.flags != 0 then f.flags % 0x1_0000 else TypeToMysql(f.typ).1
  }

  function Names(f: Field): (ss: seq<seq<byte>>)
    ensures |ss| == 6
  {
    [Def, f.database, f.table, f.orgTable, f.name, f.orgName]
  }

  function Strings(ss: seq<seq<byte>>): seq<byte> {
    if ss == [] then [] else LenEncString(ss[0]) + Strings(ss[1..])
  }

  /** The fixed-size part of a column definition, after its length byte. */
  function Fixed(f: Field): (bs: seq<byte>)
    ensures |bs| == 12
  {
    LE(f.charset % 0x1_0000, W16) + LE(f.columnLength, W32) + [TypeToMysql(f.typ).0] + LE(SentFlags(f), W16)
      + [f.decimals % 0x100] + LE(0, W16)
  }

  function ColumnDefinition(f: Field): seq<byte> { Strings(Names(f)) + [0x0c] + Fixed(f) }

  /** What the client makes of a column it reads: names and length as they were sent, charset, flags and decimals cut
      to the bytes they are sent in. */
  function Recovered(f: Field): Field
    requires Mapped(f.typ)
  {
    Field(f.database, f.table, f.orgTable, f.name, f.orgName, f.charset % 0x1_0000, f.columnLength, TypeOf(f),
          ShownFlags(f), f.decimals % 0x100)
  }

  /** The numeric types, for the C library's NUM_FLAG; it counts the NULL type among them. */
  predicate Numeric(t: FieldType) {
    || t in {Null, Float32, Float64, Year, Decimal}
    || t in {Int8, Uint8, Int16, Uint16, Int24, Uint24, Int32, Uint32, Int64, Uint64}
  }

  /** The flags of a column as the client sees it: none without a length and charset, otherwise those sent, and the
      highest of the sixteen for numeric types. */
  function ShownFlags(f: Field): nat {
    var sent := SentFlags(f);
    if f.columnLength == 0 && f.charset % 0x1_0000 == 0 then 0
    else if Numeric(f.typ) then sent % 0x8000 + 0x8000
    else sent
  }

  /** The type of the values of a column, as the client sees it. Flags the field brings along choose among the types
      that share a code on the wire: unsigned is 32, binary 128, enum 256 and set 2048. */
  function TypeOf(f: Field): FieldType
    requires Mapped(f.typ)
  {
    if f.flags == 0 then f.typ
    else
      var unsigned, binary := f.flags / 32 % 2 == 1, f.flags / 128 % 2 == 1;
      if f.typ in {Int8, Uint8} then (if unsigned then Uint8 else Int8)
      else if f.typ in {Int16, Uint16} then (if unsigned then Uint16 else Int16)
      else if f.typ in {Int24, Uint24} then (if unsigned then Uint24 else Int24)
      else if f.typ in {Int32, Uint32} then (if unsigned then Uint32 else Int32)
      else if f.typ in {Int64, Uint64} then (if unsigned then Uint64 else Int64)
      else if f.typ in {Text, Blob} then (if binary then Blob else Text)
      else if f.typ in {VarChar, VarBinary} then (if binary then VarBinary else VarChar)
      else if f.typ in {Char, Binary, Enum, Set} then
        (if binary then Binary
         else if f.flags / 256 % 2 == 1 then Enum else if f.flags / 2048 % 2 == 1 then Set else Char)
      else f.typ
  }

  /** Both are what the type tables make of the sent flags. */
  lemma TypeOfIs(f: Field)
    requires Mapped(f.typ)
    ensures MysqlToType(TypeToMysql(f.typ).0, SentFlags(f)) == Some(TypeOf(f))
  {
    if f.flags == 0 {
      TypeRoundTrip(f.typ, 0);
      hide MysqlToType, TypeToMysql;
    } else {
      LowFlag(f.flags, 32);
      LowFlag(f.flags, 128);
      LowFlag(f.flags, 256);
      LowFlag(f.flags, 2048);
      hide HasFlag;
    }
  }

  lemma LowFlag(flags: nat, flag: nat)
    requires flag in {32, 128, 256, 2048}
    ensures HasFlag(flags % 0x1_0000, flag) <==> flags / flag % 2 == 1
  {
    var q, r := flags / 0x1_0000, flags % 0x1_0000;
    match flag
    case 32 => LowQuotient(q, r, 32, 2048);
    case 128 => LowQuotient(q, r, 128, 512);
    case 256 => LowQuotient(q, r, 256, 256);
    case _ => LowQuotient(q, r, 2048, 32);
  }

  /** A multiple of 2^16 does not change the lowest bit of the quotient by a smaller power of two. */
  lemma LowQuotient(q: nat, r: nat, flag: nat, more: nat)
    requires flag > 0 && flag * more == 0x1_0000 && more % 2 == 0
    ensures (0x1_0000 * q + r) / flag % 2 == r / flag % 2
  {
    var x, y := r / flag, r % flag;
    assert 0x1_0000 * q == flag * (more * q);
    QuotientIs(0x1_0000 * q + r, flag, more * q + x, y);
    EvenMore(more, q, x);
  }

  lemma EvenMore(more: nat, q: nat, x: nat)
    requires more % 2 == 0
    ensures (more * q + x) % 2 == x % 2
  {
    assert more * q == 2 * (more / 2 * q);
  }

  /** What the parser puts together is what the client is to see. */
  lemma DescribedIs(f: Field)
    requires Mapped(f.typ)
    ensures Described(f.database, f.table, f.orgTable, f.name, f.orgName, f.charset % 0x1_0000, f.columnLength,
                      TypeToMysql(f.typ).0, SentFlags(f), f.decimals % 0x100, TypeOf(f)) == Recovered(f)
  {
    hide MysqlToType, TypeOf, SentFlags;
    assert IsNum(TypeToMysql(f.typ).0) <==> Numeric(f.typ);
    hide TypeToMysql, IsNum, Numeric;
  }

  predicate IsNum(t: byte) { (t <= 9 && t != 7) || t == 13 || t == 246 }

  const NumFlag: nat := 0x8000

  function Described(database: seq<byte>, table: seq<byte>, orgTable: seq<byte>, name: seq<byte>, orgName: seq<byte>,
                     charset: nat, columnLength: nat, t: byte, flags: nat, decimals: nat, typ: FieldType): Field {
    var shown :=
      if columnLength == 0 && charset == 0 then 0
      else if IsNum(t) && !HasFlag(flags, NumFlag) then flags + NumFlag
      else flags;
    Field(database, table, orgTable, name, orgName, charset, columnLength, typ, shown, decimals)
  }

  /** `n` length-encoded strings in a row. */
  function ReadStrings(data: seq<byte>, pos: nat, n: nat): (r: Outcome<(seq<seq<byte>>, nat)>)
    ensures r.Done? ==> |r.value.0| == n && pos <= r.value.1
    decreases n
  {
    if n == 0 then Done(([], pos))
    else
      match ReadLenEncString(data, pos)
      case Failed => Failed
      case Panicked => Panicked
      case Done((s, next)) =>
        match ReadStrings(data, next, n - 1)
        case Failed => Failed
        case Panicked => Panicked
        case Done((ss, end)) => Done(([s] + ss, end))
  }

  /** `n` length-encoded strings skipped. */
  function SkipStrings(data: seq<byte>, pos: int, n: nat): Outcome<int>
    decreases n
  {
    if n == 0 then Done(pos)
    else
      match SkipLenEncString(data, pos)
      case Failed => Failed
      case Panicked => Panicked
      case Done(next) => SkipStrings(data, next, n - 1)
  }

  /** readColumnDefinitionType: the type alone. */
  function ParseColumnType(data: seq<byte>): Outcome<FieldType> {
    match SkipStrings(data, 0, 6)
    case Failed => Failed
    case Panicked => Panicked
    case Done(end) =>
      var pos := end + 1;
      if pos < 0 then Panicked
      else if pos + 9 > |data| then Failed
      else
        match MysqlToType(data[pos + 6], FromLE(data[pos + 7..pos + 9]))
        case None => Failed
        case Some(t) => Done(t)
  }

  /** The strings of a column definition: the catalog is skipped, the others are read. */
  function ReadNames(data: seq<byte>): (r: Outcome<(seq<seq<byte>>, nat)>)
    ensures r.Done? ==> |r.value.0| == 5
  {
    match SkipLenEncString(data, 0)
    case Failed => Failed
    case Panicked => Panicked
    case Done(pos) => if pos < 0 then Panicked else ReadStrings(data, pos, 5)
  }

  /** readColumnDefinition: everything. */
  function ParseColumnDefinition(data: seq<byte>): Outcome<Field> {
    match ReadNames(data)
    case Failed => Failed
    case Panicked => Panicked
    case Done((ss, end)) =>
      var pos := end + 1;
      if pos + 10 > |data| then Failed
      else
        var charset, columnLength := FromLE(data[pos..pos + 2]), FromLE(data[pos + 2..pos + 6]);
        var t, flags, decimals := data[pos + 6], FromLE(data[pos + 7..pos + 9]), data[pos + 9];
        match MysqlToType(t, flags)
        case None => Failed
        case Some(typ) => Done(Described(ss[0], ss[1], ss[2], ss[3], ss[4], charset, columnLength, t, flags, decimals,
          typ))
  }

  /** Each of the next `n` strings, as far as they can be skipped, announces a signed 64-bit length. */
  predicate SaneLengths(data: seq<byte>, pos: int, n: nat)
    decreases n
  {
    n > 0 && pos >= 0 && ReadLenEncInt(data, pos).Some? ==>
      && ReadLenEncInt(data, pos).value.0 <= MAX_INT64
      && (SkipLenEncString(data, pos).Done? ==> SaneLengths(data, SkipLenEncString(data, pos).value, n - 1))
  }

  /** Strings that can be skipped can be read, up to the same position, exactly when their lengths are sane. */
  lemma {:induction false} SkipOrReadStrings(data: seq<byte>, pos: nat, n: nat)
    requires |data| <= MAX_INT64
    ensures var skipped, read := SkipStrings(data, pos, n), ReadStrings(data, pos, n);
            && (read.Done? ==> skipped == Done(read.value.1))
            && (skipped.Done? && skipped.value >= -1 ==> (read.Done? <==> SaneLengths(data, pos, n)))
    decreases n
  {
    hide ReadLenEncInt, SkipLenEncString, ReadLenEncString;
    if n > 0 {
      SkipOrRead(data, pos);
      var skipped := SkipLenEncString(data, pos);
      if skipped.Done? {
        if skipped.value >= 0 {
          SkipOrReadStrings(data, skipped.value, n - 1);
        } else {
          SkipBefore(data, skipped.value, n - 1);
        }
      }
    }
  }

  lemma SkipBefore(data: seq<byte>, pos: int, n: nat)
    requires pos < 0
    ensures SkipStrings(data, pos, n) == if n == 0 then Done(pos) else Panicked
  {
  }

  /** Exactly when the fast parser and the full one agree. The full one accepts a packet if and only if
      the fast one does, the decimals byte is there and no name after the catalog announces a length of
      2^63 or more; the type is then the same. */
  lemma TypeOnlyAgrees(data: seq<byte>)
    requires |data| <= MAX_INT64
    ensures ParseColumnDefinition(data).Done? ==> ParseColumnType(data) == Done(ParseColumnDefinition(data).value.typ)
    ensures ParseColumnDefinition(data).Done?
       <==> && ParseColumnType(data).Done? && SkipStrings(data, 0, 6).value + 10 < |data|
            && SaneLengths(data, SkipLenEncString(data, 0).value, 5)
  {
    SkipFirst(data);
    hide ReadStrings, SkipStrings, MysqlToType, SkipLenEncString, SaneLengths, FromLE;
    var first := SkipLenEncString(data, 0);
    if first.Done? && first.value >= 0 {
      SkipOrReadStrings(data, first.value, 5);
    }
  }

  lemma SkipFirst(data: seq<byte>)
    ensures SkipStrings(data, 0, 6) == match SkipLenEncString(data, 0)
                                       case Failed => Failed
                                       case Panicked => Panicked
                                       case Done(next) => SkipStrings(data, next, 5)
    ensures SkipLenEncString(data, 0).Done? && SkipLenEncString(data, 0).value < 0 ==> SkipStrings(data, 0, 6).Panicked?
  {
    hide ReadLenEncInt;
  }

  /** A packet that only the fast parser accepts: the name after the catalog announces a length of 2^64 - 9,
      so that skipping it leads back to where it starts, five times; reading it panics. */
  lemma TypeOnlyAcceptsMore(data: seq<byte>)
    requires data == [3, 0x64, 0x65, 0x66, 0xfe, 0xf7, 0xff, 0xff, 0xff, 0xff, 0xff, 0xff, 0xff, 0]
    ensures ParseColumnType(data) == Done(Geometry) && ParseColumnDefinition(data) == Panicked
  {
    hide *;
    assert data[5..13] == [0xf7, 0xff, 0xff, 0xff, 0xff, 0xff, 0xff, 0xff];
    assert data[12..14] == [0xff, 0];
    SomeBytes();
    BackAndBack(data);
    BackFive(data);
    TypeAt(data);
  }

  lemma TypeAt(data: seq<byte>)
    requires |data| == 14 && SkipStrings(data, 0, 6) == Done(4) && data[11] == 0xff
    requires SkipLenEncString(data, 0) == Done(4) && ReadLenEncString(data, 4) == Panicked
    ensures ParseColumnType(data) == Done(Geometry) && ParseColumnDefinition(data) == Panicked
  {
    hide FromLE, SkipLenEncString, ReadLenEncString, SkipStrings, HasFlag;
    assert ReadStrings(data, 4, 5) == Panicked;
  }

  lemma BackAndBack(data: seq<byte>)
    requires |data| == 14 && data[0] == 3 && data[4] == 0xfe && FromLE(data[5..13]) == U64 - 9
    ensures SkipLenEncString(data, 0) == Done(4) && SkipLenEncString(data, 4) == Done(4)
        && ReadLenEncString(data, 4) == Panicked
  {
    assert ToInt64(U64 - 9) == -9 && ToInt64(3) == 3 && ToInt64(4) == 4;
    hide FromLE, ToInt64;
  }

  lemma SomeBytes()
    ensures FromLE([0xff, 0]) == 0xff && FromLE([0xf7, 0xff, 0xff, 0xff, 0xff, 0xff, 0xff, 0xff]) == U64 - 9
  {
    Two(0xff);
    Eight(U64 - 9);
    Pow256Values();
    hide LE, FromLE;
    LERoundTrip(0xff, W16);
    LERoundTrip(U64 - 9, W64);
  }

  lemma BackFive(data: seq<byte>)
    requires SkipLenEncString(data, 0) == Done(4) && SkipLenEncString(data, 4) == Done(4)
    ensures SkipStrings(data, 0, 6) == Done(4)
  {
    hide SkipLenEncString;
    assert SkipStrings(data, 4, 1) == Done(4);
    assert SkipStrings(data, 4, 3) == Done(4);
    assert SkipStrings(data, 4, 5) == Done(4);
  }

  lemma {:induction false} StringsRoundTrip(data: seq<byte>, pre: seq<byte>, ss: seq<seq<byte>>, rest: seq<byte>)
    requires data == pre + Strings(ss) + rest && |data| <= MAX_INT64
    ensures ReadStrings(data, |pre|, |ss|) == Done((ss, |pre| + |Strings(ss)|))
    decreases |ss|
  {
    hide *;
    if ss == [] {
      ReadNone(data, |pre|);
    } else {
      var first, more := LenEncString(ss[0]), Strings(ss[1..]);
      StringsHead(pre, ss, rest);
      LenEncStringRoundTrip(pre, ss[0], more + rest);
      StringsRoundTrip(data, pre + first, ss[1..], rest);
      ReadFirst(data, |pre|, |ss|);
      assert [ss[0]] + ss[1..] == ss;
    }
  }

  lemma ReadNone(data: seq<byte>, pos: nat)
    ensures ReadStrings(data, pos, 0) == Done(([], pos)) && Strings([]) == []
  {
  }

  lemma ReadFirst(data: seq<byte>, pos: nat, n: nat)
    requires n > 0
    ensures var r := ReadLenEncString(data, pos);
            r.Done? ==>
              var more := ReadStrings(data, r.value.1, n - 1);
              more.Done? ==> ReadStrings(data, pos, n) == Done(([r.value.0] + more.value.0, more.value.1))
  {
    hide ReadLenEncString;
  }

  lemma StringsHead(pre: seq<byte>, ss: seq<seq<byte>>, rest: seq<byte>)
    requires ss != []
    ensures pre + Strings(ss) + rest == pre + LenEncString(ss[0]) + (Strings(ss[1..]) + rest)
    ensures pre + Strings(ss) + rest == (pre + LenEncString(ss[0])) + Strings(ss[1..]) + rest
    ensures |Strings(ss)| == |LenEncString(ss[0])| + |Strings(ss[1..])|
  {
    hide LenEncString;
    assert Strings(ss) == LenEncString(ss[0]) + Strings(ss[1..]);
  }

  lemma FixedAt(f: Field)
    requires ProperField(f)
    ensures var bs := Fixed(f);
            && FromLE(bs[0..2]) == f.charset % 0x1_0000 && FromLE(bs[2..6]) == f.columnLength
            && bs[6] == TypeToMysql(f.typ).0 && FromLE(bs[7..9]) == SentFlags(f) && bs[9] == f.decimals % 0x100
  {
    var bs := Fixed(f);
    Pow256Values();
    LERoundTrip(f.charset % 0x1_0000, W16);
    LERoundTrip(f.columnLength, W32);
    LERoundTrip(SentFlags(f), W16);
    hide LE, FromLE, TypeToMysql, SentFlags;
    assert bs[0..2] == LE(f.charset % 0x1_0000, W16);
    assert bs[2..6] == LE(f.columnLength, W32);
    assert bs[7..9] == LE(SentFlags(f), W16);
  }

  /** A column definition is understood exactly when its type is mapped, and then gives back the
      field, with charset and flags cut to two bytes and decimals to one. */
  lemma ColumnDefinitionRoundTrip(f: Field)
    requires ProperField(f) && |ColumnDefinition(f)| <= MAX_INT64
    ensures Mapped(f.typ) ==> ParseColumnDefinition(ColumnDefinition(f)) == Done(Recovered(f))
    ensures Mapped(f.typ) ==> ParseColumnType(ColumnDefinition(f)) == Done(TypeOf(f))
    ensures !Mapped(f.typ) ==>
              ParseColumnDefinition(ColumnDefinition(f)) == Failed && ParseColumnType(ColumnDefinition(f)) == Failed
  {
    var data := ColumnDefinition(f);
    DefinitionAt(f);
    FixedAt(f);
    TypeRoundTrip(f.typ, SentFlags(f));
    if Mapped(f.typ) {
      TypeOfIs(f);
      DescribedIs(f);
    }
    ParsedFixed(data, Names(f)[1..], |Strings(Names(f))|, Fixed(f));
    hide Strings, ReadNames, SkipStrings, Fixed, MysqlToType, TypeToMysql, SentFlags, ParseColumnDefinition,
      ParseColumnType, Described, FromLE, ColumnDefinition,
      ProperField;
  }

  lemma DefinitionAt(f: Field)
    requires |ColumnDefinition(f)| <= MAX_INT64
    ensures var data, n := ColumnDefinition(f), |Strings(Names(f))|;
            && |data| == n + 13 && data[n + 1..] == Fixed(f)
            && ReadNames(data) == Done((Names(f)[1..], n)) && SkipStrings(data, 0, 6) == Done(n)
  {
    hide Strings, ReadStrings, Fixed, SkipLenEncString, ReadLenEncString, LenEncString;
    var data, names, tail := ColumnDefinition(f), Names(f), [0x0c] + Fixed(f);
    var first := LenEncString(names[0]);
    assert data == [] + Strings(names) + tail;
    StringsHead([], names, tail);
    LenEncStringRoundTrip([], names[0], Strings(names[1..]) + tail);
    SkipOrRead(data, 0);
    StringsRoundTrip(data, first, names[1..], tail);
    SkipOrReadStrings(data, |first|, 5);
    SkipFirst(data);
  }

  lemma ParsedFixed(data: seq<byte>, ss: seq<seq<byte>>, end: nat, bs: seq<byte>)
    requires |bs| == 12 && |ss| == 5 && |data| == end + 13 && data[end + 1..] == bs
    requires ReadNames(data) == Done((ss, end)) && SkipStrings(data, 0, 6) == Done(end)
    ensures var flags := FromLE(bs[7..9]);
            ParseColumnDefinition(data) ==
            match MysqlToType(bs[6], flags)
            case None => Failed
            case Some(t) => Done(Described(ss[0], ss[1], ss[2], ss[3], ss[4], FromLE(bs[0..2]), FromLE(bs[2..6]),
              bs[6], flags, bs[9], t))
    ensures ParseColumnType(data) ==
            match MysqlToType(bs[6], FromLE(bs[7..9]))
            case None => Failed
            case Some(t) => Done(t)
  {
    hide ReadNames, SkipStrings, MysqlToType;
    var start := end + 1;
    assert data[start..start + 2] == bs[0..2];
    assert data[start + 2..start + 6] == bs[2..6];
    assert data[start + 7..start + 9] == bs[7..9];
  }

  // ----------------------------------------------------------------------------- rows

  datatype Value = Value(typ: FieldType, val: seq<byte>) {
    predicate IsNull() { typ == Null }
  }

  const NullValue := Value(Null, [])

  function MakeTrusted(t: FieldType, val: seq<byte>): Value { if t == Null then NullValue else Value(t, val) }

  function CellBytes(v: Value): (bs: seq<byte>)
    ensures |bs| >= 1
  {
    if v.IsNull() then [0xfb] else LenEncString(v.val)
  }

  function RowBytes(row: seq<Value>): (bs: seq<byte>)
    ensures |bs| >= |row|
  {
    if row == [] then [] else CellBytes(row[0]) + RowBytes(row[1..])
  }

  /** What the client reads for a value sent in a column of type `t`. */
  function RecoveredValue(v: Value, t: FieldType): Value { if v.IsNull() then NullValue else MakeTrusted(t, v.val) }

  function RecoveredRow(row: seq<Value>, types: seq<FieldType>): (r: seq<Value>)
    requires |row| == |types|
    ensures |r| == |row| && forall i :: 0 <= i < |row| ==> r[i] == RecoveredValue(row[i], types[i])
  {
    if row == [] then [] else [RecoveredValue(row[0], types[0])] + RecoveredRow(row[1..], types[1..])
  }

  /** The values of a row packet from `pos` on; a packet that ends early makes the parser index out of range. */
  function ParseCells(data: seq<byte>, pos: nat, types: seq<FieldType>): Outcome<seq<Value>>
    decreases |types|
  {
    if types == [] then Done([])
    else if pos >= |data| then Panicked
    else
      var cell: Outcome<(Value, nat)> := if data[pos] == 0xfb then Done((NullValue, pos + 1))
        else ReadCell(data, pos, types[0]);
      match cell
      case Failed => Failed
      case Panicked => Panicked
      case Done((v, next)) =>
        match ParseCells(data, next, types[1..])
        case Failed => Failed
        case Panicked => Panicked
        case Done(row) => Done([v] + row)
  }

  function ReadCell(data: seq<byte>, pos: nat, t: FieldType): Outcome<(Value, nat)> {
    match ReadLenEncString(data, pos)
    case Failed => Failed
    case Panicked => Panicked
    case Done((s, next)) => Done((MakeTrusted(t, s), next))
  }

  /** Any row as wide as the fields is read back cell by cell: NULLs as NULLs, bytes as the same bytes. */
  lemma {:induction false} RowRoundTrip(pre: seq<byte>, row: seq<Value>, types: seq<FieldType>)
    requires |row| == |types| && |pre + RowBytes(row)| <= MAX_INT64
    ensures ParseCells(pre + RowBytes(row), |pre|, types) == Done(RecoveredRow(row, types))
    decreases |row|
  {
    hide LenEncString, LenEncInt, CellBytes, ReadCell, RecoveredValue;
    if row != [] {
      var first, more := CellBytes(row[0]), RowBytes(row[1..]);
      var data := pre + RowBytes(row);
      assert data == pre + first + more;
      CellRoundTrip(pre, row[0], more, types[0]);
      RowRoundTrip(pre + first, row[1..], types[1..]);
    }
  }

  lemma CellRoundTrip(pre: seq<byte>, v: Value, more: seq<byte>, t: FieldType)
    requires |pre + CellBytes(v) + more| <= MAX_INT64
    ensures var data := pre + CellBytes(v) + more;
            && (data[|pre|] == 0xfb <==> v.IsNull())
            && (v.IsNull() ==> |CellBytes(v)| == 1 && RecoveredValue(v, t) == NullValue)
            && (!v.IsNull() ==> ReadCell(data, |pre|, t) == Done((RecoveredValue(v, t), |pre + CellBytes(v)|)))
  {
    hide LenEncString, ReadLenEncString, LenEncInt;
    if !v.IsNull() {
      StringStarts(v.val);
      LenEncStringRoundTrip(pre, v.val, more);
    }
    assert (pre + CellBytes(v) + more)[|pre|] == CellBytes(v)[0];
  }

  lemma StringStarts(s: seq<byte>)
    ensures LenEncString(s) != [] && LenEncString(s)[0] != 0xfb
  {
    FirstByte(|s|);
    hide LenEncInt;
  }

  // ---------------------------------------------------------------- OK, EOF and errors

  const OkPacket: byte := 0x00
  const EofPacket: byte := 0xfe
  const ErrPacket: byte := 0xff

  const MoreResultsExists: nat := 8

  function OkBytes(header: byte, affectedRows: nat, lastInsertId: nat, flags: nat, warnings: nat): (bs: seq<byte>)
    ensures |bs| == 5 + LenEncIntSize(affectedRows) + LenEncIntSize(lastInsertId)
  {
    [header] + LenEncInt(affectedRows) + LenEncInt(lastInsertId) + LE(flags, W16) + LE(warnings, W16)
  }

  function EofBytes(flags: nat, warnings: nat): (bs: seq<byte>)
    ensures |bs| == 5
  {
    [EofPacket] + LE(warnings, W16) + LE(flags, W16)
  }

  predicate IsEof(data: seq<byte>)
    requires data != []
  {
    data[0] == EofPacket && |data| < 9
  }

  predicate IsError(data: seq<byte>)
    requires data != []
  {
    data[0] == ErrPacket
  }

  datatype End = End(flags: nat, warnings: nat)

  /** The warning count is read leniently, the status flags must be there. */
  function ParseEof(data: seq<byte>): Option<End> {
    var warnings := match ReadLE(data, 1, W16) case None => 0 case Some((n, _)) => n;
    match ReadLE(data, 3, W16)
    case None => None
    case Some((flags, _)) => Some(End(flags, warnings))
  }

  datatype Ok = Accepted(affectedRows: nat, lastInsertId: nat, end: End)

  function ParseOk(data: seq<byte>): Option<Ok> {
    match ReadLenEncInt(data, 1)
    case None => None
    case Some((affected, p1)) =>
      match ReadLenEncInt(data, p1)
      case None => None
      case Some((insertId, p2)) =>
        match ReadLE(data, p2, W16)
        case None => None
        case Some((flags, p3)) =>
          match ReadLE(data, p3, W16)
          case None => None
          case Some((warnings, _)) => Some(Accepted(affected, insertId, End(flags, warnings)))
  }

  lemma EofRoundTrip(flags: nat, warnings: nat)
    requires flags < 0x1_0000 && warnings < 0x1_0000
    ensures ParseEof(EofBytes(flags, warnings)) == Some(End(flags, warnings)) && IsEof(EofBytes(flags, warnings))
  {
    Pow256Values();
    hide LE, ReadLE;
    ReadLEBack([EofPacket], warnings, W16, LE(flags, W16));
    assert [EofPacket] + LE(warnings, W16) + LE(flags, W16) == ([EofPacket] + LE(warnings, W16)) + LE(flags, W16) + [];
    ReadLEBack([EofPacket] + LE(warnings, W16), flags, W16, []);
  }

  /** An OK packet is read back whatever its header byte. With the EOF header it passes for the end of
      a result set exactly when both numbers fit in one byte. */
  lemma OkRoundTrip(header: byte, affectedRows: nat, lastInsertId: nat, flags: nat, warnings: nat)
    requires affectedRows < U64 && lastInsertId < U64 && flags < 0x1_0000 && warnings < 0x1_0000
    ensures ParseOk(OkBytes(header, affectedRows, lastInsertId, flags, warnings))
        == Some(Accepted(affectedRows, lastInsertId, End(flags, warnings)))
    ensures IsEof(OkBytes(EofPacket, affectedRows, lastInsertId, flags, warnings))
        <==> affectedRows < 251 && lastInsertId < 251
  {
    var data := OkBytes(header, affectedRows, lastInsertId, flags, warnings);
    var a, b, c, d := LenEncInt(affectedRows), LenEncInt(lastInsertId), LE(flags, W16), LE(warnings, W16);
    Pow256Values();
    hide LE, ReadLE, LenEncInt, ReadLenEncInt;
    assert data == [header] + a + (b + c + d);
    LenEncIntRoundTrip([header], affectedRows, b + c + d);
    assert data == ([header] + a) + b + (c + d);
    LenEncIntRoundTrip([header] + a, lastInsertId, c + d);
    assert data == ([header] + a + b) + c + d;
    ReadLEBack([header] + a + b, flags, W16, d);
    assert data == ([header] + a + b + c) + d + [];
    ReadLEBack([header] + a + b + c, warnings, W16, []);
  }

  /** No row of at least one column is mistaken for the end of the rows or for an error. */
  lemma RowIsNoControlPacket(row: seq<Value>)
    requires row != []
    ensures var data := RowBytes(row); data != [] && !IsEof(data) && !IsError(data)
  {
    if !row[0].IsNull() {
      FirstByte(|row[0].val|);
    }
  }

  /** A column count is never mistaken for an OK, error or local-infile packet. */
  lemma ColumnCountIsNoControlPacket(n: nat)
    requires 0 < n < U64
    ensures LenEncInt(n)[0] !in {OkPacket, ErrPacket, 0xfb}
    ensures ReadLenEncInt(LenEncInt(n), 0) == Some((n, |LenEncInt(n)|))
  {
    FirstByte(n);
    LenEncIntRoundTrip([], n, []);
    assert [] + LenEncInt(n) + [] == LenEncInt(n);
  }

  datatype SqlError = SqlError(code: nat, state: seq<byte>, message: seq<byte>) | InvalidErrorPacket

  function ErrorBytes(code: nat, state: seq<byte>, message: seq<byte>): seq<byte> {
    [ErrPacket] + LE(code, W16) + [0x23] + state + message
  }

  function ParseError(data: seq<byte>): SqlError {
    match ReadLE(data, 1, W16)
    case None => InvalidErrorPacket
    case Some((code, p)) =>
      var pos := p + 1;
      if pos + 5 > |data| then InvalidErrorPacket else SqlError(code, data[pos..pos + 5], data[pos + 5..])
  }

  lemma ErrorRoundTrip(code: nat, state: seq<byte>, message: seq<byte>)
    requires code < 0x1_0000 && |state| == 5
    ensures ParseError(ErrorBytes(code, state, message)) == SqlError(code, state, message)
    ensures IsError(ErrorBytes(code, state, message))
  {
    Pow256Values();
    hide LE, ReadLE;
    var data := ErrorBytes(code, state, message);
    assert data == [ErrPacket] + LE(code, W16) + ([0x23] + state + message);
    ReadLEBack([ErrPacket], code, W16, [0x23] + state + message);
    assert data[4..9] == state && data[9..] == message;
  }
}
