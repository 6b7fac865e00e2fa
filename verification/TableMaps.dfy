/** Table-map events (mysql/binlog_event_make.go, mysql/binlog_event_rbr.go). */
module TableMaps {
  import opened Prelude
  import opened Bytes
  import opened Encoding
  import opened Slices
  import opened Bitmaps
  import opened Cells
  import opened BinlogPackets

  datatype TableMap = TableMap(flags: nat, database: seq<byte>, name: seq<byte>, types: seq<byte>, canBeNull: Bitmap,
      metadata: seq<nat>)

  const TableMapEvent: byte := 19

  // ------------------------------------------------------------------- specification

  function MetaTotal(types: seq<byte>): nat {
    if types == [] then 0 else MetaSize(KindOf(types[0])) + MetaTotal(types[1..])
  }

  function AllMetaBytes(types: seq<byte>, metadata: seq<nat>): (bs: seq<byte>)
    requires |types| == |metadata|
    ensures |bs| == MetaTotal(types)
  {
    if types == [] then [] else MetaBytes(KindOf(types[0]), metadata[0]) + AllMetaBytes(types[1..], metadata[1..])
  }

  predicate AllFit(types: seq<byte>, metadata: seq<nat>)
    requires |types| == |metadata|
  {
    forall i :: 0 <= i < |types| ==> MetaFits(KindOf(types[i]), metadata[i])
  }

  /** The table maps that fit the format: one-byte lengths, metadata of the right size, one null bit per column. */
  predicate WellFormed(tm: TableMap) {
    && tm.flags < 0x1_0000 && |tm.database| < 256 && |tm.name| < 256 && |tm.types| < 256
    && |tm.metadata| == |tm.types| && AllFit(tm.types, tm.metadata) && MetaTotal(tm.types) < 256
    && tm.canBeNull.Valid() && tm.canBeNull.count == |tm.types|
  }

  function Short(s: seq<byte>): (bs: seq<byte>)
    ensures |bs| == |s| + 1
  {
    [|s| % 256] + s
  }

  function Names(tm: TableMap): seq<byte> { Short(tm.database) + [0] + Short(tm.name) + [0] }

  function Columns(tm: TableMap): seq<byte>
    requires |tm.types| == |tm.metadata|
  {
    Short(tm.types) + [MetaTotal(tm.types) % 256] + AllMetaBytes(tm.types, tm.metadata) + tm.canBeNull.data
  }

  function Body(tableId: nat, tm: TableMap): seq<byte>
    requires |tm.types| == |tm.metadata|
  {
    LE(tableId, W48) + LE(tm.flags, W16) + Names(tm) + Columns(tm)
  }

  // --------------------------------------------------------------------------- writer

  method MetadataTotalLength(types: seq<byte>) returns (sum: nat)
    requires forall i :: 0 <= i < |types| ==> KindOf(types[i]) != Unknown
    ensures sum == MetaTotal(types)
  {
    hide KindOf;
    sum := 0;
    assert types[0..] == types;
    for i := 0 to |types|
      invariant sum + MetaTotal(types[i..]) == MetaTotal(types)
    {
      assert types[i..][1..] == types[i + 1..];
      sum := sum + MetaSize(KindOf(types[i]));
    }
  }

  /** The loop that writes the metadata of every column. */
  method WriteMetadata(data: array<byte>, pos: nat, types: seq<byte>, metadata: seq<nat>) returns (next: nat)
    requires |types| == |metadata| && pos + MetaTotal(types) <= data.Length
    requires forall i :: 0 <= i < |types| ==> KindOf(types[i]) != Unknown && metadata[i] < 0x1_0000
    modifies data
    ensures next == pos + MetaTotal(types) && Wrote(old(data[..]), data[..], pos, AllMetaBytes(types, metadata))
  {
    hide KindOf, Wrote, MetaBytes;
    next := pos;
    ghost var all: seq<byte> := [];
    WroteNothing(data[..], pos);
    assert types[0..] == types && metadata[0..] == metadata;
    for c := 0 to |types|
      invariant next == pos + |all| && Wrote(old(data[..]), data[..], pos, all)
      invariant |all| + MetaTotal(types[c..]) == MetaTotal(types)
      invariant all + AllMetaBytes(types[c..], metadata[c..]) == AllMetaBytes(types, metadata)
    {
      assert types[c..][1..] == types[c + 1..] && metadata[c..][1..] == metadata[c + 1..];
      ghost var now, bs := data[..], MetaBytes(KindOf(types[c]), metadata[c]);
      next := MetadataWrite(data, next, types[c], metadata[c]);
      WroteBoth(old(data[..]), now, data[..], pos, all, bs);
      assert all + (bs + AllMetaBytes(types[c + 1..], metadata[c + 1..])) == all + bs
        + AllMetaBytes(types[c + 1..], metadata[c + 1..]);
      all := all + bs;
    }
    assert all + [] == all;
  }

  lemma WroteNothing(data: seq<byte>, pos: nat)
    requires pos <= |data|
    ensures Wrote(data, data, pos, [])
  {
  }

  /** The columns, written after `all`. */
  method WriteColumns(data: array<byte>, pos: nat, tm: TableMap, ghost start: seq<byte>, ghost all: seq<byte>)
      returns (next: nat)
    requires |tm.types| == |tm.metadata| && Wrote(start, data[..], 0, all) && pos == |all|
        && pos + |Columns(tm)| <= data.Length
    requires forall i :: 0 <= i < |tm.types| ==> KindOf(tm.types[i]) != Unknown && tm.metadata[i] < 0x1_0000
    modifies data
    ensures next == pos + |Columns(tm)| && Wrote(start, data[..], 0, all + Columns(tm))
  {
    hide KindOf, Wrote, AllMetaBytes;
    ghost var types, metas := Short(tm.types), AllMetaBytes(tm.types, tm.metadata);
    next := Append(data, pos, [|tm.types| % 256] + tm.types, start, all);
    var n := MetadataTotalLength(tm.types);
    next := Append(data, next, [n % 256], start, all + types);
    ghost var now := data[..];
    next := WriteMetadata(data, next, tm.types, tm.metadata);
    WroteBoth(start, now, data[..], 0, all + types + [n % 256], metas);
    next := Append(data, next, tm.canBeNull.data, start, all + types + [n % 256] + metas);
    assert all + types + [n % 256] + metas + tm.canBeNull.data == all + Columns(tm);
  }

  method BuildBody(tableId: nat, tm: TableMap) returns (body: seq<byte>)
    requires |tm.types| == |tm.metadata| && tm.flags < 0x1_0000
    requires forall i :: 0 <= i < |tm.types| ==> KindOf(tm.types[i]) != Unknown && tm.metadata[i] < 0x1_0000
    ensures body == Body(tableId, tm)
  {
    hide KindOf, Columns, LE;
    var n := MetadataTotalLength(tm.types);
    var length := 6 + 2 + 1 + |tm.database| + 1 + 1 + |tm.name| + 1 + 1 + |tm.types| + 1 + n + |tm.canBeNull.data|;
    ColumnsSize(tm);
    var data := new byte[length];
    ghost var start := data[..];
    var pos := WriteUint48(data, 0, tableId);
    ghost var now, all := data[..], LE(tableId, W48);
    pos := WriteUint16(data, pos, tm.flags);
    WroteBoth(start, now, data[..], 0, all, LE(tm.flags, W16));
    all := all + LE(tm.flags, W16);
    hide Wrote;
    pos := Append(data, pos, [|tm.database| % 256] + tm.database + [0], start, all);
    pos := Append(data, pos, [|tm.name| % 256] + tm.name + [0], start, all + (Short(tm.database) + [0]));
    all := all + (Short(tm.database) + [0]) + (Short(tm.name) + [0]);
    pos := WriteColumns(data, pos, tm, start, all);
    assert all + Columns(tm) == Body(tableId, tm);
    WroteAll(start, data[..], Body(tableId, tm));
    body := data[..];
  }

  lemma ColumnsSize(tm: TableMap)
    requires |tm.types| == |tm.metadata|
    ensures |Columns(tm)| == 1 + |tm.types| + 1 + MetaTotal(tm.types) + |tm.canBeNull.data|
  {
  }

  /** NewTableMapEvent, for formats with an eight-byte post-header. */
  method NewTableMapEvent(f: Format, s: FakeStream, tableId: nat, tm: TableMap) returns (event: seq<byte>)
    requires |f.headerSizes| > 18 && f.headerSizes[18] == 8
    requires f.headerLength >= 13 && s.Proper() && |tm.types| == |tm.metadata| && tm.flags < 0x1_0000
    requires forall i :: 0 <= i < |tm.types| ==> KindOf(tm.types[i]) != Unknown && tm.metadata[i] < 0x1_0000
    ensures event == Packet(f, s, 19, 0, Body(tableId, tm))
  {
    var body := BuildBody(tableId, tm);
    event := Packetize(f, s, TableMapEvent, 0, body);
  }

  // --------------------------------------------------------------------------- parser

  /** A one-byte length and that many bytes; the rest of the data, empty when the read ran past the end by one. */
  function ReadShort(data: seq<byte>): (r: Outcome<(seq<byte>, seq<byte>)>)
    ensures r.Done? ==> |r.value.0| < 256 && |r.value.0| + 1 + |r.value.1| == |data|
  {
    if data == [] || 1 + data[0] > |data| then Panicked else Done((data[1..1 + data[0]], data[1 + data[0]..]))
  }

  /** A short string and the zero byte after it, which is skipped unread. */
  function ReadName(data: seq<byte>): (r: Outcome<(seq<byte>, seq<byte>)>)
    ensures r.Done? ==> |r.value.0| < 256
  {
    match ReadShort(data)
    case Failed => Failed
    case Panicked => Panicked
    case Done((s, rest)) => Done((s, if rest == [] then [] else rest[1..]))
  }

  /** The metadata of all columns, and how many bytes it took. */
  function ReadMetadata(data: seq<byte>, types: seq<byte>): (r: Outcome<(seq<nat>, nat)>)
    ensures r.Done? ==> |r.value.0| == |types| && r.value.1 == MetaTotal(types) <= |data| && AllFit(types, r.value.0)
  {
    if types == [] then Done(([], 0))
    else
      match MetadataRead(data, types[0])
      case Failed => Failed
      case Panicked => Panicked
      case Done((m, n)) =>
        match ReadMetadata(data[n..], types[1..])
        case Failed => Failed
        case Panicked => Panicked
        case Done((ms, total)) => Done(([m] + ms, n + total))
  }

  /** The columns of a table: types, metadata and null bits. Only the null bits may lie in spare bytes: after any
      other part the parser indexes the data again. */
  function ParseColumns(data: Slice): (r: Outcome<(seq<byte>, seq<nat>, Bitmap)>)
    ensures r.Done? ==>
              |r.value.0| < 256 && |r.value.1| == |r.value.0| && AllFit(r.value.0, r.value.1)
                && MetaTotal(r.value.0) < 256
    ensures r.Done? ==> r.value.2.Valid() && r.value.2.count == |r.value.0|
  {
    match ReadShort(data.seen)
    case Failed => Failed
    case Panicked => Panicked
    case Done((types, rest)) =>
      if rest == [] then Panicked
      else
        match ReadMetadata(rest[1..], types)
        case Failed => Failed
        case Panicked => Panicked
        case Done((metadata, n)) =>
          if n != rest[0] as int then Failed
          else
            match NewBitmap(Slice(rest[1..][n..], data.spare), |types|)
            case Failed => Failed
            case Panicked => Panicked
            case Done(canBeNull) => Done((types, metadata, canBeNull))
  }

  /** TableMap; `start` is the size of the table id, four bytes in old formats. */
  function Parse(data: Slice, start: nat): Outcome<TableMap> {
    if |data.seen| < start + 2 then Panicked
    else
      match ReadName(data.seen[start + 2..])
      case Failed => Failed
      case Panicked => Panicked
      case Done((database, rest)) =>
        match ReadName(rest)
        case Failed => Failed
        case Panicked => Panicked
        case Done((name, rest')) =>
          match ParseColumns(Slice(rest', data.spare))
          case Failed => Failed
          case Panicked => Panicked
          case Done((types, metadata, canBeNull)) =>
            Done(TableMap(FromLE(data.seen[start..start + 2]), database, name, types, canBeNull, metadata))
  }

  /** The loop over the metadata. */
  method ReadAllMetadata(data: seq<byte>, types: seq<byte>) returns (r: Outcome<(seq<nat>, nat)>)
    ensures r == ReadMetadata(data, types)
  {
    hide ReadMetadata, Before, MetadataRead;
    var metadata: seq<nat> := [];
    var pos: nat := 0;
    assert types[0..] == types && data[0..] == data;
    MetaBefore([], 0, ReadMetadata(data, types));
    for c := 0 to |types|
      invariant pos <= |data|
      invariant ReadMetadata(data, types) == Before(metadata, pos, ReadMetadata(data[pos..], types[c..]))
    {
      MetaFirst(data[pos..], types[c..]);
      MetaBroken(metadata, pos);
      var m := MetadataRead(data[pos..], types[c]);
      if m.Failed? {
        return Failed;
      }
      if m.Panicked? {
        return Panicked;
      }
      assert types[c..][1..] == types[c + 1..];
      assert data[pos..][m.value.1..] == data[pos + m.value.1..];
      MetaBeforeMore(metadata, pos, m.value.0, m.value.1, ReadMetadata(data[pos + m.value.1..], types[c + 1..]));
      metadata, pos := metadata + [m.value.0], pos + m.value.1;
    }
    MetaEnd(metadata, pos, data[pos..], types[|types|..]);
    return Done((metadata, pos));
  }

  lemma MetaFirst(data: seq<byte>, types: seq<byte>)
    requires types != []
    ensures var m := MetadataRead(data, types[0]);
            ReadMetadata(data, types) ==
            if m.Done? then Before([m.value.0], m.value.1, ReadMetadata(data[m.value.1..], types[1..]))
              else if m.Failed? then Failed else Panicked
  {
    hide MetadataRead;
  }

  lemma MetaBroken(metadata: seq<nat>, pos: nat)
    ensures Before(metadata, pos, Failed) == Failed && Before(metadata, pos, Panicked) == Panicked
  {
  }

  lemma MetaEnd(metadata: seq<nat>, pos: nat, data: seq<byte>, types: seq<byte>)
    requires types == []
    ensures Before(metadata, pos, ReadMetadata(data, types)) == Done((metadata, pos))
  {
    assert metadata + [] == metadata;
  }

  /** A metadata read with an earlier part put before it. */
  function Before(metadata: seq<nat>, pos: nat, r: Outcome<(seq<nat>, nat)>): Outcome<(seq<nat>, nat)> {
    if r.Done? then Done((metadata + r.value.0, pos + r.value.1)) else r
  }

  lemma MetaBefore(metadata: seq<nat>, pos: nat, r: Outcome<(seq<nat>, nat)>)
    requires metadata == [] && pos == 0
    ensures Before(metadata, pos, r) == r
  {
    if r.Done? {
      assert [] + r.value.0 == r.value.0;
    }
  }

  lemma MetaBeforeMore(metadata: seq<nat>, pos: nat, m: nat, n: nat, r: Outcome<(seq<nat>, nat)>)
    ensures Before(metadata, pos, Before([m], n, r)) == Before(metadata + [m], pos + n, r)
  {
    if r.Done? {
      assert metadata + ([m] + r.value.0) == metadata + [m] + r.value.0;
    }
  }

  /** The columns of an event; the metadata is read in a loop. */
  method ReadColumns(data: Slice) returns (r: Outcome<(seq<byte>, seq<nat>, Bitmap)>)
    ensures r == ParseColumns(data)
  {
    hide ReadMetadata;
    var types := ReadShort(data.seen);
    if !types.Done? {
      return Panicked;
    }
    var rest := types.value.1;
    if |rest| == 0 {
      return Panicked;
    }
    var metadata := ReadAllMetadata(rest[1..], types.value.0);
    if metadata.Failed? {
      return Failed;
    }
    if metadata.Panicked? {
      return Panicked;
    }
    var n := metadata.value.1;
    if n != rest[0] as int {
      return Failed;
    }
    var canBeNull := NewBitmap(Slice(rest[1..][n..], data.spare), |types.value.0|);
    return if canBeNull.Done? then Done((types.value.0, metadata.value.0, canBeNull.value)) else Panicked;
  }

  /** The TableMap method of an event: the table id is four bytes when the post-header is six. */
  function ParseEvent(f: Format, event: Slice): Outcome<TableMap>
    requires |f.headerSizes| > 18
  {
    match BodyOf(f, event)
    case Failed => Failed
    case Panicked => Panicked
    case Done(data) => Parse(data, if f.headerSizes[18] == 6 then 4 else 6)
  }

  method ReadTableMap(f: Format, event: Slice) returns (r: Outcome<TableMap>)
    requires |f.headerSizes| > 18
    ensures r == ParseEvent(f, event)
  {
    hide FromLE, ParseColumns;
    if |event.seen| < f.headerLength as int {
      return Panicked;
    }
    var data := event.seen[f.headerLength..];
    var pos := if f.headerSizes[18] == 6 then 4 else 6;
    if |data| < pos + 2 {
      return Panicked;
    }
    var database := ReadName(data[pos + 2..]);
    if !database.Done? {
      return Panicked;
    }
    var name := ReadName(database.value.1);
    if !name.Done? {
      return Panicked;
    }
    var columns := ReadColumns(Slice(name.value.1, event.spare));
    if columns.Failed? {
      return Failed;
    }
    if columns.Panicked? {
      return Panicked;
    }
    return Done(TableMap(FromLE(data[pos..pos + 2]), database.value.0, name.value.0, columns.value.0, columns.value.2,
      columns.value.1));
  }

  // ----------------------------------------------------------------------- round trip

  lemma {:induction false} MetadataListRoundTrip(types: seq<byte>, metadata: seq<nat>, rest: seq<byte>)
    requires |types| == |metadata| && AllFit(types, metadata)
    ensures ReadMetadata(AllMetaBytes(types, metadata) + rest, types) == Done((metadata, MetaTotal(types)))
  {
    if types != [] {
      var first, more := MetaBytes(KindOf(types[0]), metadata[0]), AllMetaBytes(types[1..], metadata[1..]);
      assert AllMetaBytes(types, metadata) + rest == first + (more + rest);
      MetadataRoundTrip(types[0], metadata[0], more + rest);
      MetadataListRoundTrip(types[1..], metadata[1..], rest);
      hide KindOf, MetadataRead, MetaBytes;
      assert (first + (more + rest))[|first|..] == more + rest;
      assert [metadata[0]] + metadata[1..] == metadata;
    }
  }

  lemma ShortRoundTrip(s: seq<byte>, rest: seq<byte>)
    requires |s| < 256
    ensures ReadShort(Short(s) + rest) == Done((s, rest))
    ensures ReadName(Short(s) + [0] + rest) == Done((s, rest))
  {
    var data := Short(s) + rest;
    assert data[1..1 + |s|] == s && data[1 + |s|..] == rest;
    var name := Short(s) + [0] + rest;
    assert name[1..1 + |s|] == s && name[1 + |s|..] == [0] + rest;
  }

  lemma ColumnsRoundTrip(tm: TableMap, rest: seq<byte>, spare: seq<byte>)
    requires WellFormed(tm)
    ensures ParseColumns(Slice(Columns(tm) + rest, spare)) == Done((tm.types, tm.metadata, tm.canBeNull))
  {
    var metas, bits := AllMetaBytes(tm.types, tm.metadata), tm.canBeNull.data;
    var tail := [|metas|] + (metas + (bits + rest));
    assert Columns(tm) + rest == Short(tm.types) + tail by {
      hide Short, AllMetaBytes;
      assert [|metas| % 256] == [|metas|];
    }
    ShortRoundTrip(tm.types, tail);
    MetadataListRoundTrip(tm.types, tm.metadata, bits + rest);
    BitmapRoundTrip(tm.canBeNull, rest, spare);
    ColumnsParsed(Slice(Columns(tm) + rest, spare), tail, tm.types, tm.metadata, metas, bits + rest, tm.canBeNull);
    hide *;
  }

  lemma BitmapRoundTrip(b: Bitmap, rest: seq<byte>, spare: seq<byte>)
    requires b.Valid()
    ensures NewBitmap(Slice(b.data + rest, spare), b.count) == Done(b)
  {
    assert (b.data + rest + spare)[..|b.data|] == b.data;
  }

  lemma ColumnsParsed(data: Slice, tail: seq<byte>, types: seq<byte>, metadata: seq<nat>, metas: seq<byte>,
      bits: seq<byte>, b: Bitmap)
    requires ReadShort(data.seen) == Done((types, tail)) && |metas| < 256 && tail == [|metas|] + (metas + bits)
    requires ReadMetadata(metas + bits, types) == Done((metadata, |metas|))
        && NewBitmap(Slice(bits, data.spare), |types|) == Done(b)
    ensures ParseColumns(data) == Done((types, metadata, b))
  {
    hide ReadShort, ReadMetadata, NewBitmap;
    assert tail[1..] == metas + bits;
    assert (metas + bits)[|metas|..] == bits;
  }

  /** What Parse returns is well formed. */
  lemma ParsedIsWellFormed(data: Slice, start: nat)
    requires Parse(data, start).Done?
    ensures WellFormed(Parse(data, start).value)
  {
    Pow256Values();
    hide ReadName, ParseColumns, FromLE;
  }

  /** A table-map event, whatever follows it, parses back to its table map exactly when that is well formed. */
  lemma TableMapRoundTrip(tableId: nat, tm: TableMap, rest: seq<byte>, spare: seq<byte>)
    requires |tm.types| == |tm.metadata|
    ensures Parse(Slice(Body(tableId, tm) + rest, spare), 6) == Done(tm) <==> WellFormed(tm)
  {
    var data := Slice(Body(tableId, tm) + rest, spare);
    if WellFormed(tm) {
      WellFormedParses(tableId, tm, rest, spare);
    }
    if Parse(data, 6) == Done(tm) {
      ParsedIsWellFormed(data, 6);
    }
    hide WellFormed, Parse, Body;
  }

  lemma WellFormedParses(tableId: nat, tm: TableMap, rest: seq<byte>, spare: seq<byte>)
    requires WellFormed(tm)
    ensures Parse(Slice(Body(tableId, tm) + rest, spare), 6) == Done(tm)
  {
    var columns := Columns(tm) + rest;
    var name := Short(tm.name) + [0] + columns;
    var names := Short(tm.database) + [0] + name;
    FlagsRoundTrip(tm.flags);
    BodyParts(tableId, tm, rest);
    hide *;
    ColumnsRoundTrip(tm, rest, spare);
    Fits(tm);
    ShortRoundTrip(tm.name, columns);
    ShortRoundTrip(tm.database, name);
    ParsedParts(Slice(Body(tableId, tm) + rest, spare), LE(tableId, W48), LE(tm.flags, W16), tm, names, name, columns);
  }

  lemma Fits(tm: TableMap)
    requires WellFormed(tm)
    ensures |tm.database| < 256 && |tm.name| < 256 && |tm.types| == |tm.metadata|
  {
  }

  lemma FlagsRoundTrip(flags: nat)
    requires flags < 0x1_0000
    ensures FromLE(LE(flags, W16)) == flags && |LE(flags, W16)| == 2
  {
    Pow256Values();
    LERoundTrip(flags, W16);
  }

  lemma BodyParts(tableId: nat, tm: TableMap, rest: seq<byte>)
    requires |tm.types| == |tm.metadata|
    ensures Body(tableId, tm) + rest
         == LE(tableId, W48) + LE(tm.flags, W16)
           + (Short(tm.database) + [0] + (Short(tm.name) + [0] + (Columns(tm) + rest)))
    ensures |LE(tableId, W48)| == 6
  {
    hide LE, Short, Columns;
  }

  lemma ParsedParts(data: Slice, id: seq<byte>, flags: seq<byte>, tm: TableMap, names: seq<byte>, name: seq<byte>,
      columns: seq<byte>)
    requires data.seen == id + flags + names && |id| == 6 && |flags| == 2 && FromLE(flags) == tm.flags
    requires ReadName(names) == Done((tm.database, name)) && ReadName(name) == Done((tm.name, columns))
    requires ParseColumns(Slice(columns, data.spare)) == Done((tm.types, tm.metadata, tm.canBeNull))
    ensures Parse(data, 6) == Done(tm)
  {
    hide FromLE, ParseColumns, ReadName;
    assert data.seen[6..8] == flags && data.seen[8..] == names;
  }

  /** The whole way: an event built for a table map with one of the checksum algorithms that events are generated
      for, stripped of its checksum as either flavor does, parses back to the map exactly when it is well formed. */
  lemma EventRoundTrip(f: Format, s: FakeStream, tableId: nat, tm: TableMap, spare: seq<byte>)
    requires f.headerLength >= 13 && |f.headerSizes| > 18 && f.headerSizes[18] == 8 && |tm.types| == |tm.metadata|
        && KnownChecksum(f)
    ensures var event := Slice(Packet(f, s, TableMapEvent, 0, Body(tableId, tm)), spare);
            && StripMysql56(f, event).Done? && StripMariadb(f, event).Done?
            && (ParseEvent(f, StripMysql56(f, event).value) == Done(tm) <==> WellFormed(tm))
            && (ParseEvent(f, StripMariadb(f, event).value) == Done(tm) <==> WellFormed(tm))
  {
    var event := Slice(Packet(f, s, TableMapEvent, 0, Body(tableId, tm)), spare);
    PacketRoundTrip(f, s, TableMapEvent, 0, Body(tableId, tm), spare);
    hide Packet, Body, Parse, WellFormed, StripMysql56, StripMariadb, BodyOf;
    StrippedParses(f, StripMysql56(f, event), tableId, tm);
    StrippedParses(f, StripMariadb(f, event), tableId, tm);
  }

  lemma StrippedParses(f: Format, stripped: Outcome<Slice>, tableId: nat, tm: TableMap)
    requires |f.headerSizes| > 18 && f.headerSizes[18] == 8 && |tm.types| == |tm.metadata|
    requires Shows(StrippedBody(f, stripped), Body(tableId, tm))
    ensures stripped.Done? && (ParseEvent(f, stripped.value) == Done(tm) <==> WellFormed(tm))
  {
    hide Body, Parse, WellFormed, BodyOf;
    TableMapRoundTrip(tableId, tm, [], BodyOf(f, stripped.value).value.spare);
    assert Body(tableId, tm) + [] == Body(tableId, tm);
  }
}
