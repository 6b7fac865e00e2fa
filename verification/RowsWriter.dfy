/** newRowsEvent (mysql/binlog_event_make.go): a rows event is built in place in a buffer of computed length. */
module RowsWriter {
  import opened Prelude
  import opened Bytes
  import opened Encoding
  import opened Slices
  import opened Bitmaps
  import opened BinlogPackets
  import TableMaps
  import opened RowsEvents

  function ImageSize(im: Image): nat { |im.nulls.data| + |im.cells| }

  /** The computed length counts both images of every row, whether or not the event has them. */
  function ListSize(rows: seq<Row>): nat {
    if rows == [] then 0 else ImageSize(rows[0].identify) + ImageSize(rows[0].data) + ListSize(rows[1..])
  }

  function TotalSize(rows: Rows): nat {
    11 + |rows.identifyColumns.data| + |rows.dataColumns.data| + ListSize(rows.rows)
  }

  lemma {:induction false} ListFits(rows: seq<Row>, shape: Shape)
    ensures |ListBytes(rows, shape)| <= ListSize(rows)
  {
    if rows != [] {
      ListFits(rows[1..], shape);
    }
  }

  lemma BodyFits(typ: byte, tableId: nat, rows: Rows)
    ensures |Body(typ, tableId, rows)| <= TotalSize(rows)
  {
    ListFits(rows.rows, ShapeOf(typ, rows));
  }

  /** Bytes of the buffer that the event does not use. */
  ghost function Slack(typ: byte, tableId: nat, rows: Rows): nat {
    BodyFits(typ, tableId, rows);
    TotalSize(rows) - |Body(typ, tableId, rows)|
  }

  /** For well-formed rows the computed length is exact. */
  lemma {:induction false} ListExact(rows: seq<Row>, shape: Shape, tm: TableMaps.TableMap)
    requires shape.Valid() && ProperTable(tm) && forall i :: 0 <= i < |rows| ==> WellFormedRow(rows[i], shape, tm)
    ensures |ListBytes(rows, shape)| == ListSize(rows)
  {
    if rows != [] {
      ListExact(rows[1..], shape, tm);
      hide WellFormedImage;
    }
  }

  lemma BodyExact(typ: byte, tableId: nat, rows: Rows, tm: TableMaps.TableMap)
    requires ProperTable(tm) && WellFormedRows(typ, rows, tm)
    ensures |Body(typ, tableId, rows)| == TotalSize(rows)
  {
    ListExact(rows.rows, ShapeOf(typ, rows), tm);
  }

  method RowsLength(rows: Rows) returns (length: nat)
    ensures length == TotalSize(rows)
  {
    length := 6 + 2 + 2 + 1 + |rows.identifyColumns.data| + |rows.dataColumns.data|;
    ghost var fixed := length;
    var list := rows.rows;
    assert list[0..] == list;
    for i := 0 to |list|
      invariant length + ListSize(list[i..]) == fixed + ListSize(list)
    {
      assert list[i..][1..] == list[i + 1..];
      var row := list[i];
      length := length + |row.identify.nulls.data| + |row.data.nulls.data| + |row.identify.cells| + |row.data.cells|;
    }
  }

  /** One row, after `all`. */
  method WriteRow(data: array<byte>, pos: nat, row: Row, shape: Shape, ghost start: seq<byte>, ghost all: seq<byte>)
      returns (next: nat)
    requires Wrote(start, data[..], 0, all) && pos == |all| && pos + |RowBytes(row, shape)| <= data.Length
    modifies data
    ensures next == pos + |RowBytes(row, shape)| && Wrote(start, data[..], 0, all + RowBytes(row, shape))
  {
    hide Wrote;
    next := pos;
    ghost var done := all;
    if shape.hasIdentify {
      next := Append(data, next, row.identify.nulls.data, start, done);
      next := Append(data, next, row.identify.cells, start, done + row.identify.nulls.data);
      done := done + row.identify.nulls.data + row.identify.cells;
      assert done == all + ImageBytes(row.identify);
    } else {
      assert done == all + [];
    }
    if shape.hasData {
      next := Append(data, next, row.data.nulls.data, start, done);
      next := Append(data, next, row.data.cells, start, done + row.data.nulls.data);
      assert done + row.data.nulls.data + row.data.cells == done + ImageBytes(row.data);
    } else {
      assert done == done + [];
    }
    ghost var first := if shape.hasIdentify then ImageBytes(row.identify) else [];
    ghost var second := if shape.hasData then ImageBytes(row.data) else [];
    assert all + first + second == all + (first + second);
  }

  /** The rows, after `all`. */
  method WriteList(data: array<byte>, pos: nat, rows: seq<Row>, shape: Shape, ghost start: seq<byte>,
      ghost all: seq<byte>) returns (next: nat)
    requires Wrote(start, data[..], 0, all) && pos == |all| && pos + |ListBytes(rows, shape)| <= data.Length
    modifies data
    ensures Wrote(start, data[..], 0, all + ListBytes(rows, shape))
  {
    hide Wrote, RowBytes;
    next := pos;
    ghost var done := all;
    assert rows[0..] == rows;
    for i := 0 to |rows|
      invariant next == |done| && Wrote(start, data[..], 0, done)
      invariant done + ListBytes(rows[i..], shape) == all + ListBytes(rows, shape)
    {
      ghost var bs, more := RowBytes(rows[i], shape), ListBytes(rows[i + 1..], shape);
      assert rows[i..][1..] == rows[i + 1..];
      assert ListBytes(rows[i..], shape) == bs + more;
      assert |done + (bs + more)| == |all + ListBytes(rows, shape)|;
      next := WriteRow(data, next, rows[i], shape, start, done);
      assert done + (bs + more) == done + bs + more;
      done := done + bs;
    }
    assert done + [] == done;
  }

  method BuildBody(typ: byte, tableId: nat, rows: Rows) returns (body: seq<byte>)
    requires rows.flags < 0x1_0000
    ensures body == Body(typ, tableId, rows) + Zeroes(Slack(typ, tableId, rows))
  {
    BodyFits(typ, tableId, rows);
    BodyParts(typ, tableId, rows);
    var length := RowsLength(rows);
    assert length >= 11;
    var hasIdentify := typ == UpdateRowsV1 || typ == UpdateRowsV2 || typ == DeleteRowsV1 || typ == DeleteRowsV2;
    var hasData := typ == WriteRowsV1 || typ == WriteRowsV2 || typ == UpdateRowsV1 || typ == UpdateRowsV2;
    var shape := Shape(rows.identifyColumns, rows.dataColumns, hasIdentify, hasData);
    var columns := if hasIdentify then rows.identifyColumns.count else rows.dataColumns.count;
    assert shape == ShapeOf(typ, rows) && columns == ColumnCount(shape);
    var data := new byte[length](_ => 0);
    ghost var start := data[..];
    assert start == Zeroes(length);
    ghost var head, list := Head(tableId, rows.flags, ColumnCount(shape)), ListBytes(rows.rows, shape);
    ghost var first := if shape.hasIdentify then shape.identify.data else [];
    ghost var second := if shape.hasData then shape.data.data else [];
    hide LE, ListBytes, Wrote, Body, Head, ShapeOf, TotalSize;
    var pos := WriteHead(data, tableId, rows.flags, columns);
    if hasIdentify {
      pos := Append(data, pos, rows.identifyColumns.data, start, head);
    } else {
      assert head + [] == head;
    }
    if hasData {
      pos := Append(data, pos, rows.dataColumns.data, start, head + first);
    } else {
      assert head + first + [] == head + first;
    }
    pos := WriteList(data, pos, rows.rows, shape, start, head + first + second);
    body := data[..];
    Padded(start, body, Body(typ, tableId, rows));
  }

  function Head(tableId: nat, flags: nat, columns: nat): (bs: seq<byte>)
    ensures |bs| == 11
  {
    LE(tableId, W48) + LE(flags, W16) + [2, 0] + [columns % 256]
  }

  lemma BodyParts(typ: byte, tableId: nat, rows: Rows)
    ensures var shape := ShapeOf(typ, rows);
            Body(typ, tableId, rows) ==
            Head(tableId, rows.flags, ColumnCount(shape)) + (if shape.hasIdentify then shape.identify.data else [])
            + (if shape.hasData then shape.data.data else []) + ListBytes(rows.rows, shape)
  {
    hide LE, ListBytes;
  }

  lemma Padded(start: seq<byte>, after: seq<byte>, bs: seq<byte>)
    requires start == Zeroes(|start|) && Wrote(start, after, 0, bs)
    ensures after == bs + Zeroes(|start| - |bs|)
  {
    assert after == after[..|bs|] + after[|bs|..];
  }

  /** The fixed part: table id, flags, an empty extra data section and the column count. */
  method WriteHead(data: array<byte>, tableId: nat, flags: nat, columns: nat) returns (pos: nat)
    requires data.Length >= 11 && flags < 0x1_0000
    modifies data
    ensures pos == 11 && Wrote(old(data[..]), data[..], 0, Head(tableId, flags, columns))
  {
    hide LE;
    ghost var start := data[..];
    pos := WriteUint48(data, 0, tableId);
    ghost var now, all := data[..], LE(tableId, W48);
    pos := WriteUint16(data, pos, flags);
    WroteBoth(start, now, data[..], 0, all, LE(flags, W16));
    all := all + LE(flags, W16);
    pos := Append(data, pos, [2, 0], start, all);
    pos := Append(data, pos, [columns % 256], start, all + [2, 0]);
  }

  /** newRowsEvent: for well-formed rows, exactly the packet of their body. */
  method NewRowsEvent(f: Format, s: FakeStream, typ: byte, tableId: nat, rows: Rows) returns (event: seq<byte>)
    requires 0 < typ as int <= |f.headerSizes| && f.headerSizes[typ - 1] != 6
    requires f.headerLength >= 13 && s.Proper() && rows.flags < 0x1_0000
    ensures event == Packet(f, s, typ, 0, Body(typ, tableId, rows) + Zeroes(Slack(typ, tableId, rows)))
    ensures forall tm :: ProperTable(tm) && WellFormedRows(typ, rows, tm) ==>
              event == Packet(f, s, typ, 0, Body(typ, tableId, rows))
  {
    var body := BuildBody(typ, tableId, rows);
    event := Packetize(f, s, typ, 0, body);
    hide Packet, Body, TotalSize, WellFormedRows, ProperTable;
    forall tm | ProperTable(tm) && WellFormedRows(typ, rows, tm) ensures event
      == Packet(f, s, typ, 0, Body(typ, tableId, rows)) {
      BodyExact(typ, tableId, rows, tm);
      assert Zeroes(0) == [] && Body(typ, tableId, rows) + [] == Body(typ, tableId, rows);
    }
  }

  /** The whole way: what newRowsEvent writes for a version 2 event, stripped of its checksum as either flavor does,
      parses back to the rows exactly when they are well formed for the table. */
  lemma EventRoundTrip(f: Format, s: FakeStream, typ: byte, tableId: nat, rows: Rows, tm: TableMaps.TableMap,
      spare: seq<byte>)
    requires 0 < typ as int <= |f.headerSizes| && f.headerSizes[typ - 1] != 6
    requires f.headerLength >= 13 && IsV2(typ) && ProperTable(tm) && KnownChecksum(f)
    ensures var event := Slice(Packet(f, s, typ, 0, Body(typ, tableId, rows) + Zeroes(Slack(typ, tableId, rows))),
        spare);
            && StripMysql56(f, event).Done? && StripMariadb(f, event).Done?
            && (ParseEvent(f, StripMysql56(f, event).value, typ, tm) == Ends(Done(rows))
              <==> WellFormedRows(typ, rows, tm))
            && (ParseEvent(f, StripMariadb(f, event).value, typ, tm) == Ends(Done(rows))
              <==> WellFormedRows(typ, rows, tm))
  {
    var data := Body(typ, tableId, rows) + Zeroes(Slack(typ, tableId, rows));
    var event := Slice(Packet(f, s, typ, 0, data), spare);
    PacketRoundTrip(f, s, typ, 0, data, spare);
    hide Packet, Body, TotalSize, WellFormedRows, ParseEvent, StripMysql56, StripMariadb, BodyOf;
    StrippedParses(f, StripMysql56(f, event), typ, tableId, rows, tm);
    StrippedParses(f, StripMariadb(f, event), typ, tableId, rows, tm);
  }

  lemma StrippedParses(f: Format, stripped: Outcome<Slice>, typ: byte, tableId: nat, rows: Rows, tm: TableMaps.TableMap)
    requires 0 < typ as int <= |f.headerSizes| && f.headerSizes[typ - 1] != 6 && IsV2(typ) && ProperTable(tm)
    requires Shows(StrippedBody(f, stripped), Body(typ, tableId, rows) + Zeroes(Slack(typ, tableId, rows)))
    ensures stripped.Done? && (ParseEvent(f, stripped.value, typ, tm) == Ends(Done(rows))
        <==> WellFormedRows(typ, rows, tm))
  {
    hide Body, TotalSize, Parse, WellFormedRows, BodyOf;
    var body := BodyOf(f, stripped.value).value;
    if WellFormedRows(typ, rows, tm) {
      BodyExact(typ, tableId, rows, tm);
      assert Zeroes(0) == [] && Body(typ, tableId, rows) + [] == Body(typ, tableId, rows);
      RowsRoundTrip(typ, tableId, rows, tm, body.spare);
    }
    if ParseEvent(f, stripped.value, typ, tm) == Ends(Done(rows)) {
      ParsedIsWellFormed(body, 6, typ, tm);
    }
  }
}
