/** The Rows method of an event (mysql/binlog_event_rbr.go): bitmaps, then rows until the data ends. */
module RowsReader {
  import opened Prelude
  import opened Bytes
  import opened Slices
  import opened Bitmaps
  import opened Cells
  import opened BinlogPackets
  import opened TableMaps
  import opened RowsEvents

  function Plus(pos: nat, r: Outcome<nat>): Outcome<nat> { if r.Done? then Done(pos + r.value) else r }

  lemma PlusPlus(a: nat, b: nat, r: Outcome<nat>)
    ensures Plus(a, Plus(b, r)) == Plus(a + b, r) && (r.Failed? || r.Panicked? ==> Plus(a, r) == r)
  {
  }

  /** The loop over the columns that skips the cells of one image. */
  method SkipCells(data: seq<byte>, columns: Bitmap, nulls: Bitmap, tm: TableMap) returns (r: Outcome<nat>)
    requires columns.Valid() && nulls.Valid() && nulls.count == Ones(columns, columns.count) && ProperTable(tm)
    ensures r == Skip(data, Present(columns, nulls, 0, 0), tm)
  {
    hide Skip, Present, CellLength, Bitmap.Bit, After;
    var pos: nat, valueIndex: nat := 0, 0;
    ghost var all := Present(columns, nulls, 0, 0);
    Start(data, all, tm);
    for c := 0 to columns.count
      invariant valueIndex == Ones(columns, c) <= nulls.count
      invariant Skip(data, all, tm) == Plus(pos, Skip(After(data, pos), Present(columns, nulls, c, valueIndex), tm))
    {
      OnesStep(columns, c);
      PresentStep(columns, nulls, c, valueIndex);
      if !columns.Bit(c) {
        continue;
      }
      if nulls.Bit(valueIndex) {
        valueIndex := valueIndex + 1;
        continue;
      }
      ghost var rest := Present(columns, nulls, c + 1, valueIndex + 1);
      SkipStep(After(data, pos), c, rest, tm);
      if c >= |tm.types| {
        return Panicked;
      }
      var l := CellLength(After(data, pos), tm.types[c], tm.metadata[c]);
      if l.Failed? {
        return Failed;
      }
      if l.Panicked? {
        return Panicked;
      }
      LengthIsNatural(After(data, pos), tm.types[c], tm.metadata[c]);
      AfterAfter(data, pos, l.value);
      PlusPlus(pos, l.value, Skip(After(data, pos + l.value), rest, tm));
      pos := pos + l.value;
      valueIndex := valueIndex + 1;
    }
    PresentEnd(columns, nulls, valueIndex, After(data, pos), tm);
    return Done(pos);
  }

  lemma Start(data: seq<byte>, cs: seq<nat>, tm: TableMap)
    requires ProperTable(tm)
    ensures Skip(data, cs, tm) == Plus(0, Skip(After(data, 0), cs, tm))
  {
    assert data[0..] == data;
  }

  lemma PresentStep(columns: Bitmap, nulls: Bitmap, c: nat, v: nat)
    requires columns.Valid() && nulls.Valid() && c < columns.count
        && v + Ones(columns, columns.count) - Ones(columns, c) <= nulls.count
    ensures Ones(columns, c + 1) == Ones(columns, c) + (if columns.Bit(c) then 1 else 0) <= Ones(columns, columns.count)
    ensures v < nulls.count || !columns.Bit(c)
    ensures Present(columns, nulls, c, v) ==
            if !columns.Bit(c) then Present(columns, nulls, c + 1, v)
            else if nulls.Bit(v) then Present(columns, nulls, c + 1, v + 1)
            else [c] + Present(columns, nulls, c + 1, v + 1)
  {
    OnesStep(columns, c);
  }

  lemma SkipStep(data: seq<byte>, c: nat, cs: seq<nat>, tm: TableMap)
    requires ProperTable(tm)
    ensures c >= |tm.types| ==> Skip(data, [c] + cs, tm) == Panicked
    ensures c < |tm.types| ==>
              var l := CellLength(data, tm.types[c], tm.metadata[c]);
              && (l.Failed? ==> Skip(data, [c] + cs, tm) == Failed)
              && (l.Panicked? ==> Skip(data, [c] + cs, tm) == Panicked)
              && (l.Done? ==>
                    l.value >= 0 && Skip(data, [c] + cs, tm) == Plus(l.value, Skip(After(data, l.value), cs, tm)))
  {
    assert ([c] + cs)[1..] == cs;
    if c < |tm.types| && CellLength(data, tm.types[c], tm.metadata[c]).Done? {
      LengthIsNatural(data, tm.types[c], tm.metadata[c]);
    }
    hide CellLength, After;
  }

  lemma PresentEnd(columns: Bitmap, nulls: Bitmap, v: nat, data: seq<byte>, tm: TableMap)
    requires columns.Valid() && nulls.Valid() && v <= nulls.count && ProperTable(tm)
    ensures Skip(data, Present(columns, nulls, columns.count, v), tm) == Done(0)
  {
  }

  /** One image of a row. */
  method ReadImage(data: Slice, columns: Bitmap, count: nat, tm: TableMap) returns (r: Outcome<(Image, Slice)>)
    requires columns.Valid() && count == Ones(columns, columns.count) && ProperTable(tm)
    ensures r == ParseImage(data, columns, tm)
  {
    hide Skip, Present, Ones;
    var nulls := NewBitmap(data, count);
    if !nulls.Done? {
      return Panicked;
    }
    var rest := data.Drop(|nulls.value.data|);
    var n := SkipCells(rest.seen, columns, nulls.value, tm);
    if n.Failed? {
      return Failed;
    }
    if n.Panicked? || n.value > |rest.All()| {
      return Panicked;
    }
    return Done((Image(nulls.value, rest.All()[..n.value]), rest.Drop(n.value)));
  }

  method ReadRow(data: Slice, shape: Shape, identifyCount: nat, dataCount: nat, tm: TableMap)
      returns (r: Outcome<(Row, Slice)>)
    requires shape.Valid() && ProperTable(tm)
    requires identifyCount == Ones(shape.identify, shape.identify.count)
        && dataCount == Ones(shape.data, shape.data.count)
    ensures r == ParseRow(data, shape, tm)
  {
    hide ParseImage, Ones;
    var identify, image, rest := NoImage, NoImage, data;
    if shape.hasIdentify {
      var i := ReadImage(rest, shape.identify, identifyCount, tm);
      if i.Failed? {
        return Failed;
      }
      if i.Panicked? {
        return Panicked;
      }
      identify, rest := i.value.0, i.value.1;
    }
    if shape.hasData {
      var d := ReadImage(rest, shape.data, dataCount, tm);
      if d.Failed? {
        return Failed;
      }
      if d.Panicked? {
        return Panicked;
      }
      image, rest := d.value.0, d.value.1;
    }
    return Done((Row(identify, image), rest));
  }

  function Joined(rows: seq<Row>, r: Endless<seq<Row>>): Endless<seq<Row>> {
    if r.Ends? && r.outcome.Done? then Ends(Done(rows + r.outcome.value)) else r
  }

  lemma JoinedMore(rows: seq<Row>, row: Row, r: Endless<seq<Row>>)
    ensures Joined(rows, Joined([row], r)) == Joined(rows + [row], r)
    ensures Joined(rows, Ends(Failed)) == Ends(Failed) && Joined(rows, Ends(Panicked)) == Ends(Panicked)
        && Joined(rows, NeverEnds) == NeverEnds
    ensures Joined(rows, Ends(Done([]))) == Ends(Done(rows))
  {
    if r.Ends? && r.outcome.Done? {
      assert rows + ([row] + r.outcome.value) == rows + [row] + r.outcome.value;
    }
    assert rows + [] == rows;
  }

  lemma JoinedNone(r: Endless<seq<Row>>)
    ensures Joined([], r) == r
  {
    if r.Ends? && r.outcome.Done? {
      assert [] + r.outcome.value == r.outcome.value;
    }
  }

  lemma ListStep(data: Slice, shape: Shape, tm: TableMap)
    requires shape.Valid() && ProperTable(tm)
    ensures data.seen == [] ==> ParseList(data, shape, tm) == Ends(Done([]))
    ensures data.seen != [] ==>
              var r := ParseRow(data, shape, tm);
              && (r.Failed? ==> ParseList(data, shape, tm) == Ends(Failed))
              && (r.Panicked? ==> ParseList(data, shape, tm) == Ends(Panicked))
              && (r.Done? && |r.value.1.All()| == |data.All()| ==> ParseList(data, shape, tm) == NeverEnds)
              && (r.Done? && |r.value.1.All()| < |data.All()| ==>
                    ParseList(data, shape, tm) == Joined([r.value.0], ParseList(r.value.1, shape, tm)))
  {
    hide ParseRow;
  }

  /** The loop over the rows. A row that took no byte would be read again for ever: NeverEnds stands for that. */
  method ReadList(data: Slice, shape: Shape, tm: TableMap) returns (r: Endless<seq<Row>>)
    requires shape.Valid() && ProperTable(tm)
    ensures r == ParseList(data, shape, tm)
  {
    hide ParseList, Joined, ParseRow;
    var identifyCount := BitCount(shape.identify);
    var dataCount := BitCount(shape.data);
    var rest, rows: seq<Row> := data, [];
    JoinedNone(ParseList(data, shape, tm));
    while rest.seen != []
      invariant Joined(rows, ParseList(rest, shape, tm)) == ParseList(data, shape, tm)
      decreases |rest.All()|
    {
      ListStep(rest, shape, tm);
      var row := ReadRow(rest, shape, identifyCount, dataCount, tm);
      if row.Failed? {
        JoinedMore(rows, Row(NoImage, NoImage), NeverEnds);
        return Ends(Failed);
      }
      if row.Panicked? {
        JoinedMore(rows, Row(NoImage, NoImage), NeverEnds);
        return Ends(Panicked);
      }
      JoinedMore(rows, row.value.0, ParseList(row.value.1, shape, tm));
      if |row.value.1.All()| == |rest.All()| {
        return NeverEnds;
      }
      rows, rest := rows + [row.value.0], row.value.1;
    }
    ListStep(rest, shape, tm);
    JoinedMore(rows, Row(NoImage, NoImage), NeverEnds);
    return Ends(Done(rows));
  }

  /** The extra data of a version 2 event. */
  method ReadExtra(data: Slice, typ: byte) returns (r: Outcome<Slice>)
    ensures r == SkipExtra(data, typ) && !r.Failed?
  {
    hide FromLE;
    if typ == WriteRowsV2 || typ == UpdateRowsV2 || typ == DeleteRowsV2 {
      if |data.All()| < 2 {
        return Panicked;
      }
      var extra := FromLE(data.All()[..2]);
      if extra > |data.All()| {
        return Done(Slice([], []));
      }
      return Done(data.Drop(extra));
    }
    return Done(data);
  }

  /** The bitmaps of the columns present, and the rows. */
  method ReadContents(data: Slice, typ: byte, count: byte, flags: nat, tm: TableMap) returns (r: Endless<Rows>)
    requires ProperTable(tm)
    ensures r == ParseContents(data, typ, count, flags, tm)
  {
    hide ParseList;
    var hasIdentify := typ == UpdateRowsV1 || typ == UpdateRowsV2 || typ == DeleteRowsV1 || typ == DeleteRowsV2;
    var hasData := typ == WriteRowsV1 || typ == WriteRowsV2 || typ == UpdateRowsV1 || typ == UpdateRowsV2;
    assert hasIdentify == HasIdentify(typ) && hasData == HasData(typ);
    hide HasIdentify, HasData;
    var identify := NewBitmapIf(data, hasIdentify, count);
    if !identify.Done? {
      return Ends(Panicked);
    }
    var present := NewBitmapIf(identify.value.1, hasData, count);
    if !present.Done? {
      return Ends(Panicked);
    }
    var rows := ReadList(present.value.1, Shape(identify.value.0, present.value.0, hasIdentify, hasData), tm);
    if rows.NeverEnds? {
      return NeverEnds;
    }
    if rows.outcome.Failed? {
      return Ends(Failed);
    }
    if rows.outcome.Panicked? {
      return Ends(Panicked);
    }
    return Ends(Done(Rows(flags, identify.value.0, present.value.0, rows.outcome.value)));
  }

  /** The Rows method of an event. */
  method ReadRows(f: Format, event: Slice, typ: byte, tm: TableMap) returns (r: Endless<Rows>)
    requires 0 < typ as int <= |f.headerSizes| && ProperTable(tm)
    ensures r == RowsEvents.ParseEvent(f, event, typ, tm)
  {
    hide ParseContents, SkipExtra, FromLE;
    if |event.seen| < f.headerLength as int {
      return Ends(Panicked);
    }
    var data := Slice(event.seen[f.headerLength..], event.spare);
    var pos := if f.headerSizes[typ - 1] == 6 then 4 else 6;
    if |data.All()| < pos + 2 {
      return Ends(Panicked);
    }
    var flags := FromLE(data.All()[pos..pos + 2]);
    var rest := ReadExtra(data.Drop(pos + 2), typ);
    if rest.Panicked? || |rest.value.seen| == 0 {
      return Ends(Panicked);
    }
    r := ReadContents(rest.value.Drop(1), typ, rest.value.seen[0], flags, tm);
  }
}
