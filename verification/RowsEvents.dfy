/** Rows events (mysql/binlog_event_make.go, mysql/binlog_event_rbr.go): the writer, the parser, and
    the walk over the cells of one row. */
module RowsEvents {
  import opened Prelude
  import opened Bytes
  import opened Encoding
  import opened Slices
  import opened Bitmaps
  import opened Cells
  import opened BinlogPackets
  import opened TableMaps

  const WriteRowsV1: byte := 23
  const UpdateRowsV1: byte := 24
  const DeleteRowsV1: byte := 25
  const WriteRowsV2: byte := 30
  const UpdateRowsV2: byte := 31
  const DeleteRowsV2: byte := 32

  predicate IsV2(typ: byte) { typ in {WriteRowsV2, UpdateRowsV2, DeleteRowsV2} }
  predicate HasIdentify(typ: byte) { typ in {UpdateRowsV1, UpdateRowsV2, DeleteRowsV1, DeleteRowsV2} }
  predicate HasData(typ: byte) { typ in {WriteRowsV1, WriteRowsV2, UpdateRowsV1, UpdateRowsV2} }

  /** The six types of rows events by their numbers: inserts have the new row, deletes the old one, updates both. */
  lemma ImagesByType(typ: byte)
    ensures HasData(typ) && !HasIdentify(typ) <==> typ in {23, 30}
    ensures HasData(typ) && HasIdentify(typ) <==> typ in {24, 31}
    ensures !HasData(typ) && HasIdentify(typ) <==> typ in {25, 32}
    ensures IsV2(typ) <==> 30 <= typ <= 32
  {
  }

  const NoBits := Bitmap([], 0)

  /** One image of a row: which of its columns are NULL, and the bytes of the others. */
  datatype Image = Image(nulls: Bitmap, cells: seq<byte>)

  const NoImage := Image(NoBits, [])

  datatype Row = Row(identify: Image, data: Image)

  datatype Rows = Rows(flags: nat, identifyColumns: Bitmap, dataColumns: Bitmap, rows: seq<Row>)

  // ----------------------------------------------------------------- the cells of a row

  /** The columns with bytes in an image, from column c on: present and not NULL. NULL bits are numbered
      among the present columns, v of which precede c. */
  function Present(columns: Bitmap, nulls: Bitmap, c: nat, v: nat): (cs: seq<nat>)
    requires columns.Valid() && nulls.Valid() && c <= columns.count
        && v + Ones(columns, columns.count) - Ones(columns, c) <= nulls.count
    ensures forall i :: 0 <= i < |cs| ==> cs[i] < columns.count
    decreases columns.count - c
  {
    if c == columns.count then []
    else
      OnesStep(columns, c);
      if !columns.Bit(c) then Present(columns, nulls, c + 1, v)
      else if nulls.Bit(v) then Present(columns, nulls, c + 1, v + 1)
      else [c] + Present(columns, nulls, c + 1, v + 1)
  }

  lemma OnesStep(b: Bitmap, c: nat)
    requires b.Valid() && c < b.count
    ensures Ones(b, c + 1) == Ones(b, c) + if b.Bit(c) then 1 else 0
    ensures Ones(b, c + 1) <= Ones(b, b.count)
  {
    OnesGrow(b, c + 1, b.count);
  }

  lemma {:induction false} OnesGrow(b: Bitmap, m: nat, n: nat)
    requires b.Valid() && m <= n <= b.count
    ensures Ones(b, m) <= Ones(b, n)
    decreases n - m
  {
    if m < n {
      OnesGrow(b, m, n - 1);
    }
  }

  /** The table map knows the type and metadata of every column it lists. */
  predicate ProperTable(tm: TableMap) {
    |tm.types| == |tm.metadata| && forall i :: 0 <= i < |tm.metadata| ==> tm.metadata[i] < 0x1_0000
  }

  /** The length of these cells in a row: cellLength, column after column. */
  function Skip(data: seq<byte>, cs: seq<nat>, tm: TableMap): (r: Outcome<nat>)
    requires ProperTable(tm)
    decreases |cs|
  {
    if cs == [] then Done(0)
    else if cs[0] >= |tm.types| then Panicked
    else
      match CellLength(data, tm.types[cs[0]], tm.metadata[cs[0]])
      case Failed => Failed
      case Panicked => Panicked
      case Done(l) =>
        LengthIsNatural(data, tm.types[cs[0]], tm.metadata[cs[0]]);
        match Skip(After(data, l), cs[1..], tm)
        case Failed => Failed
        case Panicked => Panicked
        case Done(n) => Done(l + n)
  }

  /** The first cell that is skipped, and the rest. */
  lemma SkipFirst(data: seq<byte>, cs: seq<nat>, tm: TableMap) returns (l: nat)
    requires ProperTable(tm) && cs != [] && cs[0] < |tm.types|
        && CellLength(data, tm.types[cs[0]], tm.metadata[cs[0]]).Done?
    ensures CellLength(data, tm.types[cs[0]], tm.metadata[cs[0]]) == Done(l)
    ensures var r := Skip(After(data, l), cs[1..], tm); Skip(data, cs, tm) == if r.Done? then Done(l + r.value) else r
  {
    hide CellLength, After;
    LengthIsNatural(data, tm.types[cs[0]], tm.metadata[cs[0]]);
    l := CellLength(data, tm.types[cs[0]], tm.metadata[cs[0]]).value;
  }

  lemma SkipNone(data: seq<byte>, tm: TableMap)
    requires ProperTable(tm)
    ensures Skip(data, [], tm) == Done(0)
  {
  }

  lemma SkipDone(data: seq<byte>, cs: seq<nat>, tm: TableMap)
    requires ProperTable(tm) && cs != [] && Skip(data, cs, tm).Done?
    ensures cs[0] < |tm.types| == |tm.metadata| && CellLength(data, tm.types[cs[0]], tm.metadata[cs[0]]).Done?
    ensures |tm.types| == |tm.metadata| && tm.metadata[cs[0]] < 0x1_0000
  {
    hide CellLength;
  }

  /** Skipping looks at no byte beyond the cells, so the cells alone, or the cells and anything after them, skip
      alike. */
  lemma {:induction false} SkipIsLocal(data: seq<byte>, cs: seq<nat>, tm: TableMap, n: nat)
    requires ProperTable(tm) && Skip(data, cs, tm).Done? && Skip(data, cs, tm).value <= n <= |data|
    ensures Skip(data[..n], cs, tm) == Skip(data, cs, tm)
    decreases |cs|
  {
    hide *;
    if cs == [] {
      SkipNone(data, tm);
      SkipNone(data[..n], tm);
    } else {
      SkipDone(data, cs, tm);
      var l := SkipFirst(data, cs, tm);
      LengthIsLocal(data, tm.types[cs[0]], tm.metadata[cs[0]], n);
      var _ := SkipFirst(data[..n], cs, tm);
      AfterPrefix(data, l, n);
      SkipIsLocal(data[l..], cs[1..], tm, n - l);
    }
  }

  lemma AfterPrefix(data: seq<byte>, l: nat, n: nat)
    requires l <= n <= |data|
    ensures After(data, l) == data[l..] && After(data[..n], l) == data[l..][..n - l]
  {
  }

  lemma {:induction false} SkipExtends(cells: seq<byte>, rest: seq<byte>, cs: seq<nat>, tm: TableMap)
    requires ProperTable(tm) && Skip(cells, cs, tm).Done? && Skip(cells, cs, tm).value <= |cells|
    ensures Skip(cells + rest, cs, tm) == Skip(cells, cs, tm)
    decreases |cs|
  {
    hide *;
    if cs == [] {
      SkipNone(cells, tm);
      SkipNone(cells + rest, tm);
    } else {
      SkipDone(cells, cs, tm);
      var l := SkipFirst(cells, cs, tm);
      LengthExtends(cells, rest, tm.types[cs[0]], tm.metadata[cs[0]]);
      var _ := SkipFirst(cells + rest, cs, tm);
      AfterConcat(cells, rest, l);
      SkipExtends(cells[l..], rest, cs[1..], tm);
    }
  }

  lemma AfterConcat(cells: seq<byte>, rest: seq<byte>, l: nat)
    requires l <= |cells|
    ensures After(cells, l) == cells[l..] && After(cells + rest, l) == cells[l..] + rest
  {
  }

  lemma LengthExtends(cell: seq<byte>, rest: seq<byte>, typ: byte, metadata: nat)
    requires metadata < 0x1_0000 && CellLength(cell, typ, metadata).Done?
    ensures CellLength(cell + rest, typ, metadata) == CellLength(cell, typ, metadata)
  {
    LengthSeen(cell, rest, typ, metadata);
    hide CellLength, LengthBytes;
  }

  // ------------------------------------------------------- cells that reach behind the length

  /** Every cell has the bytes that state its length among the first `seen`. */
  predicate LengthsSeen(cells: seq<byte>, cs: seq<nat>, tm: TableMap, seen: nat)
    requires ProperTable(tm)
    decreases |cs|
  {
    cs != [] && cs[0] < |tm.types| ==>
      var l := CellLength(cells, tm.types[cs[0]], tm.metadata[cs[0]]);
      l.Done? && l.value >= 0 ==>
        && LengthBytes(tm.types[cs[0]], tm.metadata[cs[0]]) <= seen
        && LengthsSeen(After(cells, l.value), cs[1..], tm, Left(seen, l.value))
  }

  lemma SeenNone(cells: seq<byte>, tm: TableMap, seen: nat)
    requires ProperTable(tm)
    ensures LengthsSeen(cells, [], tm, seen)
  {
  }

  lemma SeenFirst(cells: seq<byte>, cs: seq<nat>, tm: TableMap, seen: nat, l: nat)
    requires ProperTable(tm) && cs != [] && cs[0] < |tm.types|
        && CellLength(cells, tm.types[cs[0]], tm.metadata[cs[0]]) == Done(l)
    ensures LengthsSeen(cells, cs, tm, seen)
       <==> && LengthBytes(tm.types[cs[0]], tm.metadata[cs[0]]) <= seen
            && LengthsSeen(After(cells, l), cs[1..], tm, Left(seen, l))
  {
    hide CellLength, LengthBytes, After, Left;
  }

  lemma AfterBoth(front: seq<byte>, back: seq<byte>, l: nat) returns (behind: seq<byte>)
    ensures After(front + back, l) == After(front, l) + behind && |After(front, l)| == Left(|front|, l)
  {
    behind := if l <= |front| then back else After(back, l - |front|);
  }

  /** Skipping with only the front in sight: it succeeds where skipping with everything in sight does and
      all lengths are in sight, and then gives the same. */
  lemma {:induction false} SkipSeen(front: seq<byte>, back: seq<byte>, cs: seq<nat>, tm: TableMap)
    requires ProperTable(tm)
    ensures Skip(front, cs, tm).Done? ==> Skip(front + back, cs, tm) == Skip(front, cs, tm)
    ensures Skip(front + back, cs, tm).Done?
        ==> (Skip(front, cs, tm).Done? <==> LengthsSeen(front + back, cs, tm, |front|))
    decreases |cs|
  {
    hide *;
    if cs == [] {
      SkipNone(front, tm);
      SkipNone(front + back, tm);
      SeenNone(front + back, tm, |front|);
    } else if Skip(front, cs, tm).Done? || Skip(front + back, cs, tm).Done? {
      if Skip(front, cs, tm).Done? {
        SkipDone(front, cs, tm);
      } else {
        SkipDone(front + back, cs, tm);
      }
      LengthSeen(front, back, tm.types[cs[0]], tm.metadata[cs[0]]);
      var l := SkipFirst(front + back, cs, tm);
      SeenFirst(front + back, cs, tm, |front|, l);
      if CellLength(front, tm.types[cs[0]], tm.metadata[cs[0]]).Done? {
        var _ := SkipFirst(front, cs, tm);
        var behind := AfterBoth(front, back, l);
        SkipSeen(After(front, l), behind, cs[1..], tm);
      } else if Skip(front, cs, tm).Done? {
        SkipDone(front, cs, tm);
      }
    }
  }

  /** Whether the lengths are in sight does not depend on what follows the cells. */
  lemma {:induction false} SeenExtends(cells: seq<byte>, rest: seq<byte>, cs: seq<nat>, tm: TableMap, seen: nat)
    requires ProperTable(tm) && Skip(cells, cs, tm).Done? && Skip(cells, cs, tm).value <= |cells|
    ensures LengthsSeen(cells + rest, cs, tm, seen) <==> LengthsSeen(cells, cs, tm, seen)
    decreases |cs|
  {
    hide *;
    if cs == [] {
      SeenNone(cells, tm, seen);
      SeenNone(cells + rest, tm, seen);
    } else {
      SkipDone(cells, cs, tm);
      var l := SkipFirst(cells, cs, tm);
      LengthExtends(cells, rest, tm.types[cs[0]], tm.metadata[cs[0]]);
      SeenFirst(cells, cs, tm, seen, l);
      SeenFirst(cells + rest, cs, tm, seen, l);
      AfterConcat(cells, rest, l);
      SeenExtends(cells[l..], rest, cs[1..], tm, Left(seen, l));
    }
  }

  /** When every cell is in sight, so are the lengths. */
  lemma {:induction false} SeenWhole(cells: seq<byte>, cs: seq<nat>, tm: TableMap, seen: nat)
    requires ProperTable(tm) && Skip(cells, cs, tm).Done? && Skip(cells, cs, tm).value <= seen
    ensures LengthsSeen(cells, cs, tm, seen)
    decreases |cs|
  {
    hide *;
    if cs == [] {
      SeenNone(cells, tm, seen);
    } else {
      SkipDone(cells, cs, tm);
      var l := SkipFirst(cells, cs, tm);
      LengthSeen(cells, [], tm.types[cs[0]], tm.metadata[cs[0]]);
      assert cells + [] == cells;
      SeenFirst(cells, cs, tm, seen, l);
      LeftIs(seen, l);
      SeenWhole(After(cells, l), cs[1..], tm, Left(seen, l));
    }
  }

  lemma LeftIs(seen: nat, n: nat)
    ensures n <= seen ==> Left(seen, n) == seen - n
  {
  }

  // ------------------------------------------------------------------- specification

  /** An image and what is left of the data after it. The cells are sliced, so they may end in spare bytes. */
  function ParseImage(data: Slice, columns: Bitmap, tm: TableMap): (r: Outcome<(Image, Slice)>)
    requires columns.Valid() && ProperTable(tm)
    ensures r.Done? ==> |r.value.1.All()| + Storage(Ones(columns, columns.count)) <= |data.All()|
  {
    match NewBitmap(data, Ones(columns, columns.count))
    case Failed => Failed
    case Panicked => Panicked
    case Done(nulls) =>
      var rest := data.Drop(|nulls.data|);
      Dropped(data, |nulls.data|);
      match Skip(rest.seen, Present(columns, nulls, 0, 0), tm)
      case Failed => Failed
      case Panicked => Panicked
      case Done(n) => if n > |rest.All()| then Panicked
        else Dropped(rest, n); Done((Image(nulls, rest.All()[..n]), rest.Drop(n)))
  }

  /** The images that fit a set of columns: one NULL bit for each, and exactly the bytes of the others. */
  predicate WellFormedImage(im: Image, columns: Bitmap, tm: TableMap)
    requires columns.Valid() && ProperTable(tm)
  {
    && im.nulls.Valid() && im.nulls.count == Ones(columns, columns.count)
    && Skip(im.cells, Present(columns, im.nulls, 0, 0), tm) == Done(|im.cells|)
  }

  function ImageBytes(im: Image): seq<byte> { im.nulls.data + im.cells }

  /** The lengths stated in an image are among the first `seen` bytes. */
  predicate ImageSeen(im: Image, columns: Bitmap, tm: TableMap, seen: nat)
    requires columns.Valid() && ProperTable(tm) && WellFormedImage(im, columns, tm)
  {
    LengthsSeen(im.cells, Present(columns, im.nulls, 0, 0), tm, Left(seen, |im.nulls.data|))
  }

  lemma ImageParses(data: Slice, im: Image, columns: Bitmap, tm: TableMap, rest: Slice)
    requires columns.Valid() && ProperTable(tm) && WellFormedImage(im, columns, tm)
    requires Takes(data, ImageBytes(im), rest) && ImageSeen(im, columns, tm, |data.seen|)
    ensures ParseImage(data, columns, tm) == Done((im, rest))
  {
    hide Skip, Present, Ones, LengthsSeen, ParseImage;
    var cs, k, n := Present(columns, im.nulls, 0, 0), |im.nulls.data|, |im.cells|;
    TakesBoth(data, im.nulls.data, im.cells, rest);
    var mid := data.Drop(k);
    Dropped(data, k);
    var tail := mid.All()[n..];
    assert mid.All() == im.cells + tail;
    SkipExtends(im.cells, tail, cs, tm);
    SeenExtends(im.cells, tail, cs, tm, |mid.seen|);
    SkipSeen(mid.seen, mid.spare, cs, tm);
    assert data.All()[..k] == im.nulls.data;
    ParseImageIs(data, im, columns, tm);
  }

  lemma ParseImageIs(data: Slice, im: Image, columns: Bitmap, tm: TableMap)
    requires columns.Valid() && ProperTable(tm) && im.nulls.Valid() && im.nulls.count == Ones(columns, columns.count)
    requires im.nulls.data <= data.All() && im.cells <= data.Drop(|im.nulls.data|).All()
    requires Skip(data.Drop(|im.nulls.data|).seen, Present(columns, im.nulls, 0, 0), tm) == Done(|im.cells|)
    ensures ParseImage(data, columns, tm) == Done((im, data.Drop(|im.nulls.data|).Drop(|im.cells|)))
  {
    hide Skip, Present, Ones;
    assert data.All()[..|im.nulls.data|] == im.nulls.data;
    assert NewBitmap(data, im.nulls.count) == Done(im.nulls);
    assert data.Drop(|im.nulls.data|).All()[..|im.cells|] == im.cells;
  }

  lemma ParsedImage(data: Slice, columns: Bitmap, tm: TableMap)
    requires columns.Valid() && ProperTable(tm) && ParseImage(data, columns, tm).Done?
    ensures var (im, rest) := ParseImage(data, columns, tm).value;
            WellFormedImage(im, columns, tm) && Takes(data, ImageBytes(im), rest)
              && ImageSeen(im, columns, tm, |data.seen|)
  {
    hide Skip, Present, Ones, LengthsSeen;
    var (im, rest) := ParseImage(data, columns, tm).value;
    var cs, k, n := Present(columns, im.nulls, 0, 0), |im.nulls.data|, |im.cells|;
    var mid := data.Drop(k);
    Dropped(data, k);
    SkipSeen(mid.seen, mid.spare, cs, tm);
    SkipIsLocal(mid.All(), cs, tm, n);
    assert mid.All() == im.cells + mid.All()[n..];
    SeenExtends(im.cells, mid.All()[n..], cs, tm, |mid.seen|);
    TakesBoth(data, im.nulls.data, im.cells, rest);
  }

  /** Parsing an image is the inverse of writing it. It takes the bytes of the image, into the spare ones if it
      must, exactly when the image fits and the lengths it states are not spare. */
  lemma ImageRoundTrip(data: Slice, im: Image, columns: Bitmap, tm: TableMap, rest: Slice)
    requires columns.Valid() && ProperTable(tm)
    ensures ParseImage(data, columns, tm) == Done((im, rest))
       <==> && WellFormedImage(im, columns, tm) && Takes(data, ImageBytes(im), rest)
            && ImageSeen(im, columns, tm, |data.seen|)
  {
    hide ParseImage, WellFormedImage, ImageBytes, ImageSeen, Takes;
    if WellFormedImage(im, columns, tm) && Takes(data, ImageBytes(im), rest)
      && ImageSeen(im, columns, tm, |data.seen|) {
      ImageParses(data, im, columns, tm, rest);
    }
    if ParseImage(data, columns, tm).Done? {
      ParsedImage(data, columns, tm);
    }
  }

  /** The columns of the two images of a rows event, and which of them it has. */
  datatype Shape = Shape(identify: Bitmap, data: Bitmap, hasIdentify: bool, hasData: bool) {
    predicate Valid() {
      identify.Valid() && data.Valid() && (!hasIdentify ==> identify == NoBits) && (!hasData ==> data == NoBits)
    }

    /** Some column is present, so a row has at least a byte of NULL bits. */
    predicate Inhabited()
      requires Valid()
    {
      Ones(identify, identify.count) > 0 || Ones(data, data.count) > 0
    }
  }

  predicate WellFormedRow(row: Row, shape: Shape, tm: TableMap)
    requires shape.Valid() && ProperTable(tm)
  {
    && (if shape.hasIdentify then WellFormedImage(row.identify, shape.identify, tm) else row.identify == NoImage)
    && (if shape.hasData then WellFormedImage(row.data, shape.data, tm) else row.data == NoImage)
  }

  function RowBytes(row: Row, shape: Shape): seq<byte> {
    (if shape.hasIdentify then ImageBytes(row.identify) else []) + (if shape.hasData then ImageBytes(row.data) else [])
  }

  /** The lengths stated in a row are among the first `seen` bytes. */
  predicate RowSeen(row: Row, shape: Shape, tm: TableMap, seen: nat)
    requires shape.Valid() && ProperTable(tm) && WellFormedRow(row, shape, tm)
  {
    && (shape.hasIdentify ==> ImageSeen(row.identify, shape.identify, tm, seen))
    && (shape.hasData ==> ImageSeen(row.data, shape.data, tm,
      Left(seen, if shape.hasIdentify then |ImageBytes(row.identify)| else 0)))
  }

  function ParseImageIf(data: Slice, has: bool, columns: Bitmap, tm: TableMap): (r: Outcome<(Image, Slice)>)
    requires columns.Valid() && ProperTable(tm) && (!has ==> columns == NoBits)
    ensures r.Done? ==> |r.value.1.All()| + Storage(Ones(columns, columns.count)) <= |data.All()|
  {
    if has then ParseImage(data, columns, tm) else Done((NoImage, data))
  }

  function ParseRow(data: Slice, shape: Shape, tm: TableMap): (r: Outcome<(Row, Slice)>)
    requires shape.Valid() && ProperTable(tm)
    ensures r.Done? ==> |r.value.1.All()| <= |data.All()| && (shape.Inhabited() ==> |r.value.1.All()| < |data.All()|)
  {
    match ParseImageIf(data, shape.hasIdentify, shape.identify, tm)
    case Failed => Failed
    case Panicked => Panicked
    case Done((identify, rest)) =>
      match ParseImageIf(rest, shape.hasData, shape.data, tm)
      case Failed => Failed
      case Panicked => Panicked
      case Done((image, rest')) => Done((Row(identify, image), rest'))
  }

  predicate WellFormedIf(im: Image, has: bool, columns: Bitmap, tm: TableMap)
    requires columns.Valid() && ProperTable(tm)
  {
    if has then WellFormedImage(im, columns, tm) else im == NoImage
  }

  function BytesIf(im: Image, has: bool): seq<byte> { if has then ImageBytes(im) else [] }

  predicate SeenIf(im: Image, has: bool, columns: Bitmap, tm: TableMap, seen: nat)
    requires columns.Valid() && ProperTable(tm) && WellFormedIf(im, has, columns, tm)
  {
    has ==> ImageSeen(im, columns, tm, seen)
  }

  lemma ImageIfRoundTrip(data: Slice, im: Image, has: bool, columns: Bitmap, tm: TableMap, rest: Slice)
    requires columns.Valid() && ProperTable(tm) && (!has ==> columns == NoBits)
    ensures ParseImageIf(data, has, columns, tm) == Done((im, rest))
       <==> && WellFormedIf(im, has, columns, tm) && Takes(data, BytesIf(im, has), rest)
            && SeenIf(im, has, columns, tm, |data.seen|)
  {
    if has {
      ImageRoundTrip(data, im, columns, tm, rest);
      hide ParseImage, WellFormedImage, ImageBytes, ImageSeen, Takes;
    } else {
      assert data.Drop(0) == data;
    }
  }

  /** The same for a row of one or two images. */
  lemma RowRoundTrip(data: Slice, row: Row, shape: Shape, tm: TableMap, rest: Slice)
    requires shape.Valid() && ProperTable(tm)
    ensures ParseRow(data, shape, tm) == Done((row, rest))
       <==> && WellFormedRow(row, shape, tm) && Takes(data, RowBytes(row, shape), rest)
            && RowSeen(row, shape, tm, |data.seen|)
  {
    hide *;
    var first, second := BytesIf(row.identify, shape.hasIdentify), BytesIf(row.data, shape.hasData);
    RowParts(row, shape, tm, |data.seen|);
    ParsedRow(data, shape, tm);
    TakesBoth(data, first, second, rest);
    var middle := ParseImageIf(data, shape.hasIdentify, shape.identify, tm);
    if middle.Done? {
      ImageIfRoundTrip(data, middle.value.0, shape.hasIdentify, shape.identify, tm, middle.value.1);
      ImageIfRoundTrip(middle.value.1, row.data, shape.hasData, shape.data, tm, rest);
      TakesIs(data, first, middle.value.1);
    }
    if first <= data.All() {
      var mid := data.Drop(|first|);
      Dropped(data, |first|);
      TakesIs(data, first, mid);
      ImageIfRoundTrip(data, row.identify, shape.hasIdentify, shape.identify, tm, mid);
    }
  }

  lemma RowParts(row: Row, shape: Shape, tm: TableMap, seen: nat)
    requires shape.Valid() && ProperTable(tm)
    ensures shape.identify.Valid() && shape.data.Valid() && (!shape.hasIdentify ==> shape.identify == NoBits)
        && (!shape.hasData ==> shape.data == NoBits)
    ensures RowBytes(row, shape) == BytesIf(row.identify, shape.hasIdentify) + BytesIf(row.data, shape.hasData)
    ensures WellFormedRow(row, shape, tm)
       <==> && WellFormedIf(row.identify, shape.hasIdentify, shape.identify, tm)
            && WellFormedIf(row.data, shape.hasData, shape.data, tm)
    ensures WellFormedRow(row, shape, tm) ==>
              (RowSeen(row, shape, tm, seen)
          <==> && SeenIf(row.identify, shape.hasIdentify, shape.identify, tm, seen)
               && SeenIf(row.data, shape.hasData, shape.data, tm,
                 Left(seen, |BytesIf(row.identify, shape.hasIdentify)|)))
  {
    hide WellFormedImage, ImageBytes, ImageSeen;
  }

  lemma ParsedRow(data: Slice, shape: Shape, tm: TableMap)
    requires shape.Valid() && ProperTable(tm)
    requires shape.identify.Valid() && shape.data.Valid() && (!shape.hasIdentify ==> shape.identify == NoBits)
        && (!shape.hasData ==> shape.data == NoBits)
    ensures var r, i := ParseRow(data, shape, tm), ParseImageIf(data, shape.hasIdentify, shape.identify, tm);
            && (r.Done? ==> i.Done?)
            && (i.Done? ==>
                  var d := ParseImageIf(i.value.1, shape.hasData, shape.data, tm);
                  && (r.Done? <==> d.Done?)
                  && (d.Done? ==> r == Done((Row(i.value.0, d.value.0), d.value.1))))
  {
    hide ParseImageIf;
  }

  /** A loop that ends, or one that never does. */
  datatype Endless<+T> = Ends(outcome: Outcome<T>) | NeverEnds

  /** The loop over the rows, as long as there are bytes to be seen. A row that takes no byte leaves the loop
      where it was. */
  function ParseList(data: Slice, shape: Shape, tm: TableMap): Endless<seq<Row>>
    requires shape.Valid() && ProperTable(tm)
    decreases |data.All()|
  {
    if data.seen == [] then Ends(Done([]))
    else
      match ParseRow(data, shape, tm)
      case Failed => Ends(Failed)
      case Panicked => Ends(Panicked)
      case Done((row, rest)) =>
        if |rest.All()| == |data.All()| then NeverEnds
        else
          match ParseList(rest, shape, tm)
          case NeverEnds => NeverEnds
          case Ends(Failed) => Ends(Failed)
          case Ends(Panicked) => Ends(Panicked)
          case Ends(Done(rows)) => Ends(Done([row] + rows))
  }

  function ListBytes(rows: seq<Row>, shape: Shape): seq<byte> {
    if rows == [] then [] else RowBytes(rows[0], shape) + ListBytes(rows[1..], shape)
  }

  predicate WellFormedList(rows: seq<Row>, shape: Shape, tm: TableMap)
    requires shape.Valid() && ProperTable(tm)
  {
    (rows != [] ==> shape.Inhabited()) && forall i :: 0 <= i < |rows| ==> WellFormedRow(rows[i], shape, tm)
  }

  /** Every row starts, and states its lengths, among the first `seen` bytes. */
  predicate ListSeen(rows: seq<Row>, shape: Shape, tm: TableMap, seen: nat)
    requires shape.Valid() && ProperTable(tm) && WellFormedList(rows, shape, tm)
  {
    rows != [] ==>
      seen > 0 && RowSeen(rows[0], shape, tm, seen)
        && ListSeen(rows[1..], shape, tm, Left(seen, |RowBytes(rows[0], shape)|))
  }

  /** The row loop fails to end exactly when there are bytes left and no column is present. */
  lemma {:induction false} LoopEnds(data: Slice, shape: Shape, tm: TableMap)
    requires shape.Valid() && ProperTable(tm)
    ensures ParseList(data, shape, tm).NeverEnds? <==> data.seen != [] && !shape.Inhabited()
    decreases |data.All()|
  {
    if data.seen != [] {
      if !shape.Inhabited() {
        EmptyRow(data, shape, tm);
      } else {
        hide ParseRow;
        var r := ParseRow(data, shape, tm);
        if r.Done? {
          LoopEnds(r.value.1, shape, tm);
        }
      }
    }
  }

  lemma EmptyRow(data: Slice, shape: Shape, tm: TableMap)
    requires shape.Valid() && ProperTable(tm) && !shape.Inhabited()
    ensures ParseRow(data, shape, tm) == Done((Row(NoImage, NoImage), data))
  {
    EmptyImage(data, shape.identify, tm);
    EmptyImage(data, shape.data, tm);
    hide ParseImage, Ones;
  }

  lemma EmptyImage(data: Slice, columns: Bitmap, tm: TableMap)
    requires columns.Valid() && ProperTable(tm) && Ones(columns, columns.count) == 0
    ensures ParseImage(data, columns, tm) == Done((NoImage, data))
  {
    NothingPresent(columns, NoBits, 0);
    assert data.All()[..0] == [] && data.Drop(0) == data;
    hide Ones, Present;
  }

  lemma {:induction false} NothingPresent(columns: Bitmap, nulls: Bitmap, c: nat)
    requires columns.Valid() && nulls.Valid() && Ones(columns, columns.count) == 0 && c <= columns.count
    ensures Ones(columns, c) == 0 && Present(columns, nulls, c, 0) == []
    decreases columns.count - c
  {
    OnesGrow(columns, c, columns.count);
    if c < columns.count {
      OnesStep(columns, c);
      NothingPresent(columns, nulls, c + 1);
    }
  }

  lemma {:induction false} ListParses(data: Slice, rows: seq<Row>, shape: Shape, tm: TableMap)
    requires shape.Valid() && ProperTable(tm) && WellFormedList(rows, shape, tm)
    requires |data.seen| <= |ListBytes(rows, shape)| && ListBytes(rows, shape) <= data.All()
        && ListSeen(rows, shape, tm, |data.seen|)
    ensures ParseList(data, shape, tm) == Ends(Done(rows))
    decreases |rows|
  {
    if rows != [] {
      hide ParseRow, WellFormedRow, RowBytes, RowSeen, Shape.Inhabited, Ones, Takes;
      var row, more := rows[0], rows[1..];
      var bs := RowBytes(row, shape);
      var rest := FirstTaken(data, bs, ListBytes(more, shape));
      RowRoundTrip(data, row, shape, tm, rest);
      ListParses(rest, more, shape, tm);
      assert rows == [row] + more;
    }
  }

  /** The first row is taken, and the others are in what is left. */
  lemma FirstTaken(data: Slice, bs: seq<byte>, more: seq<byte>) returns (rest: Slice)
    requires bs + more <= data.All() && |data.seen| <= |bs + more|
    ensures Takes(data, bs, rest) && more <= rest.All() && |rest.seen| == Left(|data.seen|, |bs|) <= |more|
    ensures |rest.All()| == |data.All()| - |bs|
  {
    assert bs <= bs + more <= data.All();
    rest := data.Drop(|bs|);
    Dropped(data, |bs|);
    TakesBoth(data, bs, more, data.Drop(|bs + more|));
  }

  lemma {:induction false} ParsedList(data: Slice, shape: Shape, tm: TableMap)
    requires shape.Valid() && ProperTable(tm) && ParseList(data, shape, tm).Ends?
        && ParseList(data, shape, tm).outcome.Done?
    ensures var rows := ParseList(data, shape, tm).outcome.value;
            && WellFormedList(rows, shape, tm) && |data.seen| <= |ListBytes(rows, shape)|
            && ListBytes(rows, shape) <= data.All() && ListSeen(rows, shape, tm, |data.seen|)
    decreases |data.All()|
  {
    if data.seen != [] {
      LoopEnds(data, shape, tm);
      hide ParseRow, WellFormedRow, RowBytes, RowSeen, Shape.Inhabited, Ones, Takes;
      var (row, rest) := ParseRow(data, shape, tm).value;
      RowRoundTrip(data, row, shape, tm, rest);
      ParsedList(rest, shape, tm);
      var rows := ParseList(rest, shape, tm).outcome.value;
      assert ([row] + rows)[1..] == rows;
      TakenFirst(data, RowBytes(row, shape), rest, ListBytes(rows, shape));
    }
  }

  lemma TakenFirst(data: Slice, bs: seq<byte>, rest: Slice, more: seq<byte>)
    requires Takes(data, bs, rest) && more <= rest.All() && |rest.seen| <= |more|
    ensures bs + more <= data.All() && |data.seen| <= |bs + more| && |rest.seen| == Left(|data.seen|, |bs|)
  {
    Dropped(data, |bs|);
    TakesBoth(data, bs, more, rest.Drop(|more|));
  }

  /** The rows read from some bytes are well-formed rows that are written as those bytes, followed by some of the
      spare ones: exactly those that start and state their lengths before the spare bytes and end after all others. */
  lemma ListRoundTrip(data: Slice, rows: seq<Row>, shape: Shape, tm: TableMap)
    requires shape.Valid() && ProperTable(tm)
    ensures ParseList(data, shape, tm) == Ends(Done(rows))
       <==> && WellFormedList(rows, shape, tm) && |data.seen| <= |ListBytes(rows, shape)|
            && ListBytes(rows, shape) <= data.All() && ListSeen(rows, shape, tm, |data.seen|)
  {
    hide ParseList, ListBytes, WellFormedList, ListSeen;
    if && WellFormedList(rows, shape, tm) && |data.seen| <= |ListBytes(rows, shape)|
       && ListBytes(rows, shape) <= data.All() && ListSeen(rows, shape, tm, |data.seen|) {
      ListParses(data, rows, shape, tm);
    }
    if ParseList(data, shape, tm).Ends? && ParseList(data, shape, tm).outcome.Done? {
      ParsedList(data, shape, tm);
    }
  }

  lemma ImageSeenWhole(im: Image, columns: Bitmap, tm: TableMap, seen: nat)
    requires columns.Valid() && ProperTable(tm) && WellFormedImage(im, columns, tm) && |ImageBytes(im)| <= seen
    ensures ImageSeen(im, columns, tm, seen)
  {
    hide Skip, Present, Ones, LengthsSeen;
    SeenWhole(im.cells, Present(columns, im.nulls, 0, 0), tm, Left(seen, |im.nulls.data|));
  }

  lemma RowSeenWhole(row: Row, shape: Shape, tm: TableMap, seen: nat)
    requires shape.Valid() && ProperTable(tm) && WellFormedRow(row, shape, tm) && |RowBytes(row, shape)| <= seen
    ensures RowSeen(row, shape, tm, seen) && (shape.Inhabited() ==> |RowBytes(row, shape)| > 0)
  {
    if shape.hasIdentify {
      ImageSeenWhole(row.identify, shape.identify, tm, seen);
    }
    if shape.hasData {
      ImageSeenWhole(row.data, shape.data, tm, Left(seen, if shape.hasIdentify then |ImageBytes(row.identify)| else 0));
    }
    hide ImageSeen, Skip, Present, Ones;
  }

  lemma {:induction false} ListSeenWhole(rows: seq<Row>, shape: Shape, tm: TableMap, seen: nat)
    requires shape.Valid() && ProperTable(tm) && WellFormedList(rows, shape, tm) && |ListBytes(rows, shape)| <= seen
    ensures ListSeen(rows, shape, tm, seen)
    decreases |rows|
  {
    if rows != [] {
      hide WellFormedRow, RowBytes, RowSeen, Shape.Inhabited, Ones;
      RowSeenWhole(rows[0], shape, tm, seen);
      ListSeenWhole(rows[1..], shape, tm, Left(seen, |RowBytes(rows[0], shape)|));
    }
  }

  /** Written rows are read back whatever is spare; when nothing is, bytes are read as rows only if they are
      those rows as written. */
  lemma WholeList(data: seq<byte>, rows: seq<Row>, shape: Shape, tm: TableMap, spare: seq<byte>)
    requires shape.Valid() && ProperTable(tm)
    ensures WellFormedList(rows, shape, tm) ==>
              ParseList(Slice(ListBytes(rows, shape), spare), shape, tm) == Ends(Done(rows))
    ensures ParseList(Slice(data, []), shape, tm) == Ends(Done(rows))
        <==> WellFormedList(rows, shape, tm) && data == ListBytes(rows, shape)
  {
    hide ParseList, WellFormedList, ListSeen, ListBytes;
    var bs := ListBytes(rows, shape);
    ListRoundTrip(Slice(data, []), rows, shape, tm);
    ListRoundTrip(Slice(bs, spare), rows, shape, tm);
    if WellFormedList(rows, shape, tm) {
      ListSeenWhole(rows, shape, tm, |bs|);
    }
    assert data + [] == data && bs <= bs + spare;
  }

  /** A truncated row of one INT column: where a checksum was stripped, its four bytes are read as the cell. */
  lemma ChecksumReadAsCell(shape: Shape, tm: TableMap, checksum: seq<byte>)
    requires shape == Shape(NoBits, Bitmap([1], 1), false, true) && tm.types == [TypeLong] && tm.metadata == [0]
        && |checksum| == 4
    ensures ParseList(Slice([0], checksum), shape, tm) == Ends(Done([Row(NoImage, Image(Bitmap([0], 1), checksum))]))
    ensures ParseList(Slice([0], []), shape, tm) == Ends(Panicked)
  {
    OneColumn();
    CellIsChecksum(Slice([0], checksum), tm);
    CellIsChecksum(Slice([0], []), tm);
    hide Present, Ones, ParseImage;
    assert checksum[..4] == checksum && checksum[4..] == [];
    var row := Row(NoImage, Image(Bitmap([0], 1), checksum));
    assert ParseRow(Slice([0], checksum), shape, tm) == Done((row, Slice([], [])));
    assert ParseRow(Slice([0], []), shape, tm) == Panicked;
    LastRow(Slice([0], checksum), row, Slice([], []), shape, tm);
    LastRow(Slice([0], []), row, Slice([], []), shape, tm);
  }

  lemma LastRow(data: Slice, row: Row, rest: Slice, shape: Shape, tm: TableMap)
    requires shape.Valid() && ProperTable(tm) && data.seen != [] && rest.seen == [] && |rest.All()| < |data.All()|
    ensures ParseRow(data, shape, tm) == Done((row, rest)) ==> ParseList(data, shape, tm) == Ends(Done([row]))
    ensures ParseRow(data, shape, tm) == Panicked ==> ParseList(data, shape, tm) == Ends(Panicked)
  {
    hide ParseRow, Shape.Valid;
    assert ParseList(rest, shape, tm) == Ends(Done([])) && [row] + [] == [row];
  }

  lemma OneColumn()
    ensures Bitmap([1], 1).Valid() && Ones(Bitmap([1], 1), 1) == 1 && Bitmap([0], 1).Valid()
    ensures Present(Bitmap([1], 1), Bitmap([0], 1), 0, 0) == [0]
  {
    assert Bitmap([1], 1).Bit(0) && !Bitmap([0], 1).Bit(0);
    assert Ones(Bitmap([1], 1), 0) == 0;
    assert Present(Bitmap([1], 1), Bitmap([0], 1), 1, 1) == [];
  }

  lemma CellIsChecksum(data: Slice, tm: TableMap)
    requires data.seen == [0] && tm.types == [TypeLong] && tm.metadata == [0]
    requires Bitmap([1], 1).Valid() && Ones(Bitmap([1], 1), 1) == 1 && Bitmap([0], 1).Valid()
    requires Present(Bitmap([1], 1), Bitmap([0], 1), 0, 0) == [0]
    ensures var r := ParseImage(data, Bitmap([1], 1), tm);
            if |data.spare| < 4 then r == Panicked
            else r == Done((Image(Bitmap([0], 1), data.spare[..4]), Slice([], data.spare[4..])))
  {
    hide Present, Ones;
    assert data.All()[..1] == [0] && data.Drop(1) == Slice([], data.spare);
    assert Skip([], [0], tm) == Done(4);
    assert [] + data.spare == data.spare;
  }

  // ------------------------------------------------------------------------ the event

  function ShapeOf(typ: byte, rows: Rows): Shape {
    Shape(rows.identifyColumns, rows.dataColumns, HasIdentify(typ), HasData(typ))
  }

  /** The number of columns an event announces. */
  function ColumnCount(shape: Shape): nat { if shape.hasIdentify then shape.identify.count else shape.data.count }

  /** The rows events that fit the format. */
  predicate WellFormedRows(typ: byte, rows: Rows, tm: TableMap)
    requires ProperTable(tm)
  {
    var shape := ShapeOf(typ, rows);
    && rows.flags < 0x1_0000 && shape.Valid() && ColumnCount(shape) < 256
    && (shape.hasIdentify && shape.hasData ==> shape.identify.count == shape.data.count)
    && WellFormedList(rows.rows, shape, tm)
  }

  /** What follows the column count: the bitmaps of present columns, then the rows. */
  function Contents(rows: Rows, shape: Shape): seq<byte> {
    (if shape.hasIdentify then shape.identify.data else []) + (if shape.hasData then shape.data.data else [])
      + ListBytes(rows.rows, shape)
  }

  function Body(typ: byte, tableId: nat, rows: Rows): seq<byte> {
    var shape := ShapeOf(typ, rows);
    LE(tableId, W48) + LE(rows.flags, W16) + [2, 0] + [ColumnCount(shape) % 256] + Contents(rows, shape)
  }

  function NewBitmapIf(data: Slice, has: bool, count: nat): (r: Outcome<(Bitmap, Slice)>)
    ensures r.Done? ==> r.value.0.Valid() && (if has then r.value.0.count == count else r.value.0 == NoBits)
  {
    if !has then Done((NoBits, data))
    else
      match NewBitmap(data, count)
      case Failed => Failed
      case Panicked => Panicked
      case Done(b) => Done((b, data.Drop(|b.data|)))
  }

  /** The bitmaps and rows of an event with `count` columns. */
  function ParseContents(data: Slice, typ: byte, count: nat, flags: nat, tm: TableMap): Endless<Rows>
    requires ProperTable(tm)
  {
    match NewBitmapIf(data, HasIdentify(typ), count)
    case Failed => Ends(Failed)
    case Panicked => Ends(Panicked)
    case Done((identify, rest)) =>
      match NewBitmapIf(rest, HasData(typ), count)
      case Failed => Ends(Failed)
      case Panicked => Ends(Panicked)
      case Done((present, rest')) =>
        match ParseList(rest', Shape(identify, present, HasIdentify(typ), HasData(typ)), tm)
        case NeverEnds => NeverEnds
        case Ends(Failed) => Ends(Failed)
        case Ends(Panicked) => Ends(Panicked)
        case Ends(Done(rows)) => Ends(Done(Rows(flags, identify, present, rows)))
  }

  /** Version 2 events have extra data, whose length counts its own two bytes. The length is sliced. */
  function SkipExtra(data: Slice, typ: byte): Outcome<Slice> {
    if !IsV2(typ) then Done(data)
    else if |data.All()| < 2 then Panicked
    else
      var n := FromLE(data.All()[..2]);
      Done(if n <= |data.All()| then data.Drop(n) else Slice([], []))
  }

  /** Rows; `start` is the size of the table id. The flags are sliced, the column count is indexed. */
  function Parse(data: Slice, start: nat, typ: byte, tm: TableMap): Endless<Rows>
    requires ProperTable(tm)
  {
    if |data.All()| < start + 2 then Ends(Panicked)
    else
      match SkipExtra(data.Drop(start + 2), typ)
      case Failed => Ends(Failed)
      case Panicked => Ends(Panicked)
      case Done(rest) =>
        if rest.seen == [] then Ends(Panicked)
        else ParseContents(rest.Drop(1), typ, rest.seen[0], FromLE(data.All()[start..start + 2]), tm)
  }

  /** Rows of a whole event: the table id is four bytes when the post-header is six. */
  function ParseEvent(f: Format, event: Slice, typ: byte, tm: TableMap): Endless<Rows>
    requires 0 < typ as int <= |f.headerSizes| && ProperTable(tm)
  {
    match BodyOf(f, event)
    case Failed => Ends(Failed)
    case Panicked => Ends(Panicked)
    case Done(data) => Parse(data, if f.headerSizes[typ - 1] == 6 then 4 else 6, typ, tm)
  }

  lemma BitmapIfRoundTrip(b: Bitmap, has: bool, count: nat, rest: seq<byte>, spare: seq<byte>)
    requires b.Valid() && (if has then b.count == count else b == NoBits)
    ensures NewBitmapIf(Slice((if has then b.data else []) + rest, spare), has, count) == Done((b, Slice(rest, spare)))
  {
    if has {
      assert (b.data + rest + spare)[..|b.data|] == b.data && (b.data + rest)[|b.data|..] == rest;
    } else {
      assert [] + rest == rest;
    }
  }

  lemma ContentsRoundTrip(typ: byte, rows: Rows, tm: TableMap, spare: seq<byte>)
    requires ProperTable(tm) && WellFormedRows(typ, rows, tm)
    ensures var shape := ShapeOf(typ, rows);
            ParseContents(Slice(Contents(rows, shape), spare), typ, ColumnCount(shape), rows.flags, tm)
              == Ends(Done(rows))
  {
    hide ParseList, ListBytes, NewBitmapIf, WellFormedList, WellFormedRow;
    var shape := ShapeOf(typ, rows);
    var list := ListBytes(rows.rows, shape);
    var second := if shape.hasData then shape.data.data else [];
    var first := if shape.hasIdentify then shape.identify.data else [];
    assert first + second + list == first + (second + list);
    BitmapIfRoundTrip(shape.identify, shape.hasIdentify, ColumnCount(shape), second + list, spare);
    BitmapIfRoundTrip(shape.data, shape.hasData, ColumnCount(shape), list, spare);
    WholeList(list, rows.rows, shape, tm, spare);
  }

  /** What Parse returns is well formed. */
  lemma ParsedIsWellFormed(data: Slice, start: nat, typ: byte, tm: TableMap)
    requires ProperTable(tm) && Parse(data, start, typ, tm).Ends? && Parse(data, start, typ, tm).outcome.Done?
    ensures WellFormedRows(typ, Parse(data, start, typ, tm).outcome.value, tm)
  {
    Pow256Values();
    var rest := SkipExtra(data.Drop(start + 2), typ).value;
    ContentsWellFormed(rest.Drop(1), typ, rest.seen[0], FromLE(data.All()[start..start + 2]), tm);
    hide ParseContents, WellFormedRows, FromLE;
  }

  lemma ContentsWellFormed(data: Slice, typ: byte, count: nat, flags: nat, tm: TableMap)
    requires ProperTable(tm) && flags < 0x1_0000 && count < 256
    requires ParseContents(data, typ, count, flags, tm).Ends?
        && ParseContents(data, typ, count, flags, tm).outcome.Done?
    ensures WellFormedRows(typ, ParseContents(data, typ, count, flags, tm).outcome.value, tm)
  {
    hide ParseList, NewBitmapIf, WellFormedList;
    var (identify, rest) := NewBitmapIf(data, HasIdentify(typ), count).value;
    var (present, rest') := NewBitmapIf(rest, HasData(typ), count).value;
    ParsedList(rest', Shape(identify, present, HasIdentify(typ), HasData(typ)), tm);
  }

  /** A version 2 rows event parses back to its rows exactly when they are well formed for the table. */
  lemma RowsRoundTrip(typ: byte, tableId: nat, rows: Rows, tm: TableMap, spare: seq<byte>)
    requires IsV2(typ) && ProperTable(tm)
    ensures Parse(Slice(Body(typ, tableId, rows), spare), 6, typ, tm) == Ends(Done(rows))
        <==> WellFormedRows(typ, rows, tm)
  {
    var data := Slice(Body(typ, tableId, rows), spare);
    if WellFormedRows(typ, rows, tm) {
      WellFormedParses(typ, tableId, rows, tm, spare);
    }
    if Parse(data, 6, typ, tm) == Ends(Done(rows)) {
      ParsedIsWellFormed(data, 6, typ, tm);
    }
    hide Parse, Body, WellFormedRows;
  }

  lemma WellFormedParses(typ: byte, tableId: nat, rows: Rows, tm: TableMap, spare: seq<byte>)
    requires IsV2(typ) && ProperTable(tm) && WellFormedRows(typ, rows, tm)
    ensures Parse(Slice(Body(typ, tableId, rows), spare), 6, typ, tm) == Ends(Done(rows))
  {
    var shape := ShapeOf(typ, rows);
    var contents, n := Contents(rows, shape), ColumnCount(shape);
    FlagsRoundTrip(rows.flags);
    ContentsRoundTrip(typ, rows, tm, spare);
    BodyParts(typ, tableId, rows);
    assert n % 256 == n;
    hide *;
    ParsedParts(Body(typ, tableId, rows), spare, LE(tableId, W48), LE(rows.flags, W16), typ, n, contents, rows.flags,
      tm);
  }

  lemma BodyParts(typ: byte, tableId: nat, rows: Rows)
    ensures var shape := ShapeOf(typ, rows);
            Body(typ, tableId, rows) == LE(tableId, W48) + LE(rows.flags, W16)
              + ([2, 0] + ([ColumnCount(shape) % 256] + Contents(rows, shape)))
    ensures |LE(tableId, W48)| == 6
  {
    hide LE, Contents;
  }

  lemma ParsedParts(data: seq<byte>, spare: seq<byte>, id: seq<byte>, flagBytes: seq<byte>, typ: byte, n: nat,
      contents: seq<byte>, flags: nat,
                    tm: TableMap)
    requires ProperTable(tm) && IsV2(typ) && n < 256 && |id| == 6 && |flagBytes| == 2 && FromLE(flagBytes) == flags
    requires data == id + flagBytes + ([2, 0] + ([n] + contents))
    ensures Parse(Slice(data, spare), 6, typ, tm) == ParseContents(Slice(contents, spare), typ, n, flags, tm)
  {
    var tail := [2, 0] + ([n] + contents);
    assert (data + spare)[6..8] == flagBytes && data[8..] == tail;
    TwoBytes();
    hide FromLE, ParseContents;
    assert (tail + spare)[..2] == [2, 0] && tail[2..] == [n] + contents;
    assert ([n] + contents)[1..] == contents;
  }

  lemma TwoBytes()
    ensures FromLE([2, 0]) == 2
  {
    assert [2, 0][1..] == [0];
    assert FromLE([0]) == 0;
  }
}
