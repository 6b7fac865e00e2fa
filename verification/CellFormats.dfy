/** How MySQL stores the cells of a row event, by the numbers of the column types, and that the code of
    mysql/binlog_event_rbr.go cuts rows into exactly these cells. */
module CellFormats {
  import opened Prelude
  import opened Bytes
  import opened Slices
  import opened Bitmaps
  import opened Cells
  import opened TableMaps
  import opened RowsEvents

  /** A length in k bytes, and that many bytes. */
  ghost predicate Counted(cell: seq<byte>, k: nat) {
    exists s: seq<byte> :: |s| < Pow256(k) && cell == LE(|s|, k) + s
  }

  /** Bytes for digits that are packed nine to four bytes, and two to a byte when fewer are left. */
  function PackedDigits(digits: nat): nat { digits / 9 * 4 + (digits % 9 + 1) / 2 }

  /** Bytes for the digits of a fraction of a second, two to a byte. */
  function FractionBytes(digits: nat): nat { digits / 2 + digits % 2 }

  /** These bytes are a value of a column of this type and metadata. */
  ghost predicate Stores(typ: byte, metadata: nat, cell: seq<byte>) {
    match typ
    case 1 => |cell| == 1 // TINYINT
    case 2 => |cell| == 2 // SMALLINT
    case 9 => |cell| == 3 // MEDIUMINT
    case 3 => |cell| == 4 // INT
    case 8 => |cell| == 8 // BIGINT
    case 4 => |cell| == 4 // FLOAT
    case 5 => |cell| == 8 // DOUBLE
    case 6 => |cell| == 0 // NULL
    case 7 => |cell| == 4 // TIMESTAMP
    case 10 => |cell| == 3 // DATE
    case 14 => |cell| == 3
    case 11 => |cell| == 3 // TIME
    case 12 => |cell| == 8 // DATETIME
    case 13 => |cell| == 1 // YEAR
    case 15 => Counted(cell, if metadata < 256 then 1 else 2) // VARCHAR of up to `metadata` bytes
    case 253 => Counted(cell, if metadata < 256 then 1 else 2)
    case 16 => 8 * |cell| >= BitsOf(metadata) > 8 * |cell| - 8 // BIT
    case 17 => |cell| == 4 + FractionBytes(metadata) // TIMESTAMP with fraction
    case 18 => |cell| == 5 + FractionBytes(metadata) // DATETIME with fraction
    case 19 => |cell| == 3 + FractionBytes(metadata) // TIME with fraction
    case 246 => // DECIMAL(p, s)
      var p, s := metadata / 256, metadata % 256;
      s <= p && |cell| == PackedDigits(p - s) + PackedDigits(s)
    case 247 => |cell| == metadata % 256 // ENUM
    case 248 => |cell| == metadata % 256 // SET
    case 254 => // CHAR, or an ENUM or SET in its place
      if metadata / 256 in {247, 248} then |cell| == metadata % 256
      else Counted(cell, if CharMax(metadata) < 256 then 1 else 2)
    case _ => // the blobs, JSON and geometry
      typ in {245, 249, 250, 251, 252, 255} && metadata in {1, 2, 3, 4} && Counted(cell, metadata)
  }

  /** BIT metadata: whole bytes above, bits below. */
  function BitsOf(metadata: nat): nat { metadata / 256 * 8 + metadata % 256 }

  /** CHAR metadata: the length below, its two highest bits flipped in the upper byte. */
  function CharMax(metadata: nat): nat {
    metadata % 256 + (if metadata / 0x2000 % 2 == 0 then 512 else 0) + (if metadata / 0x1000 % 2 == 0 then 256 else 0)
  }

  /** The metadata of CHAR(n): type 254 in the upper byte, with the two highest bits of the length flipped in. */
  lemma CharMetadata(n: nat)
    requires n < 1024
    ensures CharMax((254 - 16 * (n / 256)) * 256 + n % 256) == n
  {
    var k := n / 256;
    var m := (254 - 16 * k) * 256 + n % 256;
    assert k in {0, 1, 2, 3};
    assert m / 0x1000 == 15 - k;
    assert m / 0x2000 == (15 - k) / 2;
  }

  lemma CountedIs(cell: seq<byte>, k: nat)
    ensures Counted(cell, k) <==> Prefixed(cell, k) == Done(|cell|)
  {
    hide LE, FromLE, Pow256;
    if Prefixed(cell, k) == Done(|cell|) {
      FromLERoundTrip(cell[..k]);
      var s := cell[k..];
      assert cell == LE(|s|, k) + s;
    }
    if s: seq<byte> :| |s| < Pow256(k) && cell == LE(|s|, k) + s {
      LERoundTrip(|s|, k);
      assert cell[..k] == LE(|s|, k);
    }
  }

  lemma PackedIs(digits: nat)
    ensures PackedDigits(digits) == digits / 9 * 4 + Leftover(digits % 9)
  {
  }

  lemma DecimalSize(metadata: nat)
    requires metadata < 0x1_0000 && metadata % 256 <= metadata / 256
    ensures var p, s := metadata / 256, metadata % 256;
            GroupsOf(metadata).intgLeft >= 0 && GroupsOf(metadata).Size() == PackedDigits(p - s) + PackedDigits(s)
  {
    var p, s := metadata / 256, metadata % 256;
    PackedIs(p - s);
    PackedIs(s);
    hide Leftover, PackedDigits;
  }

  lemma BitSizeIs(metadata: nat, n: nat)
    ensures BitSize(metadata) == n <==> 8 * n >= BitsOf(metadata) > 8 * n - 8
  {
  }

  lemma CharMaxIs(metadata: nat)
    requires metadata < 0x1_0000
    ensures CharMax(metadata) == StringMax(metadata)
  {
    var k := metadata / 0x1000;
    assert metadata / 0x2000 == k / 2;
  }

  /** cellLength finds a cell to end exactly where a stored value ends, for every column a table can have. */
  lemma LengthIsStored(typ: byte, metadata: nat, cell: seq<byte>)
    requires metadata < 0x1_0000 && (typ == 246 ==> metadata % 256 <= metadata / 256)
    ensures CellLength(cell, typ, metadata) == Done(|cell|) <==> Stores(typ, metadata, cell)
  {
    hide *;
    if typ < 15 {
      FixedIsStored(typ, metadata, cell);
    } else if typ in {15, 253, 254} || typ in {245, 249, 250, 251, 252, 255} {
      CountedIsStored(typ, metadata, cell);
    } else {
      OtherIsStored(typ, metadata, cell);
    }
  }

  lemma FixedIsStored(typ: byte, metadata: nat, cell: seq<byte>)
    requires metadata < 0x1_0000 && typ < 15
    ensures CellLength(cell, typ, metadata) == Done(|cell|) <==> Stores(typ, metadata, cell)
  {
  }

  lemma CountedIsStored(typ: byte, metadata: nat, cell: seq<byte>)
    requires metadata < 0x1_0000 && (typ in {15, 253, 254} || typ in {245, 249, 250, 251, 252, 255})
    ensures CellLength(cell, typ, metadata) == Done(|cell|) <==> Stores(typ, metadata, cell)
  {
    hide Counted, Prefixed, CharMax, StringMax;
    CountedIs(cell, 1);
    CountedIs(cell, 2);
    if metadata in {1, 2, 3, 4} {
      CountedIs(cell, metadata);
    }
    CharMaxIs(metadata);
  }

  lemma OtherIsStored(typ: byte, metadata: nat, cell: seq<byte>)
    requires metadata < 0x1_0000 && (typ == 246 ==> metadata % 256 <= metadata / 256)
    requires typ >= 15 && typ !in {15, 253, 254} && typ !in {245, 249, 250, 251, 252, 255}
    ensures CellLength(cell, typ, metadata) == Done(|cell|) <==> Stores(typ, metadata, cell)
  {
    hide GroupsOf, Leftover, BitSize, BitsOf, PackedDigits, FractionBytes;
    if typ == 246 {
      DecimalSize(metadata);
    }
    BitSizeIs(metadata, |cell|);
    FractionIs(metadata);
  }

  lemma FractionIs(metadata: nat)
    ensures FractionBytes(metadata) == (metadata + 1) / 2
  {
  }

  // ------------------------------------------------------------------------------- rows

  function Concat(cells: seq<seq<byte>>): seq<byte> { if cells == [] then [] else cells[0] + Concat(cells[1..]) }

  /** One stored value for each of these columns. */
  ghost predicate StoredIn(cells: seq<seq<byte>>, cs: seq<nat>, tm: TableMap)
    requires ProperTable(tm)
  {
    && |cells| == |cs|
    && forall i :: 0 <= i < |cs| ==> cs[i] < |tm.types| && Stores(tm.types[cs[i]], tm.metadata[cs[i]], cells[i])
  }

  /** No DECIMAL column has more digits after the point than in all. */
  predicate SaneDecimals(tm: TableMap)
    requires ProperTable(tm)
  {
    forall i :: 0 <= i < |tm.types| && tm.types[i] == 246 ==> tm.metadata[i] % 256 <= tm.metadata[i] / 256
  }

  /** Skipping stored values one after the other ends exactly behind the last. */
  lemma {:induction false} StoredSkip(cells: seq<seq<byte>>, cs: seq<nat>, tm: TableMap)
    requires ProperTable(tm) && SaneDecimals(tm) && StoredIn(cells, cs, tm)
    ensures Skip(Concat(cells), cs, tm) == Done(|Concat(cells)|)
    decreases |cs|
  {
    hide Stores, CellLength, Skip;
    if cs == [] {
      SkipNone(Concat(cells), tm);
    } else {
      var typ, metadata, first, more := tm.types[cs[0]], tm.metadata[cs[0]], cells[0], Concat(cells[1..]);
      LengthIsStored(typ, metadata, first);
      LengthExtends(first, more, typ, metadata);
      var l := SkipFirst(first + more, cs, tm);
      AfterConcat(first, more, l);
      assert first[l..] == [] && [] + more == more;
      StoredSkip(cells[1..], cs[1..], tm);
    }
  }

  /** An image of stored values, one for each present column that is not NULL, is well formed. */
  lemma StoredImage(cells: seq<seq<byte>>, nulls: Bitmap, columns: Bitmap, tm: TableMap)
    requires ProperTable(tm) && SaneDecimals(tm) && columns.Valid() && nulls.Valid()
    requires nulls.count == Ones(columns, columns.count) && StoredIn(cells, Present(columns, nulls, 0, 0), tm)
    ensures WellFormedImage(Image(nulls, Concat(cells)), columns, tm)
  {
    hide StoredIn, Skip, Present;
    StoredSkip(cells, Present(columns, nulls, 0, 0), tm);
  }

  /** Rows of stored values, written one after the other, are sliced into exactly these rows, whatever is spare. */
  lemma StoredRows(rows: seq<Row>, shape: Shape, tm: TableMap, spare: seq<byte>)
    requires ProperTable(tm) && SaneDecimals(tm) && shape.Valid() && (rows != [] ==> shape.Inhabited())
    requires forall i :: 0 <= i < |rows| ==> StoredRow(rows[i], shape, tm)
    ensures ParseList(Slice(ListBytes(rows, shape), spare), shape, tm) == Ends(Done(rows))
  {
    hide ParseList, ListBytes, Shape.Inhabited, WellFormedRow, StoredRow;
    forall i | 0 <= i < |rows| ensures WellFormedRow(rows[i], shape, tm) {
      StoredIsWellFormed(rows[i], shape, tm);
    }
    WholeList(ListBytes(rows, shape), rows, shape, tm, spare);
  }

  ghost predicate StoredRow(row: Row, shape: Shape, tm: TableMap)
    requires ProperTable(tm) && shape.Valid()
  {
    && (if shape.hasIdentify then HoldsStored(row.identify, shape.identify, tm) else row.identify == NoImage)
    && (if shape.hasData then HoldsStored(row.data, shape.data, tm) else row.data == NoImage)
  }

  ghost predicate HoldsStored(im: Image, columns: Bitmap, tm: TableMap)
    requires ProperTable(tm) && columns.Valid()
  {
    && im.nulls.Valid() && im.nulls.count == Ones(columns, columns.count)
    && exists cells :: StoredIn(cells, Present(columns, im.nulls, 0, 0), tm) && im.cells == Concat(cells)
  }

  lemma StoredIsWellFormed(row: Row, shape: Shape, tm: TableMap)
    requires ProperTable(tm) && SaneDecimals(tm) && shape.Valid() && StoredRow(row, shape, tm)
    ensures WellFormedRow(row, shape, tm)
  {
    hide WellFormedImage, StoredIn, Present, Ones;
    if shape.hasIdentify {
      var cells :| && StoredIn(cells, Present(shape.identify, row.identify.nulls, 0, 0), tm)
                   && row.identify.cells == Concat(cells);
      StoredImage(cells, row.identify.nulls, shape.identify, tm);
    }
    if shape.hasData {
      var cells :| StoredIn(cells, Present(shape.data, row.data.nulls, 0, 0), tm) && row.data.cells == Concat(cells);
      StoredImage(cells, row.data.nulls, shape.data, tm);
    }
  }

  /** The metadata of a column, by the number of its type: none, one byte, or two in either order. */
  lemma MetadataByType(typ: byte, a: byte, b: byte, rest: seq<byte>)
    ensures typ in {0, 1, 2, 3, 6, 7, 8, 9, 10, 11, 12, 13, 14} ==> MetadataRead(rest, typ) == Done((0, 0))
    ensures typ in {4, 5, 17, 18, 19, 245, 249, 250, 251, 252, 255} ==> MetadataRead([a] + rest, typ) == Done((a, 1))
    ensures typ in {246, 247, 248, 254} ==> MetadataRead([a, b] + rest, typ) == Done((256 * a as int + b as int, 2))
    ensures typ in {15, 16, 253} ==> MetadataRead([a, b] + rest, typ) == Done((256 * b as int + a as int, 2))
    ensures 20 <= typ < 245 ==> MetadataRead(rest, typ) == Failed
  {
  }

  /** A row of one BIGINT column is its eight bytes, and so on for the other widths. */
  lemma IntegerCells(n: nat, rest: seq<byte>)
    ensures CellLength(LE(n, 8) + rest, 8, 0) == Done(8) && CellLength(LE(n, 4) + rest, 3, 0) == Done(4)
    ensures CellLength(LE(n, 3) + rest, 9, 0) == Done(3) && CellLength(LE(n, 2) + rest, 2, 0) == Done(2)
  {
  }
}
