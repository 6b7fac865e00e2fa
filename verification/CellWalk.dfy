/** Decoding the cells of a row (mysql/binlog_event_rbr.go, vt/binlog/binlog_streamer.go): every stored value that can
    be printed is decoded, whole, and the walk over a row prints exactly the stored values, column by column. */
module CellWalk {
  import opened Prelude
  import opened Bytes
  import opened Slices
  import opened Bitmaps
  import opened Cells
  import opened CellFormats
  import opened TableMaps
  import opened RowsEvents
  import opened RowsReader
  import opened RowWalk

  /** The stored values CellValue can print: no value of the NULL type, fractions of up to six digits, an ENUM index of
      one or two bytes, a decimal with a digit, and a JSON document that is valid. */
  predicate Printable(typ: byte, metadata: nat, cell: seq<byte>, jsonOk: seq<byte> -> bool) {
    && typ != 6
    && (typ in {17, 18} ==> metadata <= 6)
    && (typ == 247 || (typ == 254 && metadata / 256 == 247) ==> |cell| in {1, 2})
    && (typ == 246 ==> metadata / 256 > 0)
    && (typ == 245 ==> metadata <= |cell| && jsonOk(cell[metadata..]))
  }

  /** The cell lies in the data at this position. */
  predicate LiesAt(data: Slice, pos: nat, cell: seq<byte>) {
    pos + |cell| <= |data.seen| && data.seen[pos..pos + |cell|] == cell
  }

  /** A stored value is decoded to its length exactly when it can be printed. */
  lemma StoredValue(data: Slice, pos: nat, typ: byte, metadata: nat, cell: seq<byte>, jsonOk: seq<byte> -> bool)
    requires metadata < 0x1_0000 && Stores(typ, metadata, cell) && LiesAt(data, pos, cell)
    ensures CellValue(data, pos, typ, metadata, jsonOk) == Done(|cell|) <==> Printable(typ, metadata, cell, jsonOk)
  {
    hide *;
    if typ < 15 {
      FixedValue(data, pos, typ, metadata, cell, jsonOk);
    } else if typ in {15, 253, 254} || typ in {245, 249, 250, 251, 252, 255} {
      CountedValue(data, pos, typ, metadata, cell, jsonOk);
    } else {
      OtherValue(data, pos, typ, metadata, cell, jsonOk);
    }
  }

  lemma FixedValue(data: Slice, pos: nat, typ: byte, metadata: nat, cell: seq<byte>, jsonOk: seq<byte> -> bool)
    requires metadata < 0x1_0000 && typ < 15 && Stores(typ, metadata, cell) && LiesAt(data, pos, cell)
    ensures CellValue(data, pos, typ, metadata, jsonOk) == Done(|cell|) <==> Printable(typ, metadata, cell, jsonOk)
  {
  }

  lemma CountedTaken(data: Slice, pos: nat, cell: seq<byte>, k: nat)
    requires Counted(cell, k) && LiesAt(data, pos, cell)
    ensures Taken(data, pos, k) == Done(|cell|) && k <= |cell|
  {
    hide Counted;
    CountedIs(cell, k);
    var rest := data.seen[pos + |cell|..];
    PrefixedSeen(cell, rest, k);
    assert After(data.seen, pos) == cell + rest;
  }

  lemma CountedValue(data: Slice, pos: nat, typ: byte, metadata: nat, cell: seq<byte>, jsonOk: seq<byte> -> bool)
    requires metadata < 0x1_0000 && (typ in {15, 253, 254} || typ in {245, 249, 250, 251, 252, 255})
    requires Stores(typ, metadata, cell) && LiesAt(data, pos, cell)
    ensures CellValue(data, pos, typ, metadata, jsonOk) == Done(|cell|) <==> Printable(typ, metadata, cell, jsonOk)
  {
    hide Counted, Taken, CharMax, StringMax;
    CharMaxIs(metadata);
    if typ == 254 && metadata / 256 in {247, 248} {
    } else {
      var k := if typ in {15, 253} then (if metadata < 256 then 1 else 2)
        else if typ == 254 then (if CharMax(metadata) < 256 then 1 else 2) else metadata;
      CountedTaken(data, pos, cell, k);
      if typ == 245 {
        assert data.All()[pos + k..pos + |cell|] == cell[k..];
      }
    }
  }

  lemma OtherValue(data: Slice, pos: nat, typ: byte, metadata: nat, cell: seq<byte>, jsonOk: seq<byte> -> bool)
    requires metadata < 0x1_0000 && typ >= 15 && typ !in {15, 253, 254} && typ !in {245, 249, 250, 251, 252, 255}
    requires Stores(typ, metadata, cell) && LiesAt(data, pos, cell)
    ensures CellValue(data, pos, typ, metadata, jsonOk) == Done(|cell|) <==> Printable(typ, metadata, cell, jsonOk)
  {
    hide GroupsOf, BitSize, BitsOf, PackedDigits, FractionBytes, DecimalValue;
    if typ == 246 {
      DecimalStored(data, pos, metadata, cell);
    }
    BitSizeIs(metadata, |cell|);
    FractionIs(metadata);
  }

  lemma DecimalStored(data: Slice, pos: nat, metadata: nat, cell: seq<byte>)
    requires metadata < 0x1_0000 && Stores(246, metadata, cell) && LiesAt(data, pos, cell)
    ensures DecimalValue(data, pos, metadata) == Done(|cell|) <==> metadata / 256 > 0
  {
    DecimalSize(metadata);
  }

  // ------------------------------------------------------------------------- whole rows

  /** What is printed for the columns from c on: NULL where the bit is set, else the next of the cells. */
  function PiecesOf(columns: Bitmap, nulls: Bitmap, c: nat, v: nat, cells: seq<seq<byte>>): seq<Piece>
    requires Reached(columns, nulls, c, v) && |cells| == |Present(columns, nulls, c, v)|
    decreases columns.count - c
  {
    if c == columns.count then []
    else
      PresentStep(columns, nulls, c, v);
      OnesStep(columns, c);
      if !columns.Bit(c) then PiecesOf(columns, nulls, c + 1, v, cells)
      else if nulls.Bit(v) then [NullPiece(c)] + PiecesOf(columns, nulls, c + 1, v + 1, cells)
      else [CellPiece(c, cells[0])] + PiecesOf(columns, nulls, c + 1, v + 1, cells[1..])
  }

  /** One stored value that can be printed for each of these columns. */
  ghost predicate PrintableIn(cells: seq<seq<byte>>, cs: seq<nat>, t: Table, jsonOk: seq<byte> -> bool)
    requires t.Proper()
  {
    && StoredIn(cells, cs, t.tm)
    && forall i :: 0 <= i < |cs| ==> Printable(t.tm.types[cs[i]], t.tm.metadata[cs[i]], cells[i], jsonOk)
  }

  /** The walk over stored values that can be printed succeeds, whatever lies before them and whatever is spare: it
      prints exactly these values, each for its column, NULL for the others present, and ends behind the last. */
  lemma {:induction false} StoredWalk(before: seq<byte>, cells: seq<seq<byte>>, spare: seq<byte>, columns: Bitmap,
      nulls: Bitmap, c: nat, v: nat, t: Table, jsonOk: seq<byte> -> bool)
    requires Reached(columns, nulls, c, v) && t.Proper() && columns.count <= t.columns
    requires PrintableIn(cells, Present(columns, nulls, c, v), t, jsonOk)
    ensures var data := before + Concat(cells);
            Walk(Slice(data, spare), |before|, columns, nulls, c, v, t, jsonOk) ==
            Done((PiecesOf(columns, nulls, c, v, cells), |data|))
    decreases columns.count - c
  {
    hide Walk, Present, CellValue, Ones, Bitmap.Bit, Stores, Printable, RowWalk.Prefixed, Concat;
    var data := Slice(before + Concat(cells), spare);
    if c == columns.count {
      NothingLeft(columns, nulls, v, cells);
      assert data.seen == before;
      WalkEnd(data, |before|, columns, nulls, v, t, jsonOk);
    } else {
      PresentStep(columns, nulls, c, v);
      WalkStep(data, |before|, columns, nulls, c, v, t, jsonOk);
      if !columns.Bit(c) {
        StoredWalk(before, cells, spare, columns, nulls, c + 1, v, t, jsonOk);
      } else if nulls.Bit(v) {
        StoredWalk(before, cells, spare, columns, nulls, c + 1, v + 1, t, jsonOk);
        PrefixedIs(NullPiece(c), PiecesOf(columns, nulls, c + 1, v + 1, cells), |data.seen|);
      } else {
        var cell, more := cells[0], cells[1..];
        CellFirst(before, cells, spare, c, Present(columns, nulls, c + 1, v + 1), t, jsonOk);
        StoredWalk(before + cell, more, spare, columns, nulls, c + 1, v + 1, t, jsonOk);
        PrefixedIs(CellPiece(c, cell), PiecesOf(columns, nulls, c + 1, v + 1, more), |data.seen|);
      }
    }
  }

  lemma NothingLeft(columns: Bitmap, nulls: Bitmap, v: nat, cells: seq<seq<byte>>)
    requires Reached(columns, nulls, columns.count, v) && |cells| == |Present(columns, nulls, columns.count, v)|
    ensures cells == [] && Concat(cells) == []
  {
  }

  lemma PrefixedIs(p: Piece, pieces: seq<Piece>, n: nat)
    ensures RowWalk.Prefixed(p, Done((pieces, n))) == Done(([p] + pieces, n))
  {
  }

  /** The first of the cells is decoded, and the others follow it. */
  lemma CellFirst(before: seq<byte>, cells: seq<seq<byte>>, spare: seq<byte>, c: nat, cs: seq<nat>, t: Table,
      jsonOk: seq<byte> -> bool)
    requires t.Proper() && PrintableIn(cells, [c] + cs, t, jsonOk)
    ensures |cells| == |cs| + 1 && c < |t.tm.types| && PrintableIn(cells[1..], cs, t, jsonOk)
    ensures before + Concat(cells) == before + cells[0] + Concat(cells[1..])
    ensures var data := Slice(before + Concat(cells), spare);
            && CellValue(data, |before|, t.tm.types[c], t.tm.metadata[c], jsonOk) == Done(|cells[0]|)
            && Upto(After(data.All(), |before|), |cells[0]|) == cells[0]
  {
    hide CellValue, Stores, Printable;
    var cell, rest := cells[0], Concat(cells[1..]);
    assert ([c] + cs)[0] == c;
    forall i | 0 <= i < |cs|
      ensures cs[i] < |t.tm.types| && Stores(t.tm.types[cs[i]], t.tm.metadata[cs[i]], cells[1..][i])
      ensures Printable(t.tm.types[cs[i]], t.tm.metadata[cs[i]], cells[1..][i], jsonOk)
    {
      assert ([c] + cs)[i + 1] == cs[i];
    }
    var data := Slice(before + (cell + rest), spare);
    Associative(before, cell, rest);
    StoredValue(data, |before|, t.tm.types[c], t.tm.metadata[c], cell, jsonOk);
  }
}
