/** The column walkers of the streamer (vt/binlog/binlog_streamer.go): decoding a row that Rows sliced. */
module RowWalk {
  import opened Prelude
  import opened Bytes
  import opened Slices
  import opened Bitmaps
  import opened Cells
  import opened TableMaps
  import opened RowsEvents
  import opened RowsReader

  /** What is printed for one column: NULL, or the value of these bytes. */
  datatype Piece = NullPiece(column: nat) | CellPiece(column: nat, cell: seq<byte>)

  /** At most the first n bytes. */
  function Upto(data: seq<byte>, n: nat): seq<byte> { if n <= |data| then data[..n] else data }

  lemma ValueIsNatural(data: Slice, pos: nat, typ: byte, metadata: nat, jsonOk: seq<byte> -> bool)
    requires metadata < 0x1_0000 && CellValue(data, pos, typ, metadata, jsonOk).Done?
    ensures CellValue(data, pos, typ, metadata, jsonOk).value >= 0
  {
    LengthsAgree(data, pos, typ, metadata, jsonOk);
    LengthIsNatural(After(data.seen, pos), typ, metadata);
    hide FromLE, GroupsOf, BitSize, StringMax, CellLength, After;
  }

  function Prefixed(p: Piece, r: Outcome<(seq<Piece>, nat)>): Outcome<(seq<Piece>, nat)> {
    if r.Done? then Done(([p] + r.value.0, r.value.1)) else r
  }

  /** The table that an image is printed for: its map in the binlog, and how many columns its schema has. */
  datatype Table = Table(tm: TableMap, columns: nat) {
    predicate Proper() { ProperTable(tm) }
  }

  /** A column to walk to: v present columns precede it. */
  predicate Reached(columns: Bitmap, nulls: Bitmap, c: nat, v: nat) {
    && columns.Valid() && nulls.Valid() && c <= columns.count
    && v + Ones(columns, columns.count) - Ones(columns, c) <= nulls.count
  }

  /** The walk from column c and position pos on: what is printed, and where it ends. */
  function Walk(data: Slice, pos: nat, columns: Bitmap, nulls: Bitmap, c: nat, v: nat, t: Table,
      jsonOk: seq<byte> -> bool)
    : Outcome<(seq<Piece>, nat)>
    requires Reached(columns, nulls, c, v) && t.Proper()
    decreases columns.count - c
  {
    if c == columns.count then Done(([], pos))
    else
      OnesStep(columns, c);
      if !columns.Bit(c) then Walk(data, pos, columns, nulls, c + 1, v, t, jsonOk)
      else if c >= t.columns then Panicked
      else if nulls.Bit(v) then Prefixed(NullPiece(c), Walk(data, pos, columns, nulls, c + 1, v + 1, t, jsonOk))
      else if c >= |t.tm.types| then Panicked
      else
        match CellValue(data, pos, t.tm.types[c], t.tm.metadata[c], jsonOk)
        case Failed => Failed
        case Panicked => Panicked
        case Done(l) =>
          ValueIsNatural(data, pos, t.tm.types[c], t.tm.metadata[c], jsonOk);
          Prefixed(CellPiece(c, Upto(After(data.All(), pos), l)),
            Walk(data, pos + l, columns, nulls, c + 1, v + 1, t, jsonOk))
  }

  /** No timestamp or datetime column has more than six fractional digits. */
  predicate KnownFractions(tm: TableMap)
    requires ProperTable(tm)
  {
    forall i :: 0 <= i < |tm.types| ==> !OddFraction(tm.types[i], tm.metadata[i])
  }

  /** The bytes of the decoded cells, one after the other. */
  function Decoded(pieces: seq<Piece>): seq<byte> {
    if pieces == [] then [] else (if pieces[0].CellPiece? then pieces[0].cell else []) + Decoded(pieces[1..])
  }

  /** The columns present, in order. */
  function Listed(columns: Bitmap, c: nat): seq<nat>
    requires columns.Valid() && c <= columns.count
    decreases columns.count - c
  {
    if c == columns.count then [] else (if columns.Bit(c) then [c] else []) + Listed(columns, c + 1)
  }

  function ColumnsOf(pieces: seq<Piece>): seq<nat> {
    if pieces == [] then [] else [pieces[0].column] + ColumnsOf(pieces[1..])
  }

  lemma WalkStep(data: Slice, pos: nat, columns: Bitmap, nulls: Bitmap, c: nat, v: nat, t: Table,
      jsonOk: seq<byte> -> bool)
    requires Reached(columns, nulls, c, v) && c < columns.count && t.Proper()
    ensures columns.Valid() && nulls.Valid() && ProperTable(t.tm)
    ensures Ones(columns, c + 1) == Ones(columns, c) + (if columns.Bit(c) then 1 else 0) <= Ones(columns, columns.count)
    ensures columns.Bit(c) ==> v < nulls.count
    ensures Reached(columns, nulls, c + 1, if columns.Bit(c) then v + 1 else v)
    ensures var w := Walk(data, pos, columns, nulls, c, v, t, jsonOk);
            if !columns.Bit(c) then w == Walk(data, pos, columns, nulls, c + 1, v, t, jsonOk)
            else if c >= t.columns then w == Panicked
            else if nulls.Bit(v) then w == Prefixed(NullPiece(c),
              Walk(data, pos, columns, nulls, c + 1, v + 1, t, jsonOk))
            else if c >= |t.tm.types| then w == Panicked
            else
              var l := CellValue(data, pos, t.tm.types[c], t.tm.metadata[c], jsonOk);
              && (l.Failed? ==> w == Failed)
              && (l.Panicked? ==> w == Panicked)
              && (l.Done? ==>
                    && l.value >= 0
                    && w == Prefixed(CellPiece(c, Upto(After(data.All(), pos), l.value)),
                                     Walk(data, pos + l.value, columns, nulls, c + 1, v + 1, t, jsonOk)))
  {
    hide CellValue, After, Upto;
    OnesStep(columns, c);
    if columns.Bit(c) && !nulls.Bit(v) && c < |t.tm.types|
      && CellValue(data, pos, t.tm.types[c], t.tm.metadata[c], jsonOk).Done? {
      ValueIsNatural(data, pos, t.tm.types[c], t.tm.metadata[c], jsonOk);
    }
  }

  /** Skip and decode agree over a whole row: a walk that succeeds over the cells that Rows sliced ends exactly at
      their end, the cells it decoded are the sliced bytes, and it met exactly the columns present, in order. */
  lemma {:induction false} WalkAgrees(data: Slice, pos: nat, columns: Bitmap, nulls: Bitmap, c: nat, v: nat, t: Table,
                                      jsonOk: seq<byte> -> bool)
    requires Reached(columns, nulls, c, v) && t.Proper() && KnownFractions(t.tm) && pos <= |data.seen|
    requires Skip(data.seen[pos..], Present(columns, nulls, c, v), t.tm) == Done(|data.seen| - pos)
    requires Walk(data, pos, columns, nulls, c, v, t, jsonOk).Done?
    ensures var (pieces, n) := Walk(data, pos, columns, nulls, c, v, t, jsonOk).value;
            n == |data.seen| && Decoded(pieces) == data.seen[pos..] && ColumnsOf(pieces) == Listed(columns, c)
    decreases columns.count - c
  {
    hide Walk, Present, Skip, CellValue, CellLength, OddFraction, Ones, Bitmap.Bit, Decoded, ColumnsOf, Listed,
      KnownFractions, After, Upto;
    if c == columns.count {
      WalkBase(data, pos, columns, nulls, v, t, jsonOk);
    } else {
      PresentStep(columns, nulls, c, v);
      WalkStep(data, pos, columns, nulls, c, v, t, jsonOk);
      ListedStep(columns, c);
      if !columns.Bit(c) {
        WalkAgrees(data, pos, columns, nulls, c + 1, v, t, jsonOk);
      } else if nulls.Bit(v) {
        WalkAgrees(data, pos, columns, nulls, c + 1, v + 1, t, jsonOk);
        PrefixedPiece(NullPiece(c), Walk(data, pos, columns, nulls, c + 1, v + 1, t, jsonOk).value.0);
      } else {
        CellAgrees(data, pos, c, Present(columns, nulls, c + 1, v + 1), t.tm, jsonOk);
        var l := CellValue(data, pos, t.tm.types[c], t.tm.metadata[c], jsonOk).value;
        WalkAgrees(data, pos + l, columns, nulls, c + 1, v + 1, t, jsonOk);
        PrefixedPiece(CellPiece(c, data.seen[pos..pos + l]),
          Walk(data, pos + l, columns, nulls, c + 1, v + 1, t, jsonOk).value.0);
        assert data.seen[pos..] == data.seen[pos..pos + l] + data.seen[pos + l..];
      }
    }
  }

  lemma ListedStep(columns: Bitmap, c: nat)
    requires columns.Valid() && c < columns.count
    ensures Listed(columns, c) == if columns.Bit(c) then [c] + Listed(columns, c + 1) else Listed(columns, c + 1)
  {
  }

  lemma WalkBase(data: Slice, pos: nat, columns: Bitmap, nulls: Bitmap, v: nat, t: Table, jsonOk: seq<byte> -> bool)
    requires columns.Valid() && nulls.Valid() && v <= nulls.count && t.Proper() && pos <= |data.seen|
    requires Skip(data.seen[pos..], Present(columns, nulls, columns.count, v), t.tm) == Done(|data.seen| - pos)
    ensures Walk(data, pos, columns, nulls, columns.count, v, t, jsonOk) == Done(([], pos))
    ensures pos == |data.seen| && Decoded([]) == [] && ColumnsOf([]) == Listed(columns, columns.count)
  {
  }

  lemma PrefixedPiece(p: Piece, pieces: seq<Piece>)
    ensures Decoded([p] + pieces) == (if p.CellPiece? then p.cell else []) + Decoded(pieces)
    ensures ColumnsOf([p] + pieces) == [p.column] + ColumnsOf(pieces)
  {
    assert ([p] + pieces)[1..] == pieces;
  }

  /** The first cell: decoded and skipped lengths are equal, within the row. */
  lemma CellAgrees(data: Slice, pos: nat, c: nat, cs: seq<nat>, tm: TableMap, jsonOk: seq<byte> -> bool)
    requires ProperTable(tm) && KnownFractions(tm) && c < |tm.types| && pos <= |data.seen|
    requires CellValue(data, pos, tm.types[c], tm.metadata[c], jsonOk).Done?
    requires Skip(data.seen[pos..], [c] + cs, tm) == Done(|data.seen| - pos)
    ensures var l := CellValue(data, pos, tm.types[c], tm.metadata[c], jsonOk).value;
            && 0 <= l <= |data.seen| - pos && Upto(After(data.All(), pos), l) == data.seen[pos..pos + l]
            && Skip(data.seen[pos + l..], cs, tm) == Done(|data.seen| - pos - l)
  {
    LengthsAgree(data, pos, tm.types[c], tm.metadata[c], jsonOk);
    SkipStep(data.seen[pos..], c, cs, tm);
    hide Skip, CellValue, CellLength, OddFraction;
  }

  /** The same for any row of any event that Rows parsed, whatever is spare behind its cells. */
  lemma ParsedRowsWalk(data: Slice, start: nat, typ: byte, t: Table, i: nat, spare: seq<byte>,
      jsonOk: seq<byte> -> bool)
    requires t.Proper() && KnownFractions(t.tm)
    requires RowsEvents.Parse(data, start, typ, t.tm).Ends? && RowsEvents.Parse(data, start, typ, t.tm).outcome.Done?
    requires i < |RowsEvents.Parse(data, start, typ, t.tm).outcome.value.rows|
    ensures var rows := RowsEvents.Parse(data, start, typ, t.tm).outcome.value;
            && (HasData(typ) ==> ImageWalks(rows.rows[i].data, rows.dataColumns, t, spare, jsonOk))
            && (HasIdentify(typ) ==> ImageWalks(rows.rows[i].identify, rows.identifyColumns, t, spare, jsonOk))
  {
    RowsEvents.ParsedIsWellFormed(data, start, typ, t.tm);
    var rows := RowsEvents.Parse(data, start, typ, t.tm).outcome.value;
    assert WellFormedRow(rows.rows[i], ShapeOf(typ, rows), t.tm);
    hide RowsEvents.Parse, Skip, Present, Walk, Ones, KnownFractions;
    if HasData(typ) {
      ImageAgrees(rows.rows[i].data, rows.dataColumns, t, spare, jsonOk);
    }
    if HasIdentify(typ) {
      ImageAgrees(rows.rows[i].identify, rows.identifyColumns, t, spare, jsonOk);
    }
  }

  /** The image has a NULL bit for every present column, and a walk over it that succeeds meets exactly the
      present columns and decodes exactly the bytes of the image. */
  ghost predicate ImageWalks(im: Image, columns: Bitmap, t: Table, spare: seq<byte>, jsonOk: seq<byte> -> bool)
    requires t.Proper()
  {
    && columns.Valid() && im.nulls.Valid() && im.nulls.count == Ones(columns, columns.count)
    && var w := Walk(Slice(im.cells, spare), 0, columns, im.nulls, 0, 0, t, jsonOk);
       w.Done? ==>
         var (pieces, n) := w.value;
         n == |im.cells| && Decoded(pieces) == im.cells && ColumnsOf(pieces) == Listed(columns, 0)
  }

  lemma ImageAgrees(im: Image, columns: Bitmap, t: Table, spare: seq<byte>, jsonOk: seq<byte> -> bool)
    requires columns.Valid() && t.Proper() && KnownFractions(t.tm) && WellFormedImage(im, columns, t.tm)
    ensures ImageWalks(im, columns, t, spare, jsonOk)
  {
    hide Skip, Present, Walk, Decoded, ColumnsOf, Listed;
    assert im.cells[0..] == im.cells;
    if Walk(Slice(im.cells, spare), 0, columns, im.nulls, 0, 0, t, jsonOk).Done? {
      WalkAgrees(Slice(im.cells, spare), 0, columns, im.nulls, 0, 0, t, jsonOk);
    }
  }

  /** A walk with an earlier part put before it. */
  function Later(pieces: seq<Piece>, r: Outcome<(seq<Piece>, nat)>): Outcome<(seq<Piece>, nat)> {
    if r.Done? then Done((pieces + r.value.0, r.value.1)) else r
  }

  lemma LaterPrefixed(pieces: seq<Piece>, p: Piece, r: Outcome<(seq<Piece>, nat)>)
    ensures Later(pieces, Prefixed(p, r)) == Later(pieces + [p], r)
    ensures Later(pieces, Failed) == Failed && Later(pieces, Panicked) == Panicked
    ensures Later([], r) == r
  {
    if r.Done? {
      assert pieces + ([p] + r.value.0) == pieces + [p] + r.value.0;
      assert [] + r.value.0 == r.value.0;
    }
  }

  lemma LaterEnd(pieces: seq<Piece>, pos: nat)
    ensures Later(pieces, Done(([], pos))) == Done((pieces, pos))
  {
    assert pieces + [] == pieces;
  }

  /** writeValuesAsSQL and writeIdentifiersAsSQL: the loop over the columns of one image, and where it ends. */
  method WriteImageAsSql(data: Slice, columns: Bitmap, nulls: Bitmap, t: Table, jsonOk: seq<byte> -> bool)
    returns (r: Outcome<(seq<Piece>, nat)>)
    requires columns.Valid() && nulls.Valid() && nulls.count == Ones(columns, columns.count) && t.Proper()
    ensures r == Walk(data, 0, columns, nulls, 0, 0, t, jsonOk)
  {
    hide Walk, CellValue, Bitmap.Bit, Later, Prefixed, After, Ones;
    var pos: nat, valueIndex: nat, pieces: seq<Piece> := 0, 0, [];
    AfterNothing(columns);
    ghost var all := Walk(data, 0, columns, nulls, 0, 0, t, jsonOk);
    LaterPrefixed([], NullPiece(0), all);
    for c := 0 to columns.count
      invariant valueIndex == Ones(columns, c) <= nulls.count
      invariant all == Later(pieces, Walk(data, pos, columns, nulls, c, valueIndex, t, jsonOk))
    {
      WalkStep(data, pos, columns, nulls, c, valueIndex, t, jsonOk);
      LaterPrefixed(pieces, NullPiece(c), Failed);
      if !columns.Bit(c) {
        continue;
      }
      if c >= t.columns {
        return Panicked;
      }
      if nulls.Bit(valueIndex) {
        LaterPrefixed(pieces, NullPiece(c), Walk(data, pos, columns, nulls, c + 1, valueIndex + 1, t, jsonOk));
        pieces := pieces + [NullPiece(c)];
        valueIndex := valueIndex + 1;
        continue;
      }
      if c >= |t.tm.types| {
        return Panicked;
      }
      var l := CellValue(data, pos, t.tm.types[c], t.tm.metadata[c], jsonOk);
      if l.Failed? {
        return Failed;
      }
      if l.Panicked? {
        return Panicked;
      }
      var piece := CellPiece(c, Upto(After(data.All(), pos), l.value));
      LaterPrefixed(pieces, piece, Walk(data, pos + l.value, columns, nulls, c + 1, valueIndex + 1, t, jsonOk));
      pieces := pieces + [piece];
      pos := pos + l.value;
      valueIndex := valueIndex + 1;
    }
    WalkEnd(data, pos, columns, nulls, valueIndex, t, jsonOk);
    LaterEnd(pieces, pos);
    return Done((pieces, pos));
  }

  lemma AfterNothing(columns: Bitmap)
    requires columns.Valid()
    ensures Ones(columns, 0) == 0
  {
  }

  lemma WalkEnd(data: Slice, pos: nat, columns: Bitmap, nulls: Bitmap, v: nat, t: Table, jsonOk: seq<byte> -> bool)
    requires columns.Valid() && nulls.Valid() && v <= nulls.count && t.Proper()
    ensures Walk(data, pos, columns, nulls, columns.count, v, t, jsonOk) == Done(([], pos))
  {
  }
}
