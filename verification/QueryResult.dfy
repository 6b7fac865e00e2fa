/** The result-set dialogue (mysql/query.go): the server writes a result, the client reads it. */
module QueryResult {
  import opened Prelude
  import opened Bytes
  import opened Encoding
  import opened Framing
  import opened ResultPackets

  // ------------------------------------------------------------------ what is written

  function ColumnPackets(fields: seq<Field>): seq<seq<byte>> {
    if fields == [] then [] else [ColumnDefinition(fields[0])] + ColumnPackets(fields[1..])
  }

  function FieldPackets(fields: seq<Field>, deprecateEof: bool, status: nat): seq<seq<byte>> {
    [LenEncInt(|fields|)] + (ColumnPackets(fields) + if deprecateEof then [] else [EofBytes(status, 0)])
  }

  function RowPackets(rows: seq<seq<Value>>): seq<seq<byte>> {
    if rows == [] then [] else [RowBytes(rows[0])] + RowPackets(rows[1..])
  }

  function WithMore(status: nat, more: bool): nat {
    if more && !HasFlag(status, MoreResultsExists) then status + MoreResultsExists else status
  }

  function EndPacket(deprecateEof: bool, status: nat, more: bool, affectedRows: nat, lastInsertId: nat,
      warnings: nat): seq<byte> {
    if deprecateEof then OkBytes(EofPacket, affectedRows, lastInsertId, WithMore(status, more), warnings)
    else EofBytes(WithMore(status, more), warnings)
  }

  // --------------------------------------------------------------------- what is read

  datatype Reply =
    | Answer(fields: seq<Field>, rows: seq<seq<Value>>, rowsAffected: nat, insertId: nat, more: bool, warnings: nat)
    | ServerError(error: SqlError)
    | ConnectionLost(packet: Packet)
    | MalformedPacket
    | UnexpectedPacket
    | NotImplemented
    | TooManyRows
    | Crash

  /** A step of the dialogue: a value to go on with, or the reply that ends it. */
  datatype Got<+T> = Got(value: T) | Stop(reply: Reply)

  /** A step, the bytes left unread and the next sequence number. */
  datatype Out<+T> = Out(got: Got<T>, rest: seq<byte>, sequence: byte)

  datatype Start = NoRows(ok: Ok) | Columns(n: int)

  function ParseResponse(data: seq<byte>): Got<Start> {
    if data == [] then Stop(MalformedPacket)
    else if data[0] == OkPacket then
      match ParseOk(data)
      case None => Stop(MalformedPacket)
      case Some(ok) => Got(NoRows(ok))
    else if data[0] == ErrPacket then Stop(ServerError(ParseError(data)))
    else if data[0] == 0xfb then Stop(NotImplemented)
    else
      match ReadLenEncInt(data, 0)
      case None => Stop(MalformedPacket)
      case Some((n, pos)) => if pos != |data| then Stop(MalformedPacket) else Got(Columns(ToInt64(n)))
  }

  function ReadResponse(stream: seq<byte>, sequence: byte): Out<Start> {
    var r := ReadPayload(stream, sequence);
    Out(if r.packet.Packet? then ParseResponse(r.packet.data) else Stop(ConnectionLost(r.packet)), r.rest, r.sequence)
  }

  function TypeOnly(t: FieldType): Field { Field([], [], [], [], [], 0, 0, t, 0, 0) }

  function ParseColumn(data: seq<byte>, wantFields: bool): Got<Field> {
    if wantFields then
      match ParseColumnDefinition(data)
      case Failed => Stop(MalformedPacket)
      case Panicked => Stop(Crash)
      case Done(f) => Got(f)
    else
      match ParseColumnType(data)
      case Failed => Stop(MalformedPacket)
      case Panicked => Stop(Crash)
      case Done(t) => Got(TypeOnly(t))
  }

  function ReadColumn(stream: seq<byte>, sequence: byte, wantFields: bool): Out<Field> {
    var r := ReadPayload(stream, sequence);
    Out(if r.packet.Packet? then ParseColumn(r.packet.data, wantFields) else Stop(ConnectionLost(r.packet)),
        r.rest, r.sequence)
  }

  /** `n` more columns after those of `seen`. */
  function ReadColumns(stream: seq<byte>, sequence: byte, n: nat, wantFields: bool, seen: seq<Field>): Out<seq<Field>>
    decreases n
  {
    if n == 0 then Out(Got(seen), stream, sequence)
    else
      var o := ReadColumn(stream, sequence, wantFields);
      match o.got
      case Stop(reply) => Out(Stop(reply), o.rest, o.sequence)
      case Got(f) => ReadColumns(o.rest, o.sequence, n - 1, wantFields, seen + [f])
  }

  function ParseMarker(data: seq<byte>): Got<()> {
    if data == [] then Stop(Crash)
    else if IsEof(data) then Got(())
    else if IsError(data) then Stop(ServerError(ParseError(data)))
    else Stop(UnexpectedPacket)
  }

  /** The EOF packet between columns and rows, which DeprecateEOF leaves out. */
  function ReadMarker(stream: seq<byte>, sequence: byte, deprecateEof: bool): Out<()> {
    if deprecateEof then Out(Got(()), stream, sequence)
    else
      var r := ReadPayload(stream, sequence);
      Out(if r.packet.Packet? then ParseMarker(r.packet.data) else Stop(ConnectionLost(r.packet)), r.rest, r.sequence)
  }

  function ParseEnd(data: seq<byte>, deprecateEof: bool): Option<End> {
    if !deprecateEof then ParseEof(data)
    else
      match ParseOk(data)
      case None => None
      case Some(ok) => Some(ok.end)
  }

  function Types(fields: seq<Field>): (ts: seq<FieldType>)
    ensures |ts| == |fields| && forall i :: 0 <= i < |ts| ==> ts[i] == fields[i].typ
  {
    if fields == [] then [] else [fields[0].typ] + Types(fields[1..])
  }

  /** One packet of the row loop: the end, a row, an error, or a row too many. */
  datatype RowEvent = Last(end: End) | Row(row: seq<Value>) | Over | Bad(reply: Reply)

  function ParseRowPacket(data: seq<byte>, types: seq<FieldType>, deprecateEof: bool, full: bool): RowEvent {
    if data == [] then Bad(Crash)
    else if IsEof(data) then
      match ParseEnd(data, deprecateEof)
      case None => Bad(MalformedPacket)
      case Some(end) => Last(end)
    else if IsError(data) then Bad(ServerError(ParseError(data)))
    else if full then Over
    else
      match ParseCells(data, 0, types)
      case Failed => Bad(MalformedPacket)
      case Panicked => Bad(Crash)
      case Done(row) => Row(row)
  }

  /** The row loop, with the rows of `seen` already read. */
  function ReadRows(stream: seq<byte>, sequence: byte, types: seq<FieldType>, deprecateEof: bool, maxRows: int,
      seen: seq<seq<Value>>)
    : Out<(seq<seq<Value>>, End)>
    decreases |stream|
  {
    var r := ReadPayload(stream, sequence);
    if !r.packet.Packet? then Out(Stop(ConnectionLost(r.packet)), r.rest, r.sequence)
    else
      match ParseRowPacket(r.packet.data, types, deprecateEof, |seen| == maxRows)
      case Last(end) => Out(Got((seen, end)), r.rest, r.sequence)
      case Bad(reply) => Out(Stop(reply), r.rest, r.sequence)
      case Over =>
        var o := Drain(r.rest, r.sequence);
        Out(Stop(if o.got.Got? then TooManyRows else o.got.reply), o.rest, o.sequence)
      case Row(row) => ReadRows(r.rest, r.sequence, types, deprecateEof, maxRows, seen + [row])
  }

  /** drainResults: reads on to the end of the rows. */
  function Drain(stream: seq<byte>, sequence: byte): Out<()>
    decreases |stream|
  {
    var r := ReadPayload(stream, sequence);
    if !r.packet.Packet? then Out(Stop(ConnectionLost(r.packet)), r.rest, r.sequence)
    else if r.packet.data == [] then Out(Stop(Crash), r.rest, r.sequence)
    else if IsEof(r.packet.data) then Out(Got(()), r.rest, r.sequence)
    else if IsError(r.packet.data) then Out(Stop(ServerError(ParseError(r.packet.data))), r.rest, r.sequence)
    else Drain(r.rest, r.sequence)
  }

  function Answered(ok: Ok): Reply {
    Answer([], [], ok.affectedRows, ok.lastInsertId, HasFlag(ok.end.flags, MoreResultsExists), ok.end.warnings)
  }

  function Concluded(fields: seq<Field>, rows: seq<seq<Value>>, end: End, wantFields: bool): Reply {
    Answer(if wantFields then fields else [], rows, |rows|, 0, HasFlag(end.flags, MoreResultsExists), end.warnings)
  }

  /** ReadQueryResult. */
  function Respond(stream: seq<byte>, sequence: byte, deprecateEof: bool, maxRows: int, wantFields: bool): Out<Reply> {
    var start := ReadResponse(stream, sequence);
    match start.got
    case Stop(reply) => Out(Stop(reply), start.rest, start.sequence)
    case Got(NoRows(ok)) => Out(Got(Answered(ok)), start.rest, start.sequence)
    case Got(Columns(n)) =>
      if n == 0 then Out(Got(Answer([], [], 0, 0, false, 0)), start.rest, start.sequence)
      else if n < 0 then Out(Stop(Crash), start.rest, start.sequence)
      else
        var columns := ReadColumns(start.rest, start.sequence, n, wantFields, []);
        match columns.got
        case Stop(reply) => Out(Stop(reply), columns.rest, columns.sequence)
        case Got(fields) => RespondRows(columns.rest, columns.sequence, fields, deprecateEof, maxRows, wantFields)
  }

  function RespondRows(stream: seq<byte>, sequence: byte, fields: seq<Field>, deprecateEof: bool, maxRows: int,
      wantFields: bool): Out<Reply> {
    var marker := ReadMarker(stream, sequence, deprecateEof);
    match marker.got
    case Stop(reply) => Out(Stop(reply), marker.rest, marker.sequence)
    case Got(_) =>
      var o := ReadRows(marker.rest, marker.sequence, Types(fields), deprecateEof, maxRows, []);
      match o.got
      case Stop(reply) => Out(Stop(reply), o.rest, o.sequence)
      case Got((rows, end)) => Out(Got(Concluded(fields, rows, end, wantFields)), o.rest, o.sequence)
  }

  // ----------------------------------------------------------------------- round trip

  lemma NextPacket(p: seq<byte>, ps: seq<seq<byte>>, sequence: byte, rest: seq<byte>)
    ensures var next := After(p, sequence);
            ReadPayload(AllFrames([p] + ps, sequence) + rest, sequence)
              == Read(Packet(p), AllFrames(ps, next) + rest, next)
    ensures AllAfter([p] + ps, sequence) == AllAfter(ps, After(p, sequence))
  {
    var tail := AllFrames(ps, After(p, sequence)) + rest;
    assert ([p] + ps)[1..] == ps;
    assert AllFrames([p] + ps, sequence) + rest == Frames(p, sequence) + tail;
    FramesRoundTrip(Frames(p, sequence) + tail, sequence, p, tail);
  }

  lemma NoFrames(sequence: byte, rest: seq<byte>)
    ensures AllFrames([], sequence) + rest == rest
  {
  }

  /** Every number fits its Go type and every packet is a Go slice. */
  ghost predicate Sendable(fields: seq<Field>, rows: seq<seq<Value>>) {
    && 0 < |fields| <= MAX_INT64
    && (forall i :: 0 <= i < |fields| ==> ProperField(fields[i]) && |ColumnDefinition(fields[i])| <= MAX_INT64)
    && (forall i :: 0 <= i < |rows| ==> |rows[i]| == |fields| && |RowBytes(rows[i])| <= MAX_INT64)
  }

  ghost predicate AllMapped(fields: seq<Field>) { forall i :: 0 <= i < |fields| ==> Mapped(fields[i].typ) }

  /** A column as the client sees it. */
  function Seen(f: Field, wantFields: bool): Field
    requires Mapped(f.typ)
  {
    if wantFields then Recovered(f) else TypeOnly(TypeOf(f))
  }

  ghost function AllSeen(fields: seq<Field>, wantFields: bool): (r: seq<Field>)
    requires AllMapped(fields)
    ensures |r| == |fields| && forall i :: 0 <= i < |r| ==>
              r[i] == Seen(fields[i], wantFields) && r[i].typ == TypeOf(fields[i])
  {
    if fields == [] then [] else [Seen(fields[0], wantFields)] + AllSeen(fields[1..], wantFields)
  }

  lemma ColumnParsed(f: Field, wantFields: bool)
    requires ProperField(f) && |ColumnDefinition(f)| <= MAX_INT64
    ensures ParseColumn(ColumnDefinition(f), wantFields) ==
            if Mapped(f.typ) then Got(Seen(f, wantFields)) else Stop(MalformedPacket)
  {
    ColumnDefinitionRoundTrip(f);
  }

  /** Reading one more column packet. */
  lemma ColumnsStep(p: seq<byte>, ps: seq<seq<byte>>, sequence: byte, rest: seq<byte>, n: nat, wantFields: bool,
      seen: seq<Field>)
    requires n > 0
    ensures var next := After(p, sequence);
            ReadColumns(AllFrames([p] + ps, sequence) + rest, sequence, n, wantFields, seen) ==
            match ParseColumn(p, wantFields)
            case Got(f) => ReadColumns(AllFrames(ps, next) + rest, next, n - 1, wantFields, seen + [f])
            case Stop(reply) => Out(Stop(reply), AllFrames(ps, next) + rest, next)
  {
    NextPacket(p, ps, sequence, rest);
    hide AllFrames, ParseColumn, ReadPayload;
  }

  lemma {:induction false} ColumnsRoundTrip(fields: seq<Field>, ps: seq<seq<byte>>, sequence: byte, rest: seq<byte>,
      wantFields: bool, seen: seq<Field>)
    requires forall i :: 0 <= i < |fields| ==> ProperField(fields[i]) && |ColumnDefinition(fields[i])| <= MAX_INT64
    requires AllMapped(fields)
    ensures var next := AllAfter(ColumnPackets(fields), sequence);
            ReadColumns(AllFrames(ColumnPackets(fields) + ps, sequence) + rest, sequence, |fields|, wantFields, seen)
            == Out(Got(seen + AllSeen(fields, wantFields)), AllFrames(ps, next) + rest, next)
    decreases |fields|
  {
    if fields == [] {
      ColumnsNone(ps, wantFields, seen);
      hide AllFrames;
    } else {
      hide *;
      ColumnsHead(fields, ps, wantFields, seen);
      ColumnParsed(fields[0], wantFields);
      var more, p, f := ColumnPackets(fields[1..]), ColumnDefinition(fields[0]), Seen(fields[0], wantFields);
      ColumnsStep(p, more + ps, sequence, rest, |fields|, wantFields, seen);
      NextPacket(p, more, sequence, []);
      ColumnsRoundTrip(fields[1..], ps, After(p, sequence), rest, wantFields, seen + [f]);
    }
  }

  lemma ColumnsNone(ps: seq<seq<byte>>, wantFields: bool, seen: seq<Field>)
    ensures AllMapped([]) && ColumnPackets([]) + ps == ps && seen + AllSeen([], wantFields) == seen
        && ColumnPackets([]) == []
  {
  }

  lemma ColumnsHead(fields: seq<Field>, ps: seq<seq<byte>>, wantFields: bool, seen: seq<Field>)
    requires fields != [] && AllMapped(fields)
    ensures AllMapped(fields[1..]) && Mapped(fields[0].typ)
    ensures ColumnPackets(fields) == [ColumnDefinition(fields[0])] + ColumnPackets(fields[1..])
    ensures ColumnPackets(fields) + ps == [ColumnDefinition(fields[0])] + (ColumnPackets(fields[1..]) + ps)
    ensures seen + AllSeen(fields, wantFields) == seen + [Seen(fields[0], wantFields)]
        + AllSeen(fields[1..], wantFields)
  {
    hide ColumnDefinition, Seen;
  }

  /** A column of a type the protocol cannot carry makes the client give up. */
  lemma {:induction false} UnmappedColumn(fields: seq<Field>, ps: seq<seq<byte>>, sequence: byte, rest: seq<byte>,
      wantFields: bool, seen: seq<Field>)
    requires forall i :: 0 <= i < |fields| ==> ProperField(fields[i]) && |ColumnDefinition(fields[i])| <= MAX_INT64
    requires !AllMapped(fields)
    ensures ReadColumns(AllFrames(ColumnPackets(fields) + ps, sequence) + rest, sequence, |fields|, wantFields,
        seen).got == Stop(MalformedPacket)
    decreases |fields|
  {
    hide *;
    UnmappedHead(fields, ps);
    var more, p := ColumnPackets(fields[1..]), ColumnDefinition(fields[0]);
    ColumnsStep(p, more + ps, sequence, rest, |fields|, wantFields, seen);
    ColumnParsed(fields[0], wantFields);
    if Mapped(fields[0].typ) {
      UnmappedColumn(fields[1..], ps, After(p, sequence), rest, wantFields, seen + [Seen(fields[0], wantFields)]);
    }
  }

  lemma UnmappedHead(fields: seq<Field>, ps: seq<seq<byte>>)
    requires !AllMapped(fields)
    ensures fields != [] && (Mapped(fields[0].typ) ==> !AllMapped(fields[1..]))
    ensures ColumnPackets(fields) + ps == [ColumnDefinition(fields[0])] + (ColumnPackets(fields[1..]) + ps)
  {
    var i :| 0 <= i < |fields| && !Mapped(fields[i].typ);
    if i > 0 {
      assert fields[1..][i - 1] == fields[i];
    }
    assert ColumnPackets(fields) == [ColumnDefinition(fields[0])] + ColumnPackets(fields[1..]);
    hide ColumnDefinition, ColumnPackets;
    Associative([ColumnDefinition(fields[0])], ColumnPackets(fields[1..]), ps);
  }

  // The rows.

  lemma RowsStep(p: seq<byte>, ps: seq<seq<byte>>, sequence: byte, rest: seq<byte>, types: seq<FieldType>,
      deprecateEof: bool, maxRows: int,
                 seen: seq<seq<Value>>)
    ensures var next, event := After(p, sequence), ParseRowPacket(p, types, deprecateEof, |seen| == maxRows);
            var stream, drained := AllFrames(ps, next) + rest, Drain(AllFrames(ps, next) + rest, next);
            var o := ReadRows(AllFrames([p] + ps, sequence) + rest, sequence, types, deprecateEof, maxRows, seen);
            && (event.Last? ==> o == Out(Got((seen, event.end)), stream, next))
            && (event.Bad? ==> o == Out(Stop(event.reply), stream, next))
            && (event.Over? ==> o == Out(Stop(if drained.got.Got? then TooManyRows else drained.got.reply),
              drained.rest, drained.sequence))
            && (event.Row? ==> o == ReadRows(stream, next, types, deprecateEof, maxRows, seen + [event.row]))
  {
    NextPacket(p, ps, sequence, rest);
    hide AllFrames, ParseRowPacket, ReadPayload, Drain;
  }

  lemma DrainStep(p: seq<byte>, ps: seq<seq<byte>>, sequence: byte, rest: seq<byte>)
    requires p != [] && !IsError(p)
    ensures var next := After(p, sequence);
            Drain(AllFrames([p] + ps, sequence) + rest, sequence) ==
            if IsEof(p) then Out(Got(()), AllFrames(ps, next) + rest, next) else Drain(AllFrames(ps, next) + rest, next)
  {
    NextPacket(p, ps, sequence, rest);
    hide AllFrames, ReadPayload;
  }

  /** A row packet is a row to the client, and the end packet the end, as long as it is recognised. */
  lemma RowParsed(row: seq<Value>, types: seq<FieldType>, deprecateEof: bool, full: bool)
    requires row != [] && |row| == |types| && |RowBytes(row)| <= MAX_INT64
    ensures ParseRowPacket(RowBytes(row), types, deprecateEof, full) ==
            if full then Over else Row(RecoveredRow(row, types))
    ensures RowBytes(row) != [] && !IsEof(RowBytes(row)) && !IsError(RowBytes(row))
  {
    RowIsNoControlPacket(row);
    assert [] + RowBytes(row) == RowBytes(row);
    RowRoundTrip([], row, types);
  }

  /** The parameters of the end of a result. */
  datatype Ending = Ending(deprecateEof: bool, status: nat, more: bool, affectedRows: nat, lastInsertId: nat,
      warnings: nat) {
    predicate Proper() { status < 0x1_0000 && affectedRows < U64 && lastInsertId < U64 && warnings < 0x1_0000 }
    function Packet(): seq<byte> { EndPacket(deprecateEof, status, more, affectedRows, lastInsertId, warnings) }
    /** The end is recognised: the OK form must stay below nine bytes. */
    predicate Recognised() { deprecateEof ==> affectedRows < 251 && lastInsertId < 251 }
    function Seen(): End { End(WithMore(status, more), warnings) }
  }

  lemma EndParsed(e: Ending, types: seq<FieldType>, full: bool)
    requires e.Proper()
    ensures WithMore(e.status, e.more) < 0x1_0000
        && HasFlag(WithMore(e.status, e.more), 8) == (e.more || HasFlag(e.status, 8))
    ensures e.Packet() != [] && !IsError(e.Packet()) && (IsEof(e.Packet()) <==> e.Recognised())
    ensures e.Recognised() ==> ParseRowPacket(e.Packet(), types, e.deprecateEof, full) == Last(e.Seen())
  {
    MoreFlag(e.status);
    if e.deprecateEof {
      OkRoundTrip(EofPacket, e.affectedRows, e.lastInsertId, WithMore(e.status, e.more), e.warnings);
    } else {
      EofRoundTrip(WithMore(e.status, e.more), e.warnings);
    }
    hide LE, LenEncInt, ParseOk, ParseEof, ParseCells, HasFlag;
  }

  lemma MoreFlag(status: nat)
    requires status < 0x1_0000
    ensures WithMore(status, true) < 0x1_0000 && HasFlag(WithMore(status, true), 8)
    ensures WithMore(status, false) == status
  {
    var q, r := status / 8, status % 8;
    assert status == 8 * q + r;
    if q % 2 != 1 {
      assert q < 0x2000 && q != 0x1fff;
      assert (status + 8) / 8 == q + 1;
    }
  }

  function AllRecovered(rows: seq<seq<Value>>, types: seq<FieldType>): (r: seq<seq<Value>>)
    requires forall i :: 0 <= i < |rows| ==> |rows[i]| == |types|
    ensures |r| == |rows| && forall i :: 0 <= i < |rows| ==> r[i] == RecoveredRow(rows[i], types)
  {
    if rows == [] then [] else [RecoveredRow(rows[0], types)] + AllRecovered(rows[1..], types)
  }

  lemma {:induction false} RowsRoundTrip(rows: seq<seq<Value>>, e: Ending, sequence: byte, rest: seq<byte>,
      types: seq<FieldType>, maxRows: int,
                                         seen: seq<seq<Value>>)
    requires types != [] && forall i :: 0 <= i < |rows| ==> |rows[i]| == |types| && |RowBytes(rows[i])| <= MAX_INT64
    requires e.Proper() && e.Recognised() && (maxRows < 0 || |seen| + |rows| <= maxRows)
    ensures var packets := RowPackets(rows) + [e.Packet()];
            ReadRows(AllFrames(packets, sequence) + rest, sequence, types, e.deprecateEof, maxRows, seen)
            == Out(Got((seen + AllRecovered(rows, types), e.Seen())), rest, AllAfter(packets, sequence))
    decreases |rows|
  {
    if rows == [] {
      var p := e.Packet();
      assert RowPackets([]) + [p] == [p] + [];
      EndParsed(e, types, |seen| == maxRows);
      assert AllRecovered(rows, types) == [] && seen + [] == seen;
      assert forall s: byte :: AllAfter([], s) == s;
      hide *;
      NoFrames(After(p, sequence), rest);
      RowsStep(p, [], sequence, rest, types, e.deprecateEof, maxRows, seen);
      NextPacket(p, [], sequence, []);
    } else {
      RowParsed(rows[0], types, e.deprecateEof, |seen| == maxRows);
      hide *;
      RowsHead(rows, e.Packet(), types, seen);
      var p, more := RowBytes(rows[0]), RowPackets(rows[1..]) + [e.Packet()];
      RowsStep(p, more, sequence, rest, types, e.deprecateEof, maxRows, seen);
      NextPacket(p, more, sequence, []);
      RowsRoundTrip(rows[1..], e, After(p, sequence), rest, types, maxRows, seen + [RecoveredRow(rows[0], types)]);
    }
  }

  lemma RowsHead(rows: seq<seq<Value>>, end: seq<byte>, types: seq<FieldType>, seen: seq<seq<Value>>)
    requires rows != [] && forall i :: 0 <= i < |rows| ==> |rows[i]| == |types|
    ensures RowPackets(rows) + [end] == [RowBytes(rows[0])] + (RowPackets(rows[1..]) + [end])
    ensures seen + AllRecovered(rows, types) == seen + [RecoveredRow(rows[0], types)] + AllRecovered(rows[1..], types)
  {
    hide RowBytes, RecoveredRow;
  }

  /** drainResults reads exactly to the end of the result, whatever is left of it. */
  lemma {:induction false} DrainRoundTrip(rows: seq<seq<Value>>, e: Ending, sequence: byte, rest: seq<byte>)
    requires e.Proper() && e.Recognised() && forall i :: 0 <= i < |rows| ==> rows[i] != []
    ensures var packets := RowPackets(rows) + [e.Packet()];
            Drain(AllFrames(packets, sequence) + rest, sequence) == Out(Got(()), rest, AllAfter(packets, sequence))
    decreases |rows|
  {
    if rows == [] {
      var p := e.Packet();
      assert RowPackets([]) + [p] == [p] + [];
      EndParsed(e, [], false);
      assert forall s: byte :: AllAfter([], s) == s;
      hide *;
      NoFrames(After(p, sequence), rest);
      DrainStep(p, [], sequence, rest);
      NextPacket(p, [], sequence, []);
    } else {
      RowIsNoControlPacket(rows[0]);
      assert RowPackets(rows) + [e.Packet()] == [RowBytes(rows[0])] + (RowPackets(rows[1..]) + [e.Packet()]);
      hide *;
      var p, more := RowBytes(rows[0]), RowPackets(rows[1..]) + [e.Packet()];
      DrainStep(p, more, sequence, rest);
      NextPacket(p, more, sequence, []);
      DrainRoundTrip(rows[1..], e, After(p, sequence), rest);
    }
  }

  /** More rows than asked for: the client reads them all and reports it. */
  lemma {:induction false} RowsOver(rows: seq<seq<Value>>, e: Ending, sequence: byte, rest: seq<byte>,
      types: seq<FieldType>, maxRows: int,
                                    seen: seq<seq<Value>>)
    requires types != [] && forall i :: 0 <= i < |rows| ==> |rows[i]| == |types| && |RowBytes(rows[i])| <= MAX_INT64
    requires e.Proper() && e.Recognised() && |seen| <= maxRows < |seen| + |rows|
    ensures var packets := RowPackets(rows) + [e.Packet()];
            ReadRows(AllFrames(packets, sequence) + rest, sequence, types, e.deprecateEof, maxRows, seen)
            == Out(Stop(TooManyRows), rest, AllAfter(packets, sequence))
    decreases |rows|
  {
    RowParsed(rows[0], types, e.deprecateEof, |seen| == maxRows);
    hide *;
    RowsHead(rows, e.Packet(), types, seen);
    var p, more := RowBytes(rows[0]), RowPackets(rows[1..]) + [e.Packet()];
    RowsStep(p, more, sequence, rest, types, e.deprecateEof, maxRows, seen);
    NextPacket(p, more, sequence, []);
    if |seen| == maxRows {
      DrainRoundTrip(rows[1..], e, After(p, sequence), rest);
    } else {
      RowsOver(rows[1..], e, After(p, sequence), rest, types, maxRows, seen + [RecoveredRow(rows[0], types)]);
    }
  }

  /** Everything the server sends for one result. */
  function ResultSet(fields: seq<Field>, rows: seq<seq<Value>>, e: Ending): seq<seq<byte>> {
    FieldPackets(fields, e.deprecateEof, e.status) + (RowPackets(rows) + [e.Packet()])
  }

  /** The types the client gives to the values of each column. */
  ghost function ClientTypes(fields: seq<Field>): (ts: seq<FieldType>)
    requires AllMapped(fields)
    ensures |ts| == |fields| && forall i :: 0 <= i < |ts| ==> ts[i] == TypeOf(fields[i])
  {
    Types(AllSeen(fields, true))
  }

  lemma TypesSeen(fields: seq<Field>, wantFields: bool)
    requires AllMapped(fields)
    ensures Types(AllSeen(fields, wantFields)) == ClientTypes(fields)
  {
  }

  /** The end-to-end theorem. A client with the server's DeprecateEOF setting reads back every result the
      server writes, whatever bytes the cells hold: the same rows and NULLs, the warning count and the
      `more` flag, leaving exactly what follows the result. It fails exactly when a column type is
      unmapped, or when there are more rows than a non-negative limit, and then still reads to the end. */
  lemma ResultSetRoundTrip(fields: seq<Field>, rows: seq<seq<Value>>, e: Ending, sequence: byte, rest: seq<byte>,
      maxRows: int, wantFields: bool)
    requires Sendable(fields, rows) && e.Proper() && e.Recognised()
    ensures var packets := ResultSet(fields, rows, e);
            var o := Respond(AllFrames(packets, sequence) + rest, sequence, e.deprecateEof, maxRows, wantFields);
            && (AllMapped(fields) && (maxRows < 0 || |rows| <= maxRows) ==>
                  o == Out(Got(Answer(if wantFields then AllSeen(fields, true)
                    else [], AllRecovered(rows, ClientTypes(fields)), |rows|, 0,
                                      e.more || HasFlag(e.status, 8), e.warnings)),
                           rest, AllAfter(packets, sequence)))
            && (AllMapped(fields) && 0 <= maxRows < |rows|
              ==> o == Out(Stop(TooManyRows), rest, AllAfter(packets, sequence)))
            && (!AllMapped(fields) ==> o.got == Stop(MalformedPacket))
  {
    var tail := RowPackets(rows) + [e.Packet()];
    var marker := if e.deprecateEof then [] else [EofBytes(e.status, 0)];
    var first, columns := LenEncInt(|fields|), ColumnPackets(fields);
    var next := After(first, sequence);
    hide *;
    ResultSetParts(fields, rows, e);
    SendableColumns(fields, rows);
    StartParsed(|fields|, columns + (marker + tail), sequence, rest);
    RespondStart(|fields|, columns + (marker + tail), sequence, rest, e.deprecateEof, maxRows, wantFields);
    if AllMapped(fields) {
      ColumnsRoundTrip(fields, marker + tail, next, rest, wantFields, []);
      var seen := AllSeen(fields, wantFields);
      assert [] + seen == seen;
      AllFramesAppend(columns, marker + tail, next);
      MarkerRoundTrip(fields, rows, e, AllAfter(columns, next), rest, maxRows, wantFields);
    } else {
      UnmappedColumn(fields, marker + tail, next, rest, wantFields, []);
    }
  }

  /** A column arrives under its own names: each of the five, whatever the others are. */
  lemma NamesArrive(fields: seq<Field>, rows: seq<seq<Value>>, e: Ending, sequence: byte, rest: seq<byte>, i: nat)
    requires Sendable(fields, rows) && e.Proper() && e.Recognised() && AllMapped(fields) && i < |fields|
    ensures var o := Respond(AllFrames(ResultSet(fields, rows, e), sequence) + rest, sequence, e.deprecateEof, -1, true);
            && o.got.Got? && o.got.value.Answer? && |o.got.value.fields| == |fields|
            && var f := o.got.value.fields[i];
               && f.database == fields[i].database && f.table == fields[i].table && f.orgTable == fields[i].orgTable
               && f.name == fields[i].name && f.orgName == fields[i].orgName
  {
    hide Respond, AllFrames, ResultSet, Sendable, AllRecovered, AllAfter, ClientTypes, AllMapped, AllSeen;
    ResultSetRoundTrip(fields, rows, e, sequence, rest, -1, true);
  }

  lemma ResultSetParts(fields: seq<Field>, rows: seq<seq<Value>>, e: Ending)
    ensures ResultSet(fields, rows, e)
         == [LenEncInt(|fields|)] + (ColumnPackets(fields)
           + ((if e.deprecateEof then [] else [EofBytes(e.status, 0)]) + (RowPackets(rows) + [e.Packet()])))
  {
    hide LenEncInt, ColumnPackets, EofBytes, RowPackets, Ending.Packet;
  }

  lemma SendableColumns(fields: seq<Field>, rows: seq<seq<Value>>)
    requires Sendable(fields, rows)
    ensures forall i :: 0 <= i < |fields| ==> ProperField(fields[i]) && |ColumnDefinition(fields[i])| <= MAX_INT64
    ensures 0 < |fields| <= MAX_INT64
  {
  }

  lemma StartParsed(n: nat, ps: seq<seq<byte>>, sequence: byte, rest: seq<byte>)
    requires 0 < n <= MAX_INT64
    ensures var next := After(LenEncInt(n), sequence);
            ReadResponse(AllFrames([LenEncInt(n)] + ps, sequence) + rest, sequence)
              == Out(Got(Columns(n)), AllFrames(ps, next) + rest, next)
    ensures AllAfter([LenEncInt(n)] + ps, sequence) == AllAfter(ps, After(LenEncInt(n), sequence))
  {
    CountParsed(n);
    NextPacket(LenEncInt(n), ps, sequence, rest);
    hide AllFrames, ReadPayload, LenEncInt, ParseResponse;
  }

  lemma CountParsed(n: nat)
    requires 0 < n <= MAX_INT64
    ensures ParseResponse(LenEncInt(n)) == Got(Columns(n))
  {
    ColumnCountIsNoControlPacket(n);
    hide LenEncInt, ReadLenEncInt, ParseOk, ParseError;
  }

  lemma RespondStart(n: nat, ps: seq<seq<byte>>, sequence: byte, rest: seq<byte>, deprecateEof: bool, maxRows: int,
      wantFields: bool)
    requires 0 < n <= MAX_INT64
    ensures var next := After(LenEncInt(n), sequence);
            var columns := ReadColumns(AllFrames(ps, next) + rest, next, n, wantFields, []);
            Respond(AllFrames([LenEncInt(n)] + ps, sequence) + rest, sequence, deprecateEof, maxRows, wantFields) ==
            match columns.got
            case Stop(reply) => Out(Stop(reply), columns.rest, columns.sequence)
            case Got(fields) => RespondRows(columns.rest, columns.sequence, fields, deprecateEof, maxRows, wantFields)
  {
    StartParsed(n, ps, sequence, rest);
    hide AllFrames, ReadResponse, LenEncInt, ReadColumns, RespondRows;
  }

  lemma MarkerRoundTrip(fields: seq<Field>, rows: seq<seq<Value>>, e: Ending, sequence: byte, rest: seq<byte>,
      maxRows: int, wantFields: bool)
    requires Sendable(fields, rows) && AllMapped(fields) && e.Proper() && e.Recognised()
    ensures var packets := (if e.deprecateEof then [] else [EofBytes(e.status, 0)]) + (RowPackets(rows) + [e.Packet()]);
            RespondRows(AllFrames(packets, sequence) + rest, sequence, AllSeen(fields, wantFields), e.deprecateEof,
              maxRows, wantFields) ==
            Out(if maxRows < 0 || |rows| <= maxRows then
                  Got(Answer(if wantFields then AllSeen(fields, true)
                    else [], AllRecovered(rows, ClientTypes(fields)), |rows|, 0,
                             e.more || HasFlag(e.status, 8), e.warnings))
                else Stop(TooManyRows),
                rest, AllAfter(packets, sequence))
  {
    var tail := RowPackets(rows) + [e.Packet()];
    EndParsed(e, [], false);
    TypesSeen(fields, wantFields);
    assert Concluded(AllSeen(fields, wantFields), AllRecovered(rows, ClientTypes(fields)), e.Seen(), wantFields)
        == Answer(if wantFields then AllSeen(fields, true) else [], AllRecovered(rows, ClientTypes(fields)), |rows|, 0,
                  e.more || HasFlag(e.status, 8), e.warnings);
    assert [] + AllRecovered(rows, ClientTypes(fields)) == AllRecovered(rows, ClientTypes(fields));
    hide AllFrames, AllAfter, After, EndPacket, Ending.Packet, Ending.Seen, Ending.Proper, Ending.Recognised, ReadRows,
      ReadMarker, RowBytes,
      ColumnDefinition, ProperField, AllSeen, AllRecovered, RowPackets, EofBytes, Concluded, ClientTypes, AllMapped;
    var next := MarkerParsed(e, tail, sequence, rest);
    if maxRows < 0 || |rows| <= maxRows {
      RowsRoundTrip(rows, e, next, rest, ClientTypes(fields), maxRows, []);
    } else {
      RowsOver(rows, e, next, rest, ClientTypes(fields), maxRows, []);
    }
  }

  lemma MarkerParsed(e: Ending, tail: seq<seq<byte>>, sequence: byte, rest: seq<byte>) returns (next: byte)
    requires e.Proper()
    ensures var packets := (if e.deprecateEof then [] else [EofBytes(e.status, 0)]) + tail;
            && AllAfter(packets, sequence) == AllAfter(tail, next)
            && ReadMarker(AllFrames(packets, sequence) + rest, sequence, e.deprecateEof)
              == Out(Got(()), AllFrames(tail, next) + rest, next)
  {
    if e.deprecateEof {
      assert [] + tail == tail;
      next := sequence;
    } else {
      EofRoundTrip(e.status, 0);
      NextPacket(EofBytes(e.status, 0), tail, sequence, rest);
      next := After(EofBytes(e.status, 0), sequence);
    }
    hide AllFrames, AllAfter, ReadPayload, EofBytes, ParseError;
  }

  /** A cell arrives as it was sent, NULL as NULL and bytes as the same bytes, exactly when it is NULL
      or its column is not of the NULL type. */
  lemma CellSurvives(v: Value, f: Field)
    requires Mapped(f.typ)
    ensures (RecoveredValue(v, TypeOf(f)).IsNull() <==> v.IsNull())
        && (!v.IsNull() ==> RecoveredValue(v, TypeOf(f)).val == v.val)
       <==> v.IsNull() || f.typ != Null
  {
    TypeRoundTrip(f.typ, SentFlags(f));
  }

  /** A statement without rows: the OK packet gives back its numbers. */
  lemma OkReplyRoundTrip(affectedRows: nat, lastInsertId: nat, flags: nat, warnings: nat, sequence: byte,
      rest: seq<byte>,
                         deprecateEof: bool, maxRows: int, wantFields: bool)
    requires affectedRows < U64 && lastInsertId < U64 && flags < 0x1_0000 && warnings < 0x1_0000
    ensures var packet := OkBytes(OkPacket, affectedRows, lastInsertId, flags, warnings);
            Respond(Frames(packet, sequence) + rest, sequence, deprecateEof, maxRows, wantFields)
            == Out(Got(Answer([], [], affectedRows, lastInsertId, HasFlag(flags, 8), warnings)), rest,
              After(packet, sequence))
  {
    var packet := OkBytes(OkPacket, affectedRows, lastInsertId, flags, warnings);
    FramesRoundTrip(Frames(packet, sequence) + rest, sequence, packet, rest);
    OkRoundTrip(OkPacket, affectedRows, lastInsertId, flags, warnings);
    assert packet[0] == OkPacket;
    hide OkBytes, ParseOk, ReadPayload, Frames, After, HasFlag;
  }

  /** A failed statement: the client reports the server's code, state and message. */
  lemma ErrorReplyRoundTrip(code: nat, state: seq<byte>, message: seq<byte>, sequence: byte, rest: seq<byte>,
                            deprecateEof: bool, maxRows: int, wantFields: bool)
    requires code < 0x1_0000 && |state| == 5
    ensures var packet := ErrorBytes(code, state, message);
            Respond(Frames(packet, sequence) + rest, sequence, deprecateEof, maxRows, wantFields)
            == Out(Stop(ServerError(SqlError(code, state, message))), rest, After(packet, sequence))
  {
    var packet := ErrorBytes(code, state, message);
    FramesRoundTrip(Frames(packet, sequence) + rest, sequence, packet, rest);
    ErrorRoundTrip(code, state, message);
    hide ErrorBytes, ParseError, ReadPayload, Frames, After;
  }
}
