/** The client side of the result-set dialogue (mysql/query.go): reads packets and rebuilds the result. */
module ResultClient {
  import opened Prelude
  import opened Bytes
  import opened Encoding
  import opened Framing
  import opened ResultPackets
  import opened QueryResult

  method ReadComQueryResponse(c: Conn) returns (g: Got<Start>)
    requires c.policy == EphemeralUnused
    modifies c`unread, c`sequence, c`policy
    ensures Out(g, c.unread, c.sequence) == ReadResponse(old(c.unread), old(c.sequence))
    ensures g.Got? ==> c.policy == EphemeralUnused
  {
    hide ReadPayload, ParseOk, ParseError;
    var p := c.ReadEphemeralPacket();
    if !p.Packet? {
      return Stop(ConnectionLost(p));
    }
    PayloadHasHead(old(c.unread), old(c.sequence));
    c.RecycleReadPacket();
    var data := p.data;
    if |data| == 0 {
      return Stop(MalformedPacket);
    }
    if data[0] == OkPacket {
      var ok := ParseOk(data);
      return if ok.None? then Stop(MalformedPacket) else Got(NoRows(ok.value));
    }
    if data[0] == ErrPacket {
      return Stop(ServerError(ParseError(data)));
    }
    if data[0] == 0xfb {
      return Stop(NotImplemented);
    }
    var n := ReadLenEncInt(data, 0);
    if n.None? || n.value.1 != |data| {
      return Stop(MalformedPacket);
    }
    return Got(Columns(ToInt64(n.value.0)));
  }

  /** A payload that arrived had a readable header. */
  lemma PayloadHasHead(stream: seq<byte>, sequence: byte)
    requires ReadPayload(stream, sequence).packet.Packet?
    ensures ReadHead(stream, sequence).0.Ok?
  {
  }

  /** readColumnDefinition, or readColumnDefinitionType when the caller does not want the fields. */
  method ReadColumnDefinition(c: Conn, wantFields: bool) returns (g: Got<Field>)
    requires c.policy == EphemeralUnused
    modifies c`unread, c`sequence, c`policy
    ensures Out(g, c.unread, c.sequence) == ReadColumn(old(c.unread), old(c.sequence), wantFields)
    ensures g.Got? ==> c.policy == EphemeralUnused
  {
    hide ReadPayload, ParseColumn;
    var p := c.ReadEphemeralPacket();
    if !p.Packet? {
      return Stop(ConnectionLost(p));
    }
    PayloadHasHead(old(c.unread), old(c.sequence));
    c.RecycleReadPacket();
    return ParseColumn(p.data, wantFields);
  }

  function Prepended(row: seq<Value>, o: Outcome<seq<Value>>): Outcome<seq<Value>> {
    if o.Done? then Done(row + o.value) else o
  }

  lemma PrependedMore(row: seq<Value>, v: Value, o: Outcome<seq<Value>>)
    ensures Prepended(row, Prepended([v], o)) == Prepended(row + [v], o)
  {
    if o.Done? {
      assert row + ([v] + o.value) == row + [v] + o.value;
    }
  }

  method ParseRow(data: seq<byte>, types: seq<FieldType>) returns (o: Outcome<seq<Value>>)
    ensures o == ParseCells(data, 0, types)
  {
    var result: seq<Value> := [];
    var pos: nat := 0;
    assert types[0..] == types;
    assert Prepended([], ParseCells(data, 0, types))
      == ParseCells(data, 0, types) by { PrependedNone(ParseCells(data, 0, types)); }
    hide ReadCell, Prepended, ParseCells;
    var i := 0;
    while i < |types|
      invariant i <= |types|
      invariant ParseCells(data, 0, types) == Prepended(result, ParseCells(data, pos, types[i..]))
    {
      CellFirst(data, pos, types[i..]);
      assert types[i..][1..] == types[i + 1..];
      Broken(result);
      if pos >= |data| {
        return Panicked;
      }
      if data[pos] == 0xfb {
        PrependedMore(result, NullValue, ParseCells(data, pos + 1, types[i + 1..]));
        result := result + [NullValue];
        pos := pos + 1;
      } else {
        var cell := ReadCell(data, pos, types[i]);
        if cell.Failed? {
          return Failed;
        }
        if cell.Panicked? {
          return Panicked;
        }
        PrependedMore(result, cell.value.0, ParseCells(data, cell.value.1, types[i + 1..]));
        result := result + [cell.value.0];
        pos := cell.value.1;
      }
      i := i + 1;
    }
    Whole(data, pos, types[i..], result);
    return Done(result);
  }

  lemma PrependedNone(o: Outcome<seq<Value>>)
    ensures Prepended([], o) == o
  {
    if o.Done? {
      assert [] + o.value == o.value;
    }
  }

  lemma Broken(row: seq<Value>)
    ensures Prepended(row, Failed) == Failed && Prepended(row, Panicked) == Panicked
  {
  }

  lemma Whole(data: seq<byte>, pos: nat, types: seq<FieldType>, row: seq<Value>)
    requires types == []
    ensures Prepended(row, ParseCells(data, pos, types)) == Done(row)
  {
    assert row + [] == row;
  }

  /** The first cell of what is left of a row. */
  lemma CellFirst(data: seq<byte>, pos: nat, types: seq<FieldType>)
    requires types != []
    ensures ParseCells(data, pos, types) ==
            if pos >= |data| then Panicked
            else if data[pos] == 0xfb then Prepended([NullValue], ParseCells(data, pos + 1, types[1..]))
            else
              var cell := ReadCell(data, pos, types[0]);
              if cell.Done? then Prepended([cell.value.0], ParseCells(data, cell.value.1, types[1..]))
              else if cell.Failed? then Failed
              else Panicked
  {
    hide ReadCell;
  }

  method DrainResults(c: Conn) returns (g: Got<()>)
    requires c.policy == EphemeralUnused
    modifies c`unread, c`sequence, c`policy
    ensures Out(g, c.unread, c.sequence) == Drain(old(c.unread), old(c.sequence))
  {
    hide ReadPayload, ParseError;
    while true
      invariant Drain(c.unread, c.sequence) == Drain(old(c.unread), old(c.sequence)) && c.policy == EphemeralUnused
      decreases |c.unread|
    {
      ghost var u, s := c.unread, c.sequence;
      var p := c.ReadEphemeralPacket();
      if !p.Packet? {
        return Stop(ConnectionLost(p));
      }
      PayloadHasHead(u, s);
      c.RecycleReadPacket();
      if |p.data| == 0 {
        return Stop(Crash);
      }
      if IsEof(p.data) {
        return Got(());
      }
      if IsError(p.data) {
        return Stop(ServerError(ParseError(p.data)));
      }
    }
  }

  /** The columns of a result. */
  method ReadFields(c: Conn, n: nat, wantFields: bool) returns (g: Got<seq<Field>>)
    requires c.policy == EphemeralUnused
    modifies c`unread, c`sequence, c`policy
    ensures Out(g, c.unread, c.sequence) == ReadColumns(old(c.unread), old(c.sequence), n, wantFields, [])
    ensures g.Got? ==> c.policy == EphemeralUnused
  {
    hide ReadColumn;
    var fields: seq<Field> := [];
    var i := 0;
    while i < n
      invariant i <= n && c.policy == EphemeralUnused
      invariant ReadColumns(c.unread, c.sequence, n - i, wantFields, fields)
          == ReadColumns(old(c.unread), old(c.sequence), n, wantFields, [])
    {
      var f := ReadColumnDefinition(c, wantFields);
      if f.Stop? {
        return Stop(f.reply);
      }
      fields := fields + [f.value];
      i := i + 1;
    }
    return Got(fields);
  }

  /** The EOF packet after the columns. */
  method ReadEofMarker(c: Conn, deprecateEof: bool) returns (g: Got<()>)
    requires c.policy == EphemeralUnused
    modifies c`unread, c`sequence, c`policy
    ensures Out(g, c.unread, c.sequence) == ReadMarker(old(c.unread), old(c.sequence), deprecateEof)
    ensures g.Got? ==> c.policy == EphemeralUnused
  {
    hide ReadPayload, ParseError;
    if deprecateEof {
      return Got(());
    }
    var p := c.ReadEphemeralPacket();
    if !p.Packet? {
      return Stop(ConnectionLost(p));
    }
    PayloadHasHead(old(c.unread), old(c.sequence));
    c.RecycleReadPacket();
    if |p.data| == 0 {
      return Stop(Crash);
    }
    if IsEof(p.data) {
      return Got(());
    }
    if IsError(p.data) {
      return Stop(ServerError(ParseError(p.data)));
    }
    return Stop(UnexpectedPacket);
  }

  /** The row loop of ReadQueryResult. */
  method ReadResultRows(c: Conn, types: seq<FieldType>, deprecateEof: bool, maxRows: int)
      returns (g: Got<(seq<seq<Value>>, End)>)
    requires c.policy == EphemeralUnused
    modifies c`unread, c`sequence, c`policy
    ensures Out(g, c.unread, c.sequence) == ReadRows(old(c.unread), old(c.sequence), types, deprecateEof, maxRows, [])
    ensures g.Got? ==> c.policy == EphemeralUnused
  {
    hide ReadPayload, ParseCells, ParseEnd, ParseError, Drain;
    var rows: seq<seq<Value>> := [];
    while true
      invariant c.policy == EphemeralUnused
      invariant ReadRows(c.unread, c.sequence, types, deprecateEof, maxRows, rows)
             == ReadRows(old(c.unread), old(c.sequence), types, deprecateEof, maxRows, [])
      decreases |c.unread|
    {
      var p := c.ReadPacket();
      if !p.Packet? {
        return Stop(ConnectionLost(p));
      }
      var data := p.data;
      if |data| == 0 {
        return Stop(Crash);
      }
      if IsEof(data) {
        var end := ParseEnd(data, deprecateEof);
        return if end.None? then Stop(MalformedPacket) else Got((rows, end.value));
      } else if IsError(data) {
        return Stop(ServerError(ParseError(data)));
      }
      if |rows| == maxRows {
        var d := DrainResults(c);
        return Stop(if d.Got? then TooManyRows else d.reply);
      }
      var row := ParseRow(data, types);
      if row.Failed? {
        return Stop(MalformedPacket);
      }
      if row.Panicked? {
        return Stop(Crash);
      }
      rows := rows + [row.value];
    }
  }

  method ReadQueryResult(c: Conn, deprecateEof: bool, maxRows: int, wantFields: bool) returns (g: Got<Reply>)
    requires c.policy == EphemeralUnused
    modifies c`unread, c`sequence, c`policy
    ensures Out(g, c.unread, c.sequence) == Respond(old(c.unread), old(c.sequence), deprecateEof, maxRows, wantFields)
    ensures g.Got? ==> c.policy == EphemeralUnused
  {
    hide ReadResponse, ReadColumns, ReadMarker, ReadRows;
    var start := ReadComQueryResponse(c);
    if start.Stop? {
      return Stop(start.reply);
    }
    if start.value.NoRows? {
      return Got(Answered(start.value.ok));
    }
    var n := start.value.n;
    if n == 0 {
      return Got(Answer([], [], 0, 0, false, 0));
    }
    if n < 0 {
      return Stop(Crash);
    }
    var fields := ReadFields(c, n, wantFields);
    if fields.Stop? {
      return Stop(fields.reply);
    }
    var marker := ReadEofMarker(c, deprecateEof);
    if marker.Stop? {
      return Stop(marker.reply);
    }
    var rows := ReadResultRows(c, Types(fields.value), deprecateEof, maxRows);
    if rows.Stop? {
      return Stop(rows.reply);
    }
    return Got(Concluded(fields.value, rows.value.0, rows.value.1, wantFields));
  }
}
