/** The server side of the result-set dialogue (mysql/query.go, mysql/conn.go): each packet is
    filled in place in the connection's buffer and written. */
module ResultServer {
  import opened Prelude
  import opened Bytes
  import opened Encoding
  import opened Framing
  import opened ResultPackets
  import opened QueryResult

  /** The state of a connection between packets. */
  datatype Wire = Wire(written: seq<byte>, sequence: byte, unread: seq<byte>)

  function State(c: Conn): Wire
    reads c
  {
    Wire(c.written, c.sequence, c.unread)
  }

  /** From one state to the next exactly these packets were sent, and nothing was read. */
  ghost predicate Sent(before: Wire, after: Wire, packets: seq<seq<byte>>) {
    after == Wire(before.written + AllFrames(packets, before.sequence), AllAfter(packets, before.sequence),
      before.unread)
  }

  lemma OneFrame(p: seq<byte>, sequence: byte)
    ensures AllFrames([p], sequence) == Frames(p, sequence) && AllAfter([p], sequence) == After(p, sequence)
  {
    assert [p][1..] == [];
  }

  method SendColumnCount(c: Conn, count: nat)
    requires c.policy == EphemeralUnused && count < U64
    modifies c
    ensures Sent(old(State(c)), State(c), [LenEncInt(count)]) && c.policy == EphemeralUnused
  {
    var data := c.StartEphemeralPacket(LenEncIntSize(count));
    ghost var before := data[..];
    var pos := WriteLenEncInt(data, 0, count);
    WroteAll(before, data[..], LenEncInt(count));
    OneFrame(LenEncInt(count), c.sequence);
    c.WriteEphemeralPacket();
  }

  method WriteEofPacket(c: Conn, flags: nat, warnings: nat)
    requires c.policy == EphemeralUnused && flags < 0x1_0000 && warnings < 0x1_0000
    modifies c
    ensures Sent(old(State(c)), State(c), [EofBytes(flags, warnings)]) && c.policy == EphemeralUnused
    ensures EofBytes(flags, warnings) == [254] + LE(warnings, 2) + LE(flags, 2)
  {
    hide LE;
    var data := c.StartEphemeralPacket(5);
    ghost var start := data[..];
    var pos := WriteByte(data, 0, EofPacket);
    ghost var first := data[..];
    pos := WriteUint16(data, pos, warnings);
    ghost var second := data[..];
    WroteBoth(start, first, second, 0, [EofPacket], LE(warnings, W16));
    pos := WriteUint16(data, pos, flags);
    WroteBoth(start, second, data[..], 0, [EofPacket] + LE(warnings, W16), LE(flags, W16));
    WroteAll(start, data[..], EofBytes(flags, warnings));
    OneFrame(EofBytes(flags, warnings), c.sequence);
    c.WriteEphemeralPacket();
  }

  /** writeOKPacket and writeOKPacketWithEOFHeader, which differ in the first byte. */
  method WriteOkPacket(c: Conn, header: byte, affectedRows: nat, lastInsertId: nat, flags: nat, warnings: nat)
    requires c.policy == EphemeralUnused && affectedRows < U64 && lastInsertId < U64 && flags < 0x1_0000
        && warnings < 0x1_0000
    modifies c
    ensures Sent(old(State(c)), State(c), [OkBytes(header, affectedRows, lastInsertId, flags, warnings)])
        && c.policy == EphemeralUnused
  {
    hide LE, LenEncInt;
    var data := c.StartEphemeralPacket(1 + LenEncIntSize(affectedRows) + LenEncIntSize(lastInsertId) + 2 + 2);
    ghost var start := data[..];
    var pos := WriteByte(data, 0, header);
    ghost var now, all := data[..], [header];
    pos := WriteLenEncInt(data, pos, affectedRows);
    WroteBoth(start, now, data[..], 0, all, LenEncInt(affectedRows));
    now, all := data[..], all + LenEncInt(affectedRows);
    pos := WriteLenEncInt(data, pos, lastInsertId);
    WroteBoth(start, now, data[..], 0, all, LenEncInt(lastInsertId));
    now, all := data[..], all + LenEncInt(lastInsertId);
    pos := WriteUint16(data, pos, flags);
    WroteBoth(start, now, data[..], 0, all, LE(flags, W16));
    now, all := data[..], all + LE(flags, W16);
    pos := WriteUint16(data, pos, warnings);
    WroteBoth(start, now, data[..], 0, all, LE(warnings, W16));
    WroteAll(start, data[..], OkBytes(header, affectedRows, lastInsertId, flags, warnings));
    OneFrame(OkBytes(header, affectedRows, lastInsertId, flags, warnings), c.sequence);
    c.WriteEphemeralPacket();
  }

  const UnknownState: seq<byte> := [0x48, 0x59, 0x30, 0x30, 0x30]

  /** An error packet; without a state the unknown one is sent, HY000. */
  method WriteErrorPacket(c: Conn, code: nat, sqlState: seq<byte>, message: seq<byte>)
    requires c.policy == EphemeralUnused && code < 0x1_0000 && |sqlState| in {0, 5}
    modifies c
    ensures Sent(old(State(c)), State(c),
        [ErrorBytes(code, if sqlState == [] then [72, 89, 48, 48, 48] else sqlState, message)])
    ensures c.policy == EphemeralUnused && ErrorBytes(code, [], message) == [255] + LE(code, 2) + [35] + message
  {
    assert ErrorBytes(code, [], message) == [255] + LE(code, 2) + [35] + message;
    hide LE;
    var state := if sqlState == [] then UnknownState else sqlState;
    var data := c.StartEphemeralPacket(1 + 2 + 1 + 5 + |message|);
    ghost var start := data[..];
    var pos := WriteByte(data, 0, ErrPacket);
    ghost var first, all := data[..], [ErrPacket] + LE(code, W16);
    pos := WriteUint16(data, pos, code);
    WroteBoth(start, first, data[..], 0, [ErrPacket], LE(code, W16));
    hide Wrote;
    pos := Append(data, pos, [0x23], start, all);
    pos := Append(data, pos, state, start, all + [0x23]);
    pos := Append(data, pos, message, start, all + [0x23] + state);
    WroteAll(start, data[..], ErrorBytes(code, state, message));
    OneFrame(ErrorBytes(code, state, message), c.sequence);
    c.WriteEphemeralPacket();
  }

  /** A string written after `all`, which fills the buffer up to `pos`. */
  method AppendString(data: array<byte>, pos: nat, value: seq<byte>, ghost start: seq<byte>, ghost all: seq<byte>)
      returns (next: nat)
    requires Wrote(start, data[..], 0, all) && pos == |all|
    requires pos + |LenEncString(value)| <= data.Length && |value| < U64
    modifies data
    ensures next == pos + |LenEncString(value)| && Wrote(start, data[..], 0, all + LenEncString(value))
  {
    next := WriteLenEncString(data, pos, value);
    WroteBoth(start, old(data[..]), data[..], 0, all, LenEncString(value));
  }

  /** The strings of a column definition. */
  method WriteNames(data: array<byte>, f: Field) returns (pos: nat)
    requires |Strings(Names(f))| <= data.Length && |Strings(Names(f))| < U64
    modifies data
    ensures pos == |Strings(Names(f))| && Wrote(old(data[..]), data[..], 0, Strings(Names(f)))
  {
    ghost var start, db, table := data[..], LenEncString(f.database), LenEncString(f.table);
    ghost var orgTable, name, orgName := LenEncString(f.orgTable), LenEncString(f.name), LenEncString(f.orgName);
    SixStrings(Names(f));
    hide *;
    pos := WriteLenEncString(data, 0, Def);
    ghost var all := LenEncString(Def);
    pos := AppendString(data, pos, f.database, start, all);
    pos := AppendString(data, pos, f.table, start, all + db);
    pos := AppendString(data, pos, f.orgTable, start, all + db + table);
    pos := AppendString(data, pos, f.name, start, all + db + table + orgTable);
    pos := AppendString(data, pos, f.orgName, start, all + db + table + orgTable + name);
  }

  lemma SixStrings(ss: seq<seq<byte>>)
    requires |ss| == 6
    ensures Strings(ss) == LenEncString(ss[0]) + LenEncString(ss[1]) + LenEncString(ss[2]) + LenEncString(ss[3])
        + LenEncString(ss[4]) + LenEncString(ss[5])
  {
    hide LenEncString;
    assert Strings(ss[6..]) == [];
    assert Strings(ss[5..]) == LenEncString(ss[5]) by { assert ss[5..][1..] == ss[6..]; }
    assert Strings(ss[4..]) == LenEncString(ss[4]) + LenEncString(ss[5]) by { assert ss[4..][1..] == ss[5..]; }
    assert Strings(ss[3..]) == LenEncString(ss[3]) + Strings(ss[4..]) by { assert ss[3..][1..] == ss[4..]; }
    assert Strings(ss[2..]) == LenEncString(ss[2]) + Strings(ss[3..]) by { assert ss[2..][1..] == ss[3..]; }
    assert Strings(ss[1..]) == LenEncString(ss[1]) + Strings(ss[2..]) by { assert ss[1..][1..] == ss[2..]; }
  }

  /** The fixed-size part of a column definition. */
  method WriteFixed(data: array<byte>, pos: nat, f: Field) returns (next: nat)
    requires ProperField(f) && pos + 12 <= data.Length
    modifies data
    ensures next == pos + 12 && Wrote(old(data[..]), data[..], pos, Fixed(f))
  {
    var (typ, flags) := TypeToMysql(f.typ);
    if f.flags != 0 {
      flags := f.flags % 0x1_0000;
    }
    assert typ == TypeToMysql(f.typ).0 && flags == SentFlags(f);
    hide LE, TypeToMysql, SentFlags;
    ghost var start := data[..];
    next := WriteUint16(data, pos, f.charset % 0x1_0000);
    ghost var now, all := data[..], LE(f.charset % 0x1_0000, W16);
    next := WriteUint32(data, next, f.columnLength);
    WroteBoth(start, now, data[..], pos, all, LE(f.columnLength, W32));
    now, all := data[..], all + LE(f.columnLength, W32);
    next := WriteByte(data, next, typ);
    WroteBoth(start, now, data[..], pos, all, [typ]);
    now, all := data[..], all + [typ];
    next := WriteUint16(data, next, flags);
    WroteBoth(start, now, data[..], pos, all, LE(flags, W16));
    now, all := data[..], all + LE(flags, W16);
    next := WriteTail(data, next, f.decimals % 0x100);
    WroteBoth(start, now, data[..], pos, all, [f.decimals % 0x100] + LE(0, W16));
    assert all + ([f.decimals % 0x100] + LE(0, W16)) == Fixed(f);
  }

  /** The decimals and the filler. */
  method WriteTail(data: array<byte>, pos: nat, decimals: byte) returns (next: nat)
    requires pos + 3 <= data.Length
    modifies data
    ensures next == pos + 3 && Wrote(old(data[..]), data[..], pos, [decimals] + LE(0, W16))
  {
    hide LE;
    next := WriteByte(data, pos, decimals);
    ghost var between := data[..];
    next := WriteUint16(data, next, 0);
    WroteBoth(old(data[..]), between, data[..], pos, [decimals], LE(0, W16));
  }

  method WriteColumnDefinition(c: Conn, f: Field)
    requires c.policy == EphemeralUnused && ProperField(f) && |ColumnDefinition(f)| <= MAX_INT64
    modifies c
    ensures Sent(old(State(c)), State(c), [ColumnDefinition(f)]) && c.policy == EphemeralUnused
    ensures Names(f)[0] == [100, 101, 102]
  {
    ghost var names, fixed := Strings(Names(f)), Fixed(f);
    assert Names(f)[0] == [100, 101, 102];
    DefinitionParts(f);
    hide LE, LenEncString, Strings, Fixed, ColumnDefinition, ProperField, AllFrames, AllAfter, Frames, After, Wrote,
      Sent, Names;
    var length :=
      |LenEncString(Def)| + |LenEncString(f.database)| + |LenEncString(f.table)| + |LenEncString(f.orgTable)|
      + |LenEncString(f.name)| + |LenEncString(f.orgName)| + 1 + 2 + 4 + 1 + 2 + 1 + 2;
    var data := c.StartEphemeralPacket(length);
    ghost var start := data[..];
    var pos := WriteNames(data, f);
    pos := Append(data, pos, [0x0c], start, names);
    ghost var now := data[..];
    pos := WriteFixed(data, pos, f);
    WroteBoth(start, now, data[..], 0, names + [0x0c], fixed);
    WroteAll(start, data[..], ColumnDefinition(f));
    OneFrame(ColumnDefinition(f), c.sequence);
    c.WriteEphemeralPacket();
    SentOne(old(State(c)), State(c), ColumnDefinition(f));
  }

  lemma SentOne(a: Wire, b: Wire, p: seq<byte>)
    requires b == Wire(a.written + Frames(p, a.sequence), After(p, a.sequence), a.unread)
    ensures Sent(a, b, [p])
  {
    OneFrame(p, a.sequence);
  }

  lemma DefinitionParts(f: Field)
    ensures Strings(Names(f)) + [0x0c] + Fixed(f) == ColumnDefinition(f)
        && |ColumnDefinition(f)| == |Strings(Names(f))| + 13
    ensures |Strings(Names(f))| == |LenEncString(Def)| + |LenEncString(f.database)| + |LenEncString(f.table)|
        + |LenEncString(f.orgTable)|
                                   + |LenEncString(f.name)| + |LenEncString(f.orgName)|
  {
    SixStrings(Names(f));
    hide LenEncString, Strings, Fixed;
  }

  lemma {:induction false} RowBytesAppend(row: seq<Value>, v: Value)
    ensures RowBytes(row + [v]) == RowBytes(row) + CellBytes(v)
  {
    if row != [] {
      assert (row + [v])[1..] == row[1..] + [v];
      RowBytesAppend(row[1..], v);
    }
  }

  /** The size of a row packet, added up before the packet is built. */
  method RowLength(row: seq<Value>) returns (length: nat)
    ensures length == |RowBytes(row)|
  {
    hide RowBytes;
    length := 0;
    RowBytesNone(row);
    for i := 0 to |row|
      invariant length == |RowBytes(row[..i])|
    {
      RowBytesAppend(row[..i], row[i]);
      assert row[..i + 1] == row[..i] + [row[i]];
      if row[i].IsNull() {
        length := length + 1;
      } else {
        length := length + LenEncIntSize(|row[i].val|) + |row[i].val|;
      }
    }
    assert row[..|row|] == row;
  }

  lemma RowBytesNone(row: seq<Value>)
    ensures RowBytes(row[..0]) == []
  {
  }

  method WriteCell(data: array<byte>, pos: nat, v: Value) returns (next: nat)
    requires pos + |CellBytes(v)| <= data.Length && |CellBytes(v)| < U64
    modifies data
    ensures next == pos + |CellBytes(v)| && Wrote(old(data[..]), data[..], pos, CellBytes(v))
  {
    if v.IsNull() {
      next := WriteByte(data, pos, 0xfb);
    } else {
      next := WriteLenEncInt(data, pos, |v.val|);
      ghost var between := data[..];
      next := WriteEofString(data, next, v.val);
      WroteBoth(old(data[..]), between, data[..], pos, LenEncInt(|v.val|), v.val);
    }
  }

  lemma RowBytesUpTo(row: seq<Value>, i: nat)
    requires i < |row|
    ensures RowBytes(row[..i + 1]) == RowBytes(row[..i]) + CellBytes(row[i])
    ensures |RowBytes(row[..i])| + |CellBytes(row[i])| <= |RowBytes(row)|
  {
    hide RowBytes, CellBytes;
    RowBytesAppend(row[..i], row[i]);
    assert row[..i + 1] == row[..i] + [row[i]];
    RowBytesConcat(row[..i + 1], row[i + 1..]);
    assert row[..i + 1] + row[i + 1..] == row;
  }

  lemma {:induction false} RowBytesConcat(a: seq<Value>, b: seq<Value>)
    ensures RowBytes(a + b) == RowBytes(a) + RowBytes(b)
  {
    if a == [] {
      assert a + b == b;
    } else {
      assert (a + b)[1..] == a[1..] + b;
      RowBytesConcat(a[1..], b);
    }
  }

  method WriteRow(c: Conn, row: seq<Value>)
    requires c.policy == EphemeralUnused && |RowBytes(row)| <= MAX_INT64
    modifies c
    ensures Sent(old(State(c)), State(c), [RowBytes(row)]) && c.policy == EphemeralUnused
  {
    hide RowBytes, CellBytes, AllFrames, AllAfter, Frames, After;
    var length := RowLength(row);
    var data := c.StartEphemeralPacket(length);
    ghost var start := data[..];
    var pos := 0;
    EmptyRow(start);
    for i := 0 to |row|
      invariant pos == |RowBytes(row[..i])| && Wrote(start, data[..], 0, RowBytes(row[..i]))
      invariant fresh(data) && c.buffer == data && c.policy == EphemeralWrite
      invariant c.written == old(c.written) && c.sequence == old(c.sequence) && c.unread == old(c.unread)
    {
      RowBytesUpTo(row, i);
      ghost var now := data[..];
      pos := WriteCell(data, pos, row[i]);
      WroteBoth(start, now, data[..], 0, RowBytes(row[..i]), CellBytes(row[i]));
    }
    assert row[..|row|] == row;
    WroteAll(start, data[..], RowBytes(row));
    OneFrame(RowBytes(row), c.sequence);
    c.WriteEphemeralPacket();
  }

  lemma EmptyRow(start: seq<byte>)
    ensures forall row: seq<Value> :: RowBytes(row[..0]) == [] && Wrote(start, start, 0, RowBytes(row[..0]))
  {
  }

  // Sequences of packets.

  lemma SentMore(a: Wire, b: Wire, c: Wire, ps: seq<seq<byte>>, qs: seq<seq<byte>>)
    requires Sent(a, b, ps) && Sent(b, c, qs)
    ensures Sent(a, c, ps + qs)
  {
    AllFramesAppend(ps, qs, a.sequence);
    hide AllFrames, AllAfter;
    assert a.written + AllFrames(ps, a.sequence) + AllFrames(qs, b.sequence) == a.written
      + (AllFrames(ps, a.sequence) + AllFrames(qs, b.sequence));
  }

  lemma SentNone(a: Wire)
    ensures Sent(a, a, [])
  {
  }

  lemma {:induction false} ColumnPacketsUpTo(fields: seq<Field>, i: nat)
    requires i < |fields|
    ensures |ColumnPackets(fields)| == |fields|
        && ColumnPackets(fields)[..i + 1] == ColumnPackets(fields)[..i] + [ColumnDefinition(fields[i])]
  {
    hide ColumnDefinition;
    if i > 0 {
      ColumnPacketsUpTo(fields[1..], i - 1);
    } else if |fields| > 1 {
      ColumnPacketsUpTo(fields[1..], 0);
    }
  }

  lemma {:induction false} RowPacketsUpTo(rows: seq<seq<Value>>, i: nat)
    requires i < |rows|
    ensures |RowPackets(rows)| == |rows| && RowPackets(rows)[..i + 1] == RowPackets(rows)[..i] + [RowBytes(rows[i])]
  {
    hide ResultPackets.RowBytes;
    if i > 0 {
      RowPacketsUpTo(rows[1..], i - 1);
    } else if |rows| > 1 {
      RowPacketsUpTo(rows[1..], 0);
    }
  }

  lemma {:induction false} RowPacketsLength(rows: seq<seq<Value>>)
    ensures |RowPackets(rows)| == |rows|
  {
    if rows != [] {
      RowPacketsLength(rows[1..]);
    }
  }

  lemma {:induction false} ColumnPacketsLength(fields: seq<Field>)
    ensures |ColumnPackets(fields)| == |fields|
  {
    if fields != [] {
      ColumnPacketsLength(fields[1..]);
    }
  }

  method WriteRows(c: Conn, rows: seq<seq<Value>>)
    requires c.policy == EphemeralUnused && forall i :: 0 <= i < |rows| ==> |RowBytes(rows[i])| <= MAX_INT64
    modifies c
    ensures Sent(old(State(c)), State(c), RowPackets(rows)) && c.policy == EphemeralUnused
  {
    hide *;
    ghost var ps := RowPackets(rows);
    RowPacketsLength(rows);
    SentNone(State(c));
    assert ps[..0] == [];
    for i := 0 to |rows|
      invariant Sent(old(State(c)), State(c), ps[..i]) && c.policy == EphemeralUnused
    {
      ghost var now := State(c);
      WriteRow(c, rows[i]);
      RowPacketsUpTo(rows, i);
      SentMore(old(State(c)), now, State(c), ps[..i], [RowBytes(rows[i])]);
    }
    assert ps[..|rows|] == ps;
  }

  method WriteColumns(c: Conn, fields: seq<Field>)
    requires c.policy == EphemeralUnused
    requires forall i :: 0 <= i < |fields| ==> ProperField(fields[i]) && |ColumnDefinition(fields[i])| <= MAX_INT64
    modifies c
    ensures Sent(old(State(c)), State(c), ColumnPackets(fields)) && c.policy == EphemeralUnused
  {
    hide *;
    ghost var ps := ColumnPackets(fields);
    ColumnPacketsLength(fields);
    SentNone(State(c));
    assert ps[..0] == [];
    for i := 0 to |fields|
      invariant Sent(old(State(c)), State(c), ps[..i]) && c.policy == EphemeralUnused
    {
      ghost var now := State(c);
      WriteColumnDefinition(c, fields[i]);
      ColumnPacketsUpTo(fields, i);
      SentMore(old(State(c)), now, State(c), ps[..i], [ColumnDefinition(fields[i])]);
    }
    assert ps[..|fields|] == ps;
  }

  method WriteFields(c: Conn, fields: seq<Field>, deprecateEof: bool, status: nat)
    requires c.policy == EphemeralUnused && status < 0x1_0000 && |fields| <= MAX_INT64
    requires forall i :: 0 <= i < |fields| ==> ProperField(fields[i]) && |ColumnDefinition(fields[i])| <= MAX_INT64
    modifies c
    ensures Sent(old(State(c)), State(c), FieldPackets(fields, deprecateEof, status)) && c.policy == EphemeralUnused
  {
    ghost var first, columns, eof := [LenEncInt(|fields|)], ColumnPackets(fields), EofBytes(status, 0);
    assert FieldPackets(fields, deprecateEof, status) == first + columns + if deprecateEof then [] else [eof];
    hide ColumnPackets, ColumnDefinition, AllFrames, AllAfter, ProperField, EofBytes, LenEncInt, FieldPackets;
    SendColumnCount(c, |fields|);
    ghost var now := State(c);
    WriteColumns(c, fields);
    SentMore(old(State(c)), now, State(c), first, columns);
    if deprecateEof {
      assert first + columns + [] == first + columns;
    } else {
      now := State(c);
      WriteEofPacket(c, status, 0);
      SentMore(old(State(c)), now, State(c), first + columns, [eof]);
    }
  }

  method WriteEndResult(c: Conn, e: Ending)
    requires c.policy == EphemeralUnused && e.Proper()
    modifies c
    ensures Sent(old(State(c)), State(c), [e.Packet()]) && c.policy == EphemeralUnused
  {
    MoreFlag(e.status);
    var flags := WithMore(e.status, e.more);
    if e.deprecateEof {
      WriteOkPacket(c, EofPacket, e.affectedRows, e.lastInsertId, flags, e.warnings);
    } else {
      WriteEofPacket(c, flags, e.warnings);
    }
  }

  /** The three calls with which the server answers a query that returns rows. */
  method WriteResult(c: Conn, fields: seq<Field>, rows: seq<seq<Value>>, e: Ending)
    requires c.policy == EphemeralUnused && Sendable(fields, rows) && e.Proper()
    modifies c
    ensures Sent(old(State(c)), State(c), ResultSet(fields, rows, e)) && c.policy == EphemeralUnused
  {
    ghost var head, body, end := FieldPackets(fields, e.deprecateEof, e.status), RowPackets(rows), [e.Packet()];
    assert ResultSet(fields, rows, e) == head + (body + end) == head + body + end;
    hide FieldPackets, RowPackets, ColumnDefinition, RowBytes, AllFrames, AllAfter, ProperField, Ending.Packet,
      ResultSet;
    WriteFields(c, fields, e.deprecateEof, e.status);
    ghost var now := State(c);
    WriteRows(c, rows);
    SentMore(old(State(c)), now, State(c), head, body);
    now := State(c);
    WriteEndResult(c, e);
    SentMore(old(State(c)), now, State(c), head + body, end);
  }
}
