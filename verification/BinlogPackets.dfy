/** Event packets: the header and checksum around an event body (mysql/binlog_event_make.go) and their
    removal (mysql/binlog_event_mysql56.go, mysql/binlog_event_mariadb.go). */
module BinlogPackets {
  import opened Prelude
  import opened Bytes
  import opened Encoding
  import opened Slices

  datatype Format = Format(headerLength: byte, checksum: byte, headerSizes: seq<byte>)

  const ChecksumOff: byte := 0
  const ChecksumCrc32: byte := 1
  const ChecksumUndef: byte := 255

  const FormatDescription: byte := 15

  /** Where generated events claim to come from. */
  datatype FakeStream = FakeStream(serverId: nat, logPosition: nat, timestamp: nat) {
    predicate Proper() { serverId < 0x1_0000_0000 && logPosition < 0x1_0000_0000 && timestamp < 0x1_0000_0000 }
  }

  function Zeroes(n: nat): (bs: seq<byte>)
    ensures |bs| == n && forall i :: 0 <= i < n ==> bs[i] == 0
  {
    seq(n, _ => 0)
  }

  function ChecksumSize(f: Format, typ: byte): nat {
    if typ == FormatDescription || f.checksum == ChecksumCrc32 then 4 else 0
  }

  function Header(f: Format, s: FakeStream, typ: byte, flags: nat, length: nat): (h: seq<byte>)
    ensures |h| == if f.headerLength >= 19 then 19 else 13
  {
    Front(s, typ, length) + if f.headerLength >= 19 then LE(s.logPosition, W32) + LE(flags, W16) else []
  }

  function Front(s: FakeStream, typ: byte, length: nat): (h: seq<byte>)
    ensures |h| == 13
  {
    LE(s.timestamp, W32) + [typ] + LE(s.serverId, W32) + LE(length % 0x1_0000_0000, W32)
  }

  /** A packet: the header padded to its announced length, the body, and room for the checksum. */
  function Packet(f: Format, s: FakeStream, typ: byte, flags: nat, data: seq<byte>): seq<byte>
    requires f.headerLength >= 13
  {
    var h := Header(f, s, typ, flags, f.headerLength + |data| + ChecksumSize(f, typ));
    h + Zeroes(f.headerLength - |h|) + data + Zeroes(ChecksumSize(f, typ))
  }

  method WriteFront(result: array<byte>, s: FakeStream, typ: byte)
    requires result.Length >= 13 && s.Proper()
    modifies result
    ensures Wrote(old(result[..]), result[..], 0, Front(s, typ, result.Length))
  {
    hide LE;
    ghost var start := result[..];
    var pos := WriteUint32(result, 0, s.timestamp);
    ghost var now, all := result[..], LE(s.timestamp, W32);
    pos := WriteByte(result, pos, typ);
    WroteBoth(start, now, result[..], 0, all, [typ]);
    now, all := result[..], all + [typ];
    pos := WriteUint32(result, pos, s.serverId);
    WroteBoth(start, now, result[..], 0, all, LE(s.serverId, W32));
    now, all := result[..], all + LE(s.serverId, W32);
    pos := WriteUint32(result, pos, result.Length % 0x1_0000_0000);
    WroteBoth(start, now, result[..], 0, all, LE(result.Length % 0x1_0000_0000, W32));
  }

  method WriteHeader(result: array<byte>, f: Format, s: FakeStream, typ: byte, flags: nat)
    requires 13 <= f.headerLength as int <= result.Length && s.Proper() && flags < 0x1_0000
    modifies result
    ensures Wrote(old(result[..]), result[..], 0, Header(f, s, typ, flags, result.Length))
  {
    hide LE, Front;
    ghost var start := result[..];
    WriteFront(result, s, typ);
    ghost var now, all := result[..], Front(s, typ, result.Length);
    if f.headerLength >= 19 {
      var pos := WriteUint32(result, 13, s.logPosition);
      WroteBoth(start, now, result[..], 0, all, LE(s.logPosition, W32));
      now, all := result[..], all + LE(s.logPosition, W32);
      pos := WriteUint16(result, pos, flags);
      WroteBoth(start, now, result[..], 0, all, LE(flags, W16));
      assert all + LE(flags, W16) == Header(f, s, typ, flags, result.Length);
    } else {
      assert all + [] == all;
    }
  }

  method Packetize(f: Format, s: FakeStream, typ: byte, flags: nat, data: seq<byte>) returns (event: seq<byte>)
    requires f.headerLength >= 13 && s.Proper() && flags < 0x1_0000
    ensures event == Packet(f, s, typ, flags, data)
  {
    var length := f.headerLength + |data|;
    if typ == FormatDescription || f.checksum == ChecksumCrc32 {
      length := length + 4;
    }
    var result := new byte[length](_ => 0);
    ghost var start := result[..];
    WriteHeader(result, f, s, typ, flags);
    ghost var headed := result[..];
    var pos := WriteEofString(result, f.headerLength, data);
    event := result[..];
    hide Header, Wrote;
    Assembled(start, headed, event, Header(f, s, typ, flags, length), f.headerLength, data);
  }

  lemma Assembled(start: seq<byte>, headed: seq<byte>, event: seq<byte>, h: seq<byte>, n: nat, data: seq<byte>)
    requires start == Zeroes(|start|) && Wrote(start, headed, 0, h) && |h| <= n && Wrote(headed, event, n, data)
    ensures event == h + Zeroes(n - |h|) + data + Zeroes(|start| - n - |data|)
  {
    var end, total := n + |data|, |start|;
    forall i | 0 <= i < |h| ensures event[i] == h[i] {
      assert event[..n][i] == headed[..n][i] && headed[0..|h|][i] == h[i];
    }
    forall i | |h| <= i < n ensures event[i] == 0 {
      assert event[..n][i] == headed[..n][i] && headed[|h|..][i - |h|] == start[|h|..][i - |h|];
    }
    forall i | n <= i < end ensures event[i] == data[i - n] {
      assert event[n..end][i - n] == data[i - n];
    }
    forall i | end <= i < total ensures event[i] == 0 {
      assert event[end..][i - end] == headed[end..][i - end] && headed[|h|..][i - |h|] == start[|h|..][i - |h|];
    }
  }

  /** StripChecksum of a MySQL 5.6 event. */
  function StripMysql56(f: Format, event: Slice): Outcome<Slice> {
    if f.checksum == ChecksumOff || f.checksum == ChecksumUndef then Done(event)
    else if f.checksum == ChecksumCrc32 then StripFour(event)
    else Failed
  }

  /** StripChecksum of a MariaDB event, which takes any other algorithm to use four bytes. */
  function StripMariadb(f: Format, event: Slice): Outcome<Slice> {
    if f.checksum == ChecksumOff || f.checksum == ChecksumUndef then Done(event) else StripFour(event)
  }

  /** The checksum stays behind the length, within the capacity. */
  function StripFour(event: Slice): Outcome<Slice> {
    var n := |event.seen| - 4;
    if n < 0 then Panicked else Done(Slice(event.seen[..n], event.seen[n..] + event.spare))
  }

  /** Exactly the last four bytes are cut off, and they stay within the capacity; an event with fewer panics. */
  lemma StripsLastFour(body: seq<byte>, checksum: seq<byte>, spare: seq<byte>)
    requires |checksum| == 4
    ensures StripFour(Slice(body + checksum, spare)) == Done(Slice(body, checksum + spare))
    ensures |body| < 4 ==> StripFour(Slice(body, spare)) == Panicked
  {
    assert (body + checksum)[..|body|] == body && (body + checksum)[|body|..] == checksum;
  }

  /** The body of an event, after its header. */
  function BodyOf(f: Format, event: Slice): Outcome<Slice> {
    if |event.seen| < f.headerLength as int then Panicked else Done(Slice(event.seen[f.headerLength..], event.spare))
  }

  function StrippedBody(f: Format, stripped: Outcome<Slice>): Outcome<Slice> {
    if stripped.Done? then BodyOf(f, stripped.value) else stripped
  }

  /** The checksum algorithms that events are generated for: off, CRC32 and undefined. */
  predicate KnownChecksum(f: Format) { f.checksum in {0, 1, 255} }

  /** What a slice shows is `data`, whatever is spare. */
  predicate Shows(s: Outcome<Slice>, data: seq<byte>) { s.Done? && s.value.seen == data }

  /** A packetized and stripped body is the body exactly for the known checksum algorithms, for every event type but
      the format description, which is 15. */
  lemma PacketRoundTrip(f: Format, s: FakeStream, typ: byte, flags: nat, data: seq<byte>, spare: seq<byte>)
    requires f.headerLength >= 13 && typ != 15
    ensures var event := Slice(Packet(f, s, typ, flags, data), spare);
            && (Shows(StrippedBody(f, StripMysql56(f, event)), data) <==> KnownChecksum(f))
            && (Shows(StrippedBody(f, StripMariadb(f, event)), data) <==> KnownChecksum(f))
  {
    var n := ChecksumSize(f, typ);
    var h := Header(f, s, typ, flags, f.headerLength + |data| + n);
    var front := h + Zeroes(f.headerLength - |h|);
    var event := Packet(f, s, typ, flags, data);
    hide Header, Packet;
    assert event == front + data + Zeroes(n);
    assert event[..|event| - n] == front + data;
    assert (front + data)[f.headerLength..] == data;
    assert n == 0 ==> event[..|event| - n] == event;
    if !KnownChecksum(f) {
      var body := StrippedBody(f, StripFour(Slice(event, spare)));
      assert body.Done? ==> |body.value.seen| == |data| - 4;
    }
  }
}
