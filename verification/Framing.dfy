/** Packets on a connection (mysql/conn.go): a payload of any length is cut into chunks of at most
    MaxPacketSize bytes, each with a length and a sequence number, and put together again. */
module Framing {
  import opened Prelude
  import opened Bytes

  const MaxPacketSize: nat := 0xff_ffff

  // ------------------------------------------------------------------- specification

  function Header(length: nat, sequence: byte): (h: seq<byte>)
    ensures |h| == 4
  {
    LE(length, W24) + [sequence]
  }

  function Next(sequence: byte): byte { (sequence + 1) % 256 }

  /** The bytes of one payload: full chunks, then one shorter chunk, which may be empty. */
  function Frames(data: seq<byte>, sequence: byte): seq<byte>
    decreases |data|
  {
    if |data| < MaxPacketSize then Header(|data|, sequence) + data
    else Header(MaxPacketSize, sequence) + data[..MaxPacketSize] + Frames(data[MaxPacketSize..], Next(sequence))
  }

  /** The sequence number after a payload. */
  function After(data: seq<byte>, sequence: byte): byte
    decreases |data|
  {
    if |data| < MaxPacketSize then Next(sequence) else After(data[MaxPacketSize..], Next(sequence))
  }

  datatype Packet = Packet(data: seq<byte>) | EndOfStream | Truncated | WrongSequence

  /** What a read returns, the bytes left unread and the next expected sequence number. */
  datatype Read = Read(packet: Packet, rest: seq<byte>, sequence: byte)

  /** readHeaderFrom: the length of the next chunk. */
  function ReadHead(stream: seq<byte>, sequence: byte): (r: (Result<nat>, Read))
    ensures r.0.Ok? ==> r.0.value <= MaxPacketSize && |r.1.rest| + 4 == |stream|
    ensures r.0.Err? <==> !r.1.packet.Packet?
  {
    if stream == [] then (Err, Read(EndOfStream, [], sequence))
    else if |stream| < 4 then (Err, Read(Truncated, [], sequence))
    else if stream[3] != sequence then (Err, Read(WrongSequence, stream[4..], sequence))
    else
      Pow256Values();
      (Ok(FromLE(stream[..3])), Read(Packet([]), stream[4..], Next(sequence)))
  }

  /** The body of a chunk. */
  function ReadBody(r: Read, length: nat): (b: Read)
    ensures b.packet.Packet? ==> b.packet.data + b.rest == r.rest && |b.packet.data| == length
  {
    if length > |r.rest| then Read(Truncated, [], r.sequence)
    else Read(Packet(r.rest[..length]), r.rest[length..], r.sequence)
  }

  function ReadChunk(stream: seq<byte>, sequence: byte): (r: Read)
    ensures r.packet.Packet? ==>
              |r.packet.data| + |r.rest| + 4 == |stream| && |r.packet.data| <= MaxPacketSize
                && r.sequence == Next(sequence)
  {
    var (length, head) := ReadHead(stream, sequence);
    if length.Err? then head else ReadBody(head, length.value)
  }

  /** A whole payload: chunks up to the first one that is not full. */
  function ReadPayload(stream: seq<byte>, sequence: byte): (r: Read)
    ensures r.packet.Packet? ==> |r.packet.data| + |r.rest| + 4 <= |stream|
    decreases |stream|
  {
    var r := ReadChunk(stream, sequence);
    if r.packet.Packet? && |r.packet.data| == MaxPacketSize then
      Joined(r.packet.data, ReadPayload(r.rest, r.sequence))
    else r
  }

  /** A payload with an earlier part put before it. */
  function Joined(data: seq<byte>, r: Read): Read {
    if r.packet.Packet? then r.(packet := Packet(data + r.packet.data)) else r
  }

  /** A payload below 2^24 - 1 bytes is one frame: its length in three bytes, the sequence number and the payload; a
      longer one starts with a full frame of that many bytes and goes on with the next number. */
  lemma FrameLayout(data: seq<byte>, sequence: byte)
    ensures |data| < 16777215 ==> Frames(data, sequence) == LE(|data|, 3) + [sequence] + data
    ensures |data| >= 16777215 ==>
              Frames(data, sequence) == LE(16777215, 3) + [sequence] + data[..16777215]
                                        + Frames(data[16777215..], if sequence == 255 then 0 else sequence + 1)
  {
  }

  // ----------------------------------------------------------------------- round trip

  lemma ChunkRoundTrip(stream: seq<byte>, sequence: byte, data: seq<byte>, rest: seq<byte>)
    requires |data| <= MaxPacketSize
    ensures ReadChunk(stream, sequence) == Read(Packet(data), rest, Next(sequence))
       <==> stream == Header(|data|, sequence) + data + rest
  {
    Pow256Values();
    LERoundTrip(|data|, W24);
    if stream == Header(|data|, sequence) + data + rest {
      assert stream[..3] == LE(|data|, W24);
      assert stream[4..] == data + rest;
    }
    if ReadChunk(stream, sequence) == Read(Packet(data), rest, Next(sequence)) {
      FromLERoundTrip(stream[..3]);
      assert stream == stream[..3] + [stream[3]] + stream[4..];
      assert stream[4..] == data + rest;
    }
  }

  /** The framing is a bijection: a read returns `data` and leaves `rest` exactly when the stream is
      the frames of `data` followed by `rest`. */
  lemma {:induction false} FramesRoundTrip(stream: seq<byte>, sequence: byte, data: seq<byte>, rest: seq<byte>)
    ensures ReadPayload(stream, sequence) == Read(Packet(data), rest, After(data, sequence))
       <==> stream == Frames(data, sequence) + rest
    decreases |data|
  {
    hide Header, ReadChunk;
    var M := MaxPacketSize;
    if |data| < M {
      ChunkRoundTrip(stream, sequence, data, rest);
    } else {
      var r := ReadChunk(stream, sequence);
      var tail := Frames(data[M..], Next(sequence)) + rest;
      ChunkRoundTrip(stream, sequence, data[..M], tail);
      assert Frames(data, sequence) + rest == Header(M, sequence) + data[..M] + tail;
      FramesRoundTrip(r.rest, Next(sequence), data[M..], rest);
      assert data == data[..M] + data[M..];
      if r.packet.Packet? && |r.packet.data| == M {
        JoinedParts(r.packet.data, ReadPayload(r.rest, Next(sequence)), data);
      }
    }
  }

  lemma JoinedParts(first: seq<byte>, r: Read, data: seq<byte>)
    requires |first| <= |data|
    ensures Joined(first, r).packet == Packet(data) <==> first == data[..|first|] && r.packet == Packet(data[|first|..])
  {
    if Joined(first, r).packet == Packet(data) {
      assert data == first + r.packet.data;
    }
  }

  /** Sequence numbers count chunks modulo 256, on both sides. */
  lemma {:induction false} AfterCounts(data: seq<byte>, sequence: byte)
    ensures After(data, sequence) == (sequence + |data| / MaxPacketSize + 1) % 256
    decreases |data|
  {
    if |data| >= MaxPacketSize {
      AfterCounts(data[MaxPacketSize..], Next(sequence));
      assert |data| / MaxPacketSize == 1 + (|data| - MaxPacketSize) / MaxPacketSize;
    }
  }

  /** The bytes of a list of payloads written one after the other. */
  function AllFrames(payloads: seq<seq<byte>>, sequence: byte): seq<byte> {
    if payloads == [] then []
    else Frames(payloads[0], sequence) + AllFrames(payloads[1..], After(payloads[0], sequence))
  }

  function AllAfter(payloads: seq<seq<byte>>, sequence: byte): byte {
    if payloads == [] then sequence else AllAfter(payloads[1..], After(payloads[0], sequence))
  }

  /** `n` reads in a row; None as soon as one of them fails. */
  function ReadMany(stream: seq<byte>, sequence: byte, n: nat): Option<(seq<seq<byte>>, seq<byte>, byte)>
    decreases n
  {
    if n == 0 then Some(([], stream, sequence))
    else
      var r := ReadPayload(stream, sequence);
      if !r.packet.Packet? then None
      else
        match ReadMany(r.rest, r.sequence, n - 1)
        case None => None
        case Some((more, rest, next)) => Some(([r.packet.data] + more, rest, next))
  }

  /** Any list of payloads of any lengths is read back, what follows it is untouched, and reader and
      writer agree on the next sequence number. */
  lemma {:induction false} StreamRoundTrip(payloads: seq<seq<byte>>, sequence: byte, rest: seq<byte>)
    ensures ReadMany(AllFrames(payloads, sequence) + rest, sequence, |payloads|)
        == Some((payloads, rest, AllAfter(payloads, sequence)))
  {
    hide Frames, After, ReadPayload;
    if payloads == [] {
      assert AllFrames(payloads, sequence) + rest == rest;
    } else {
      var tail := AllFrames(payloads[1..], After(payloads[0], sequence)) + rest;
      assert AllFrames(payloads, sequence) + rest == Frames(payloads[0], sequence) + tail;
      FramesRoundTrip(Frames(payloads[0], sequence) + tail, sequence, payloads[0], tail);
      StreamRoundTrip(payloads[1..], After(payloads[0], sequence), rest);
      assert [payloads[0]] + payloads[1..] == payloads;
    }
  }

  lemma {:induction false} AllFramesAppend(ps: seq<seq<byte>>, qs: seq<seq<byte>>, sequence: byte)
    ensures AllAfter(ps + qs, sequence) == AllAfter(qs, AllAfter(ps, sequence))
    ensures AllFrames(ps + qs, sequence) == AllFrames(ps, sequence) + AllFrames(qs, AllAfter(ps, sequence))
  {
    if ps == [] {
      assert ps + qs == qs;
    } else {
      hide Frames, After;
      assert (ps + qs)[1..] == ps[1..] + qs;
      AllFramesAppend(ps[1..], qs, After(ps[0], sequence));
    }
  }

  // ----------------------------------------------------------------------- connection

  datatype Policy = EphemeralUnused | EphemeralWrite | EphemeralRead

  /** A connection: the bytes written so far, the bytes not yet read, and the buffer of the packet
      being written. */
  class Conn {
    var sequence: byte
    var written: seq<byte>
    var unread: seq<byte>
    var policy: Policy
    var buffer: array<byte>

    method ReadHeader() returns (length: Result<nat>, error: Packet)
      modifies this`unread, this`sequence
      ensures var (l, r) := ReadHead(old(unread), old(sequence));
              length == l && error == r.packet && unread == r.rest && sequence == r.sequence
    {
      if |unread| < 4 {
        error := if |unread| == 0 then EndOfStream else Truncated;
        unread := [];
        return Err, error;
      }
      var header := unread[..4];
      unread := unread[4..];
      if header[3] != sequence {
        return Err, WrongSequence;
      }
      sequence := Next(sequence);
      var b0: int, b1: int, b2: int := header[0], header[1], header[2];
      FromThree(header[..3]);
      assert header[..3] == old(unread)[..3];
      return Ok(b0 + 0x100 * b1 + 0x1_0000 * b2), Packet([]);
    }

    method ReadOnePacket() returns (p: Packet)
      modifies this`unread, this`sequence
      ensures Read(p, unread, sequence) == ReadChunk(old(unread), old(sequence))
    {
      var length, error := ReadHeader();
      if length.Err? {
        return error;
      }
      if |unread| < length.value {
        unread := [];
        return Truncated;
      }
      p := Packet(unread[..length.value]);
      unread := unread[length.value..];
    }

    /** The loop shared by readPacket and readEphemeralPacket after a first full chunk. */
    method ReadRemaining(first: seq<byte>) returns (p: Packet)
      modifies this`unread, this`sequence
      ensures Read(p, unread, sequence) == Joined(first, ReadPayload(old(unread), old(sequence)))
    {
      var data := first;
      while true
        invariant Joined(data, ReadPayload(unread, sequence)) == Joined(first, ReadPayload(old(unread), old(sequence)))
        decreases |unread|
      {
        ghost var before := Read(Packet(data), unread, sequence);
        var next := ReadOnePacket();
        if !next.Packet? {
          return next;
        }
        if next.data == [] {
          assert data + next.data == data;
          break;
        }
        assert forall r: Read :: r.packet.Packet? ==>
                 data + (next.data + r.packet.data) == data + next.data + r.packet.data;
        data := data + next.data;
        if |next.data| < MaxPacketSize {
          break;
        }
      }
      return Packet(data);
    }

    method ReadPacket() returns (p: Packet)
      modifies this`unread, this`sequence
      ensures Read(p, unread, sequence) == ReadPayload(old(unread), old(sequence))
    {
      p := ReadOnePacket();
      if p.Packet? && |p.data| >= MaxPacketSize {
        p := ReadRemaining(p.data);
      }
    }

    /** Returns the same payload as ReadPacket. The buffer stays claimed until RecycleReadPacket,
        unless the header could not be read. */
    method ReadEphemeralPacket() returns (p: Packet)
      requires policy == EphemeralUnused
      modifies this`unread, this`sequence, this`policy
      ensures Read(p, unread, sequence) == ReadPayload(old(unread), old(sequence))
      ensures policy == if ReadHead(old(unread), old(sequence)).0.Ok? then EphemeralRead else EphemeralUnused
    {
      var length, error := ReadHeader();
      if length.Err? {
        return error;
      }
      policy := EphemeralRead;
      if length.value == 0 {
        return Packet([]);
      }
      if |unread| < length.value {
        unread := [];
        return Truncated;
      }
      p := Packet(unread[..length.value]);
      unread := unread[length.value..];
      if length.value == MaxPacketSize {
        p := ReadRemaining(p.data);
      }
    }

    method RecycleReadPacket()
      requires policy == EphemeralRead
      modifies this`policy
      ensures policy == EphemeralUnused
    {
      policy := EphemeralUnused;
    }

    method WritePacket(data: seq<byte>)
      modifies this`written, this`sequence
      ensures written == old(written) + Frames(data, old(sequence)) && sequence == After(data, old(sequence))
    {
      hide Frames, After, LE;
      var index: nat, length: nat := 0, |data|;
      assert data[0..] == data;
      while true
        invariant index + length == |data|
        invariant old(written) + Frames(data, old(sequence)) == written + Frames(data[index..], sequence)
        invariant After(data, old(sequence)) == After(data[index..], sequence)
        decreases length
      {
        var packetLength: nat := if length > MaxPacketSize then MaxPacketSize else length;
        FramesCut(data[index..], packetLength, written, sequence);
        written := written + LE(packetLength, W24) + [sequence];
        written := written + data[index..index + packetLength];
        assert data[index..][..packetLength] == data[index..index + packetLength];
        assert data[index..][packetLength..] == data[index + packetLength..];
        sequence := Next(sequence);
        length := length - packetLength;
        if length == 0 {
          if packetLength == MaxPacketSize {
            FramesCut([], 0, written, sequence);
            assert data[index + packetLength..] == [];
            written := written + LE(0, W24) + [sequence];
            assert written + [][..0] == written;
            sequence := Next(sequence);
          }
          return;
        }
        index := index + packetLength;
      }
    }

    /** A buffer of exactly `length` bytes to fill in; its contents are whatever the pool left there. */
    method StartEphemeralPacket(length: nat) returns (data: array<byte>)
      requires policy == EphemeralUnused
      modifies this`policy, this`buffer
      ensures fresh(data) && data.Length == length && buffer == data && policy == EphemeralWrite
    {
      data := new byte[length];
      buffer := data;
      policy := EphemeralWrite;
    }

    method WriteEphemeralPacket()
      requires policy == EphemeralWrite
      modifies this`written, this`sequence, this`policy
      ensures written == old(written) + Frames(buffer[..], old(sequence))
          && sequence == After(buffer[..], old(sequence))
      ensures policy == EphemeralUnused
    {
      WritePacket(buffer[..]);
      policy := EphemeralUnused;
    }
  }

  /** Frames, cut after the first chunk, as the writer produces them. */
  lemma FramesCut(data: seq<byte>, n: nat, before: seq<byte>, sequence: byte)
    requires n == (if |data| > MaxPacketSize then MaxPacketSize else |data|)
    ensures var chunk := before + LE(n, W24) + [sequence] + data[..n];
            if n < MaxPacketSize then
              before + Frames(data, sequence) == chunk && After(data, sequence) == Next(sequence)
            else
              before + Frames(data, sequence) == chunk + Frames(data[n..], Next(sequence))
                && After(data, sequence) == After(data[n..], Next(sequence))
  {
    Unfold(data, sequence);
    hide LE, Frames, After, Next;
    if n < MaxPacketSize {
      assert data[..n] == data;
      Reassociate(before, LE(n, W24), [sequence], data[..n], []);
    } else {
      Reassociate(before, LE(n, W24), [sequence], data[..n], Frames(data[n..], Next(sequence)));
    }
  }

  lemma Unfold(data: seq<byte>, sequence: byte)
    ensures |data| < MaxPacketSize ==>
              Frames(data, sequence) == Header(|data|, sequence) + data && After(data, sequence) == Next(sequence)
    ensures |data| >= MaxPacketSize ==>
      && Frames(data, sequence) == Header(MaxPacketSize, sequence) + data[..MaxPacketSize]
        + Frames(data[MaxPacketSize..], Next(sequence))
      && After(data, sequence) == After(data[MaxPacketSize..], Next(sequence))
  {
  }

  lemma Reassociate(a: seq<byte>, b: seq<byte>, c: seq<byte>, d: seq<byte>, e: seq<byte>)
    ensures a + b + c + d + e == a + (b + c + d + e)
    ensures a + b + c + d == a + (b + c + d)
  {
  }

  lemma FromThree(bs: seq<byte>)
    requires |bs| == 3
    ensures FromLE(bs) == bs[0] as int + 0x100 * bs[1] as int + 0x1_0000 * bs[2] as int
  {
    assert FromLE(bs) == bs[0] + 256 * FromLE(bs[1..]);
    assert FromLE(bs[1..]) == bs[1] + 256 * FromLE(bs[1..][1..]);
    assert FromLE(bs[1..][1..]) == bs[2] + 256 * FromLE(bs[1..][1..][1..]);
  }
}
