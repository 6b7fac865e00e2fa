/** The binary codec of GTID sets, the "SID block" (mysql/mysql56_gtid_set.go). */
module GtidBinary {
  import opened Prelude
  import opened Bytes
  import opened Mysql56GtidSet
  import opened SidOrder

  /** MySQL stores the end of an interval plus one. */
  function EncodeIntervals(ivs: seq<Interval>): seq<byte>
  {
    if ivs == [] then []
    else PutInt64(ivs[0].start) + PutInt64(ivs[0].end + 1) + EncodeIntervals(ivs[1..])
  }

  ghost predicate Encodable(s: GtidSet) {
    && Canonical(s)
    && |s| <= MAX_INT64
    && forall sid :: sid in s ==> sid.Valid()
  }

  function EncodeServer(sid: SID, ivs: seq<Interval>): seq<byte>
  {
    sid.bytes + PutInt64(|ivs|) + EncodeIntervals(ivs)
  }

  function EncodeServers(s: GtidSet, sids: seq<SID>): seq<byte> {
    if sids == [] then [] else EncodeServer(sids[0], IntervalsOf(s, sids[0])) + EncodeServers(s, sids[1..])
  }

  ghost function EncodeBlock(s: GtidSet): seq<byte> {
    PutInt64(|s|) + EncodeServers(s, Sorted(s.Keys))
  }

  lemma {:induction false} EncodeIntervalsAppend(ivs: seq<Interval>, iv: Interval)
    ensures EncodeIntervals(ivs + [iv]) == EncodeIntervals(ivs) + PutInt64(iv.start) + PutInt64(iv.end + 1)
  {
    hide PutInt64, ToInt64, FromLE;
    if ivs != [] {
      assert (ivs + [iv])[1..] == ivs[1..] + [iv];
      EncodeIntervalsAppend(ivs[1..], iv);
    }
  }

  lemma {:induction false} EncodeServersAppend(s: GtidSet, sids: seq<SID>, sid: SID)
    ensures EncodeServers(s, sids + [sid]) == EncodeServers(s, sids) + EncodeServer(sid, IntervalsOf(s, sid))
  {
    hide EncodeServer, IntervalsOf;
    if sids != [] {
      assert (sids + [sid])[1..] == sids[1..] + [sid];
      EncodeServersAppend(s, sids[1..], sid);
    }
  }

  method WriteServer(sid: SID, ivs: seq<Interval>) returns (buf: seq<byte>)
    ensures buf == EncodeServer(sid, ivs)
  {
    hide PutInt64;
    buf := sid.bytes + PutInt64(|ivs|);
    ghost var head := buf;
    for j := 0 to |ivs|
      invariant buf == head + EncodeIntervals(ivs[..j])
    {
      buf := buf + PutInt64(ivs[j].start) + PutInt64(ivs[j].end + 1);
      assert ivs[..j + 1] == ivs[..j] + [ivs[j]];
      EncodeIntervalsAppend(ivs[..j], ivs[j]);
    }
    assert ivs[..|ivs|] == ivs;
  }

  /** `SIDBlock` */
  method SidBlock(s: GtidSet) returns (buf: seq<byte>)
    ensures buf == EncodeBlock(s)
  {
    hide PutInt64, EncodeServer;
    buf := PutInt64(|s|);
    var sids := Sids(s);
    for i := 0 to |sids|
      invariant buf == PutInt64(|s|) + EncodeServers(s, sids[..i])
    {
      var server := WriteServer(sids[i], IntervalsOf(s, sids[i]));
      buf := buf + server;
      assert sids[..i + 1] == sids[..i] + [sids[i]];
      EncodeServersAppend(s, sids[..i], sids[i]);
    }
    assert sids[..|sids|] == sids;
  }

  // -------------------------------------------------------------------- parsing

  /** What remains of the block after `n` more intervals were appended to `acc`. */
  function ParseIntervals(data: seq<byte>, n: nat, acc: seq<Interval>): Result<(seq<Interval>, seq<byte>)> {
    if n == 0 then Ok((acc, data))
    else if |data| < 16 then Err
    else
      var iv := Interval(ToInt64(FromLE(data[..8])), ToInt64(FromLE(data[8..16]) - 1));
      ParseIntervals(data[16..], n - 1, acc + [iv])
  }

  function ParseServers(data: seq<byte>, n: nat, s: GtidSet): Result<GtidSet>
    decreases n
  {
    if n == 0 then Ok(s)
    else if |data| < 24 then Err
    else
      var sid := SID(data[..16]);
      match ParseIntervals(data[24..], FromLE(data[16..24]), IntervalsOf(s, sid))
      case Err => Err
      case Ok((ivs, rest)) => ParseServers(rest, n - 1, if ivs == [] then s else s[sid := ivs])
  }

  function ParseBlock(data: seq<byte>): Result<GtidSet> {
    if |data| < 8 then Err else ParseServers(data[8..], FromLE(data[..8]), map[])
  }

  /** `NewMysql56GTIDSetFromSIDBlock` */
  method SetFromSidBlock(data: seq<byte>) returns (r: Result<GtidSet>)
    ensures r == ParseBlock(data)
  {
    hide PutInt64, ToInt64, FromLE;
    if |data| < 8 {
      return Err;
    }
    var nSids, buf := FromLE(data[..8]), data[8..];
    var s: GtidSet := map[];
    for i := 0 to nSids
      invariant ParseServers(buf, nSids - i, s) == ParseBlock(data)
    {
      if |buf| < 24 {
        return Err;
      }
      var sid, nIntervals := SID(buf[..16]), FromLE(buf[16..24]);
      ghost var s0, body := s, buf[24..];
      buf := buf[24..];
      for j := 0 to nIntervals
        invariant ParseIntervals(buf, nIntervals - j, IntervalsOf(s, sid))
            == ParseIntervals(body, nIntervals, IntervalsOf(s0, sid))
        invariant s == if IntervalsOf(s, sid) == [] then s0 else s0[sid := IntervalsOf(s, sid)]
      {
        if |buf| < 16 {
          return Err;
        }
        var start: int, end: int := FromLE(buf[..8]), FromLE(buf[8..16]);
        s := s[sid := IntervalsOf(s, sid) + [Interval(ToInt64(start), ToInt64(end - 1))]];
        buf := buf[16..];
      }
    }
    return Ok(s);
  }

  // ----------------------------------------------------------------- round trip

  lemma IntervalRoundTrip(iv: Interval)
    requires 1 <= iv.start <= iv.end <= MAX_INT64
    ensures ToInt64(FromLE(PutInt64(iv.start))) == iv.start
    ensures ToInt64(FromLE(PutInt64(iv.end + 1)) - 1) == iv.end
  {
    PutInt64RoundTrip(iv.start, 0);
    PutInt64RoundTrip(iv.end + 1, -1);
    hide PutInt64, FromLE;
  }

  lemma {:induction false} IntervalsRoundTrip(ivs: seq<Interval>, acc: seq<Interval>, rest: seq<byte>)
    requires forall iv :: iv in ivs ==> 1 <= iv.start <= iv.end <= MAX_INT64
    ensures ParseIntervals(EncodeIntervals(ivs) + rest, |ivs|, acc) == Ok((acc + ivs, rest))
  {
    hide PutInt64, ToInt64, FromLE;
    if ivs == [] {
      assert acc + ivs == acc && EncodeIntervals(ivs) + rest == rest;
    } else {
      var data := EncodeIntervals(ivs) + rest;
      IntervalRoundTrip(ivs[0]);
      assert data[..8] == PutInt64(ivs[0].start);
      assert data[8..16] == PutInt64(ivs[0].end + 1);
      assert data[16..] == EncodeIntervals(ivs[1..]) + rest;
      IntervalsRoundTrip(ivs[1..], acc + [ivs[0]], rest);
      assert acc + [ivs[0]] + ivs[1..] == acc + ivs;
    }
  }

  /** Disjoint intervals of positive numbers: the i-th one ends at i + 1 or later. */
  lemma {:induction false} IntervalAt(ivs: seq<Interval>, i: nat)
    requires CanonicalList(ivs) && i < |ivs|
    ensures i < ivs[i].end <= MAX_INT64
  {
    if i > 0 {
      IntervalAt(ivs, i - 1);
    }
  }

  lemma ServerRoundTrip(sid: SID, ivs: seq<Interval>, tail: seq<byte>, n: nat, acc: GtidSet)
    requires sid.Valid() && sid !in acc && ivs != [] && CanonicalList(ivs)
    ensures ParseServers(EncodeServer(sid, ivs) + tail, n + 1, acc) == ParseServers(tail, n, acc[sid := ivs])
  {
    hide PutInt64, ToInt64, FromLE, ParseIntervals, EncodeIntervals;
    var data := EncodeServer(sid, ivs) + tail;
    assert data[..16] == sid.bytes;
    assert data[16..24] == PutInt64(|ivs|);
    assert data[24..] == EncodeIntervals(ivs) + tail;
    IntervalAt(ivs, |ivs| - 1);
    PutInt64RoundTrip(|ivs|, 0);
    IntervalsRoundTrip(ivs, [], tail);
    assert [] + ivs == ivs;
  }

  lemma {:induction false} ServersRoundTrip(s: GtidSet, sids: seq<SID>, acc: GtidSet)
    requires Encodable(s) && Increasing(sids)
    requires forall sid :: sid in sids ==> sid in s && sid !in acc
    ensures ParseServers(EncodeServers(s, sids), |sids|, acc) == Ok(Collect(s, sids, acc))
  {
    hide CanonicalList, EncodeServer;
    if sids != [] {
      var sid := sids[0];
      assert sid in s && sid !in acc;
      ServerRoundTrip(sid, s[sid], EncodeServers(s, sids[1..]), |sids| - 1, acc);
      forall x | x in sids[1..] ensures x in s && x !in acc[sid := s[sid]] {
        InTail(sids, x);
      }
      ServersRoundTrip(s, sids[1..], acc[sid := s[sid]]);
    }
  }

  /** Parsing the block of a set gives the set back. */
  lemma BlockRoundTrip(s: GtidSet)
    requires Encodable(s)
    ensures ParseBlock(EncodeBlock(s)) == Ok(s)
  {
    hide PutInt64, FromLE, EncodeServers, ParseServers, Collect, Sorted, Increasing;
    var data, sids := EncodeBlock(s), Sorted(s.Keys);
    SortedEnumerates(s.Keys);
    EnumerationLength(sids, s.Keys);
    PutInt64RoundTrip(|s|, 0);
    assert data[..8] == PutInt64(|s|) && data[8..] == EncodeServers(s, sids);
    ServersRoundTrip(s, sids, map[]);
    CollectAll(s, sids, map[]);
  }

  lemma {:induction false} EnumerationLength(sids: seq<SID>, keys: set<SID>)
    requires Increasing(sids) && forall y :: y in sids <==> y in keys
    ensures |sids| == |keys|
  {
    if sids == [] {
      assert keys == {};
    } else {
      forall x { InTail(sids, x); }
      EnumerationLength(sids[1..], keys - {sids[0]});
    }
  }
}
