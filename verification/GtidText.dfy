/** The text form of GTID sets and of replication positions
    (mysql/mysql56_gtid.go, mysql/mysql56_gtid_set.go, mysql/replication_position.go). */
module GtidText {
  import opened Prelude
  import opened Text
  import opened Mysql56GtidSet
  import opened SidOrder

  // ----------------------------------------------------------------- server ids

  /** `SID.String` */
  function SidString(sid: SID): string
    requires sid.Valid()
  {
    HexEncode(sid.bytes[..4]) + "-" + HexEncode(sid.bytes[4..6]) + "-" + HexEncode(sid.bytes[6..8]) + "-" +
    HexEncode(sid.bytes[8..10]) + "-" + HexEncode(sid.bytes[10..])
  }

  /** `ParseSID` */
  function ParseSid(s: string): Result<SID> {
    if |s| != 36 || s[8] != '-' || s[13] != '-' || s[18] != '-' || s[23] != '-' then Err
    else
      match HexDecode(s[..8] + s[9..13] + s[14..18] + s[19..23] + s[24..])
      case None => Err
      case Some(bytes) => Ok(SID(bytes))
  }

  lemma SidRoundTrip(sid: SID)
    requires sid.Valid()
    ensures ParseSid(SidString(sid)) == Ok(sid)
  {
    hide HexEncode, HexDecode;
    var s, b := SidString(sid), sid.bytes;
    var a0, a1, a2, a3, a4 := HexEncode(b[..4]), HexEncode(b[4..6]), HexEncode(b[6..8]), HexEncode(b[8..10]),
      HexEncode(b[10..]);
    assert s[..8] == a0 && s[9..13] == a1 && s[14..18] == a2 && s[19..23] == a3 && s[24..] == a4;
    HexEncodeAppend(b[..4], b[4..6]);
    HexEncodeAppend(b[..4] + b[4..6], b[6..8]);
    HexEncodeAppend(b[..4] + b[4..6] + b[6..8], b[8..10]);
    HexEncodeAppend(b[..4] + b[4..6] + b[6..8] + b[8..10], b[10..]);
    assert b == b[..4] + b[4..6] + b[6..8] + b[8..10] + b[10..];
    HexRoundTrip(b);
  }

  /** The hexadecimal digits of a text of 36 characters, without its four dashes, and digits with dashes put in. */
  function Joined(s: string): string
    requires |s| == 36
  {
    s[..8] + s[9..13] + s[14..18] + s[19..23] + s[24..]
  }

  function Dashed(digits: string): string
    requires |digits| == 32
  {
    digits[..8] + "-" + digits[8..12] + "-" + digits[12..16] + "-" + digits[16..20] + "-" + digits[20..]
  }

  predicate DashesOf(s: string)
    requires |s| == 36
  {
    s[8] == s[13] == s[18] == s[23] == '-'
  }

  lemma JoinedDashed(s: string, digits: string)
    requires |s| == 36 && |digits| == 32
    ensures s == Dashed(digits) <==> Joined(s) == digits && DashesOf(s)
  {
    DashedJoined(digits);
    if Joined(s) == digits && DashesOf(s) {
      JoinedAgain(s);
    }
  }

  lemma DashedJoined(digits: string)
    requires |digits| == 32
    ensures Joined(Dashed(digits)) == digits && DashesOf(Dashed(digits))
  {
    var d := Dashed(digits);
    assert d[..8] == digits[..8] && d[9..13] == digits[8..12] && d[14..18] == digits[12..16];
    assert d[19..23] == digits[16..20] && d[24..] == digits[20..];
  }

  lemma JoinedAgain(s: string)
    requires |s| == 36 && DashesOf(s)
    ensures Dashed(Joined(s)) == s
  {
    var j := Joined(s);
    assert j[..8] == s[..8] && j[8..12] == s[9..13] && j[12..16] == s[14..18];
    assert j[16..20] == s[19..23] && j[20..] == s[24..];
    assert s == s[..8] + "-" + s[9..13] + "-" + s[14..18] + "-" + s[19..23] + "-" + s[24..];
  }

  lemma SidStringDashed(sid: SID)
    requires sid.Valid()
    ensures SidString(sid) == Dashed(HexEncode(sid.bytes)) && |SidString(sid)| == 36
  {
    hide HexEncode;
    var b := sid.bytes;
    HexEncodeAppend(b[..4], b[4..6]);
    HexEncodeAppend(b[..4] + b[4..6], b[6..8]);
    HexEncodeAppend(b[..4] + b[4..6] + b[6..8], b[8..10]);
    HexEncodeAppend(b[..4] + b[4..6] + b[6..8] + b[8..10], b[10..]);
    assert b == b[..4] + b[4..6] + b[6..8] + b[8..10] + b[10..];
    assert HexEncode(b) == Joined(SidString(sid));
    JoinedDashed(SidString(sid), HexEncode(b));
  }

  lemma LowerJoined(s: string)
    requires |s| == 36
    ensures LowerCase(Joined(s)) == Joined(LowerCase(s))
  {
    hide LowerHex;
  }

  /** A server id is read from its text in either case of the letters, and from nothing else. */
  lemma ParseSidIs(s: string, sid: SID)
    ensures ParseSid(s) == Ok(sid) <==> sid.Valid() && LowerCase(s) == SidString(sid)
  {
    hide HexEncode, HexDecode, SidString, Dashed, Joined, LowerCase;
    if sid.Valid() {
      SidStringDashed(sid);
    }
    if |s| == 36 {
      ParseSidJoined(s);
      DashKept(s);
      HexDecodeIs(Joined(s), sid.bytes);
      LowerJoined(s);
      if sid.Valid() {
        JoinedDashed(LowerCase(s), HexEncode(sid.bytes));
      }
    }
  }

  lemma ParseSidJoined(s: string)
    requires |s| == 36
    ensures ParseSid(s).Ok? <==> DashesOf(s) && HexDecode(Joined(s)).Some?
    ensures ParseSid(s).Ok? ==> ParseSid(s).value.Valid() && HexDecode(Joined(s)) == Some(ParseSid(s).value.bytes)
  {
    hide HexDecode;
    HexDecodeLength(Joined(s));
  }

  lemma DashKept(s: string)
    requires |s| == 36
    ensures DashesOf(LowerCase(s)) <==> DashesOf(s)
  {
    hide LowerHex;
    LowerDash(s[8]);
    LowerDash(s[13]);
    LowerDash(s[18]);
    LowerDash(s[23]);
  }

  lemma LowerDash(c: char)
    ensures LowerHex(c) == '-' <==> c == '-'
  {
  }

  predicate GtidChar(c: char) { IsDigit(c) || 'a' <= c <= 'f' || c == '-' }

  lemma SidStringChars(sid: SID)
    requires sid.Valid()
    ensures forall c :: c in SidString(sid) ==> GtidChar(c)
  {
    var b := sid.bytes;
    HexEncodeDigits(b[..4]);
    HexEncodeDigits(b[4..6]);
    HexEncodeDigits(b[6..8]);
    HexEncodeDigits(b[8..10]);
    HexEncodeDigits(b[10..]);
  }

  // ------------------------------------------------------------------ intervals

  function IntervalString(iv: Interval): string {
    if iv.end != iv.start then FormatInt(iv.start) + "-" + FormatInt(iv.end) else FormatInt(iv.start)
  }

  /** `parseInterval` */
  function ParseInterval(s: string): Result<Interval> {
    var parts := Split(s, '-');
    match ParseInt(parts[0])
    case None => Err
    case Some(start) =>
      if start < 1 then Err
      else if |parts| == 1 then Ok(Interval(start, start))
      else if |parts| == 2 then
        match ParseInt(parts[1]) { case None => Err case Some(end) => Ok(Interval(start, end)) }
      else Err
  }

  lemma IntervalTextRoundTrip(iv: Interval)
    requires 1 <= iv.start <= iv.end <= MAX_INT64
    ensures ParseInterval(IntervalString(iv)) == Ok(iv)
    ensures forall c :: c in IntervalString(iv) ==> GtidChar(c)
  {
    hide FormatInt, ParseInt, Split;
    var a, b := FormatInt(iv.start), FormatInt(iv.end);
    ParseIntFormat(iv.start);
    ParseIntFormat(iv.end);
    SplitWhole(a, '-');
    SplitWhole(b, '-');
    SplitFirst(a, '-', b);
  }

  /** An interval is one number, or two with a dash between; the first is at least one. */
  lemma ParseIntervalIs(a: string, b: string, c: string)
    requires '-' !in a && '-' !in b
    ensures ParseInt(a).None? || ParseInt(a).value < 1 ==>
              ParseInterval(a) == Err && ParseInterval(a + "-" + b) == Err
    ensures ParseInt(a).Some? && ParseInt(a).value >= 1 ==>
              && ParseInterval(a) == Ok(Interval(ParseInt(a).value, ParseInt(a).value))
              && (ParseInt(b).None? ==> ParseInterval(a + "-" + b) == Err)
              && (ParseInt(b).Some? ==>
                    ParseInterval(a + "-" + b) == Ok(Interval(ParseInt(a).value, ParseInt(b).value)))
    ensures ParseInterval(a + "-" + (b + "-" + c)) == Err
  {
    hide ParseInt, Split;
    SplitWhole(a, '-');
    SplitWhole(b, '-');
    SplitFirst(a, '-', b);
    SplitFirst(a, '-', b + "-" + c);
    SplitFirst(b, '-', c);
  }

  /** sort.Sort by start, modelled by insertion. */
  function InsertByStart(iv: Interval, ivs: seq<Interval>): seq<Interval> {
    if ivs == [] || iv.start < ivs[0].start then [iv] + ivs
    else [ivs[0]] + InsertByStart(iv, ivs[1..])
  }

  function SortByStart(ivs: seq<Interval>): seq<Interval> {
    if ivs == [] then [] else InsertByStart(ivs[|ivs| - 1], SortByStart(ivs[..|ivs| - 1]))
  }

  ghost predicate ByStart(ivs: seq<Interval>) {
    forall i, j :: 0 <= i < j < |ivs| ==> ivs[i].start <= ivs[j].start
  }

  lemma {:induction false} InsertHolds(iv: Interval, ivs: seq<Interval>)
    ensures multiset(InsertByStart(iv, ivs)) == multiset(ivs) + multiset{iv}
  {
    if ivs != [] && ivs[0].start <= iv.start {
      InsertHolds(iv, ivs[1..]);
      assert ivs == [ivs[0]] + ivs[1..];
    }
  }

  lemma {:induction false} InsertOrders(iv: Interval, ivs: seq<Interval>)
    requires ByStart(ivs)
    ensures ByStart(InsertByStart(iv, ivs))
  {
    if ivs != [] && ivs[0].start <= iv.start {
      InsertOrders(iv, ivs[1..]);
      var tail := InsertByStart(iv, ivs[1..]);
      forall j | 0 <= j < |tail| ensures ivs[0].start <= tail[j].start {
        InsertHolds(iv, ivs[1..]);
        assert tail[j] in multiset(tail);
      }
    }
  }

  /** The parsed intervals of a server are put in the order of their starts, none lost and none added. */
  lemma {:induction false} SortsByStart(ivs: seq<Interval>)
    ensures ByStart(SortByStart(ivs)) && multiset(SortByStart(ivs)) == multiset(ivs)
  {
    hide InsertByStart, ByStart;
    if ivs == [] {
      assert ByStart([]) by { ByStartEmpty(); }
    } else {
      var init, last := ivs[..|ivs| - 1], ivs[|ivs| - 1];
      SortsByStart(init);
      InsertHolds(last, SortByStart(init));
      InsertOrders(last, SortByStart(init));
      assert ivs == init + [last];
    }
  }

  lemma ByStartEmpty()
    ensures ByStart([])
  {
  }

  lemma {:induction false} InsertLargest(iv: Interval, ivs: seq<Interval>)
    requires forall i :: 0 <= i < |ivs| ==> ivs[i].start <= iv.start
    ensures InsertByStart(iv, ivs) == ivs + [iv]
  {
    if ivs != [] {
      InsertLargest(iv, ivs[1..]);
    }
  }

  lemma {:induction false} SortCanonical(ivs: seq<Interval>)
    requires CanonicalList(ivs)
    ensures SortByStart(ivs) == ivs
  {
    hide InsertByStart;
    if ivs != [] {
      var init, last := ivs[..|ivs| - 1], ivs[|ivs| - 1];
      SortCanonical(init);
      InsertLargest(last, init);
      assert ivs == init + [last];
    }
  }

  // ------------------------------------------------------------------- GTID sets

  function IntervalsString(ivs: seq<Interval>): string {
    if ivs == [] then "" else ":" + IntervalString(ivs[0]) + IntervalsString(ivs[1..])
  }

  /** uuid:interval[:interval]... */
  function ServerString(sid: SID, ivs: seq<Interval>): string
    requires sid.Valid()
  {
    SidString(sid) + IntervalsString(ivs)
  }

  ghost predicate ValidSids(s: GtidSet) {
    forall sid :: sid in s ==> sid.Valid()
  }

  function ServersString(s: GtidSet, sids: seq<SID>): string
    requires forall sid :: sid in sids ==> sid.Valid()
  {
    if sids == [] then ""
    else
      var first := ServerString(sids[0], IntervalsOf(s, sids[0]));
      if |sids| == 1 then first else first + "," + ServersString(s, sids[1..])
  }

  /** What `String` prints: the servers in order, separated by commas. */
  ghost function SetString(s: GtidSet): string
    requires ValidSids(s)
  {
    SortedEnumerates(s.Keys);
    ServersString(s, Sorted(s.Keys))
  }

  lemma {:induction false} IntervalsStringAppend(ivs: seq<Interval>, iv: Interval)
    ensures IntervalsString(ivs + [iv]) == IntervalsString(ivs) + ":" + IntervalString(iv)
  {
    hide IntervalString;
    if ivs != [] {
      assert (ivs + [iv])[1..] == ivs[1..] + [iv];
      IntervalsStringAppend(ivs[1..], iv);
    }
  }

  lemma {:induction false} ServersStringAppend(s: GtidSet, sids: seq<SID>, sid: SID)
    requires forall x :: x in sids + [sid] ==> x.Valid()
    ensures sid.Valid() && forall x :: x in sids ==> x.Valid()
    ensures ServersString(s, sids + [sid])
         == (if sids == [] then "" else ServersString(s, sids) + ",") + ServerString(sid, IntervalsOf(s, sid))
  {
    hide ServerString, IntervalsOf;
    assert sid in sids + [sid];
    assert forall x :: x in sids ==> x in sids + [sid];
    if sids != [] {
      assert (sids + [sid])[1..] == sids[1..] + [sid];
      ServersStringAppend(s, sids[1..], sid);
    }
  }

  lemma NoIntervals(ivs: seq<Interval>)
    ensures IntervalsString(ivs[..0]) == ""
  {
  }

  method PrintServer(sid: SID, ivs: seq<Interval>) returns (buf: string)
    requires sid.Valid()
    ensures buf == ServerString(sid, ivs)
  {
    hide SidString, FormatInt, IntervalsString;
    buf := SidString(sid);
    NoIntervals(ivs);
    for j := 0 to |ivs|
      invariant buf == SidString(sid) + IntervalsString(ivs[..j])
    {
      ghost var before := buf;
      buf := buf + ":" + FormatInt(ivs[j].start);
      if ivs[j].end != ivs[j].start {
        buf := buf + "-" + FormatInt(ivs[j].end);
      }
      assert buf == before + (":" + IntervalString(ivs[j]));
      assert ivs[..j + 1] == ivs[..j] + [ivs[j]];
      IntervalsStringAppend(ivs[..j], ivs[j]);
    }
    assert ivs[..|ivs|] == ivs;
  }

  /** `String` */
  method PrintSet(s: GtidSet) returns (buf: string)
    requires ValidSids(s)
    ensures buf == SetString(s)
  {
    hide ServerString, Sorted, Increasing;
    buf := "";
    var sids := Sids(s);
    SortedEnumerates(s.Keys);
    for i := 0 to |sids|
      invariant buf == ServersString(s, sids[..i])
    {
      if i != 0 {
        buf := buf + ",";
      }
      assert sids[..i + 1] == sids[..i] + [sids[i]];
      ServersStringAppend(s, sids[..i], sids[i]);
      var server := PrintServer(sids[i], IntervalsOf(s, sids[i]));
      buf := buf + server;
    }
    assert sids[..|sids|] == sids;
  }

  // -------------------------------------------------------------------- parsing

  /** The interval parts of one server, with empty intervals discarded. */
  function ParseIntervalParts(parts: seq<string>, acc: seq<Interval>): Result<seq<Interval>> {
    if parts == [] then Ok(acc)
    else
      match ParseInterval(parts[0])
      case Err => Err
      case Ok(iv) => ParseIntervalParts(parts[1..], if iv.end < iv.start then acc else acc + [iv])
  }

  function ParseServerParts(uuidSets: seq<string>, acc: GtidSet): Result<GtidSet> {
    if uuidSets == [] then Ok(acc)
    else
      var uuidSet := TrimSpace(uuidSets[0]);
      if uuidSet == "" then ParseServerParts(uuidSets[1..], acc)
      else
        var parts := Split(uuidSet, ':');
        if |parts| < 2 then Err
        else
          match ParseSid(parts[0])
          case Err => Err
          case Ok(sid) =>
            match ParseIntervalParts(parts[1..], [])
            case Err => Err
            case Ok(ivs) => ParseServerParts(uuidSets[1..], if ivs == [] then acc else acc[sid := SortByStart(ivs)])
  }

  function ParseSet(s: string): Result<GtidSet> {
    ParseServerParts(Split(s, ','), map[])
  }

  /** `parseMysql56GTIDSet` */
  method ParseGtidSet(s: string) returns (r: Result<GtidSet>)
    ensures r == ParseSet(s)
  {
    hide TrimSpace, Split, ParseSid, ParseInterval, SortByStart;
    var uuidSets, acc: GtidSet := Split(s, ','), map[];
    for i := 0 to |uuidSets|
      invariant ParseServerParts(uuidSets[i..], acc) == ParseSet(s)
    {
      assert uuidSets[i..][1..] == uuidSets[i + 1..];
      var uuidSet := TrimSpace(uuidSets[i]);
      if uuidSet == "" {
        continue;
      }
      var parts := Split(uuidSet, ':');
      if |parts| < 2 {
        return Err;
      }
      var sid := ParseSid(parts[0]);
      if sid.Err? {
        return Err;
      }
      var intervals: seq<Interval> := [];
      for j := 1 to |parts|
        invariant ParseIntervalParts(parts[j..], intervals) == ParseIntervalParts(parts[1..], [])
      {
        assert parts[j..][1..] == parts[j + 1..];
        var iv := ParseInterval(parts[j]);
        if iv.Err? {
          return Err;
        }
        if iv.value.end < iv.value.start {
          continue;
        }
        intervals := intervals + [iv.value];
      }
      if |intervals| == 0 {
        continue;
      }
      acc := acc[sid.value := SortByStart(intervals)];
    }
    return Ok(acc);
  }

  // ----------------------------------------------------------------- round trip

  function IntervalParts(ivs: seq<Interval>): seq<string> {
    if ivs == [] then [] else [IntervalString(ivs[0])] + IntervalParts(ivs[1..])
  }

  ghost predicate ValidIntervals(ivs: seq<Interval>) {
    forall i :: 0 <= i < |ivs| ==> 1 <= ivs[i].start <= ivs[i].end <= MAX_INT64
  }

  lemma {:induction false} SplitIntervals(head: string, ivs: seq<Interval>)
    requires ':' !in head && ValidIntervals(ivs)
    ensures Split(head + IntervalsString(ivs), ':') == [head] + IntervalParts(ivs)
    decreases |ivs|
  {
    hide IntervalString, Split, GtidChar;
    if ivs == [] {
      assert head + IntervalsString(ivs) == head;
      SplitWhole(head, ':');
    } else {
      var first, rest := IntervalString(ivs[0]), IntervalsString(ivs[1..]);
      NoColon(ivs[0]);
      assert head + IntervalsString(ivs) == head + ":" + (first + rest);
      SplitFirst(head, ':', first + rest);
      SplitIntervals(first, ivs[1..]);
    }
  }

  lemma NoColon(iv: Interval)
    requires 1 <= iv.start <= iv.end <= MAX_INT64
    ensures ':' !in IntervalString(iv)
  {
    IntervalTextRoundTrip(iv);
    assert !GtidChar(':');
  }

  lemma {:induction false} IntervalPartsRoundTrip(ivs: seq<Interval>, acc: seq<Interval>)
    requires ValidIntervals(ivs)
    ensures ParseIntervalParts(IntervalParts(ivs), acc) == Ok(acc + ivs)
  {
    hide IntervalString, ParseInterval, GtidChar;
    if ivs == [] {
      assert acc + ivs == acc;
    } else {
      IntervalTextRoundTrip(ivs[0]);
      assert IntervalParts(ivs)[1..] == IntervalParts(ivs[1..]);
      IntervalPartsRoundTrip(ivs[1..], acc + [ivs[0]]);
      assert acc + [ivs[0]] + ivs[1..] == acc + ivs;
    }
  }

  predicate TextChar(c: char) { GtidChar(c) || c == ':' }

  lemma {:induction false} IntervalsStringChars(ivs: seq<Interval>)
    requires ValidIntervals(ivs)
    ensures forall c :: c in IntervalsString(ivs) ==> TextChar(c)
  {
    hide IntervalString, GtidChar;
    if ivs != [] {
      IntervalTextRoundTrip(ivs[0]);
      IntervalsStringChars(ivs[1..]);
    }
  }

  /** A printed server survives trimming and the comma split. */
  lemma ServerStringChars(sid: SID, ivs: seq<Interval>)
    requires sid.Valid() && ValidIntervals(ivs)
    ensures var text := ServerString(sid, ivs);
            text != "" && ',' !in text && TrimSpace(text) == text
  {
    hide SidString, IntervalsString, ValidIntervals;
    SidStringChars(sid);
    IntervalsStringChars(ivs);
    var text := ServerString(sid, ivs);
    SidRoundTrip(sid);
    assert SidString(sid) != "";
    assert forall c :: c in text ==> TextChar(c);
    assert TextChar(text[0]) && TextChar(text[|text| - 1]);
  }

  lemma ServerTextParts(sid: SID, ivs: seq<Interval>)
    requires sid.Valid() && ivs != [] && ValidIntervals(ivs)
    ensures var parts := Split(ServerString(sid, ivs), ':');
            |parts| >= 2 && ParseSid(parts[0]) == Ok(sid) && ParseIntervalParts(parts[1..], []) == Ok(ivs)
  {
    hide SidString, ParseSid, Split, IntervalsString, ParseIntervalParts, ValidIntervals, IntervalString;
    assert ':' !in SidString(sid) by {
      SidStringChars(sid);
      assert !GtidChar(':');
    }
    SplitIntervals(SidString(sid), ivs);
    var parts := Split(ServerString(sid, ivs), ':');
    assert |IntervalParts(ivs)| >= 1;
    assert parts[0] == SidString(sid) && parts[1..] == IntervalParts(ivs);
    SidRoundTrip(sid);
    IntervalPartsRoundTrip(ivs, []);
    assert [] + ivs == ivs;
  }

  lemma ServerTextRoundTrip(sid: SID, ivs: seq<Interval>, rest: seq<string>, acc: GtidSet)
    requires sid.Valid() && ivs != [] && CanonicalList(ivs)
    ensures ParseServerParts([ServerString(sid, ivs)] + rest, acc) == ParseServerParts(rest, acc[sid := ivs])
  {
    assert ValidIntervals(ivs);
    hide CanonicalList, ValidIntervals, ServerString, TrimSpace, ParseSid, Split, ParseIntervalParts, SortByStart;
    ServerStringChars(sid, ivs);
    ServerTextParts(sid, ivs);
    SortCanonical(ivs);
    assert ([ServerString(sid, ivs)] + rest)[1..] == rest;
  }

  /** The servers printed in order are collected back one by one. */
  lemma {:induction false} ServersTextRoundTrip(s: GtidSet, sids: seq<SID>, acc: GtidSet)
    requires Canonical(s) && sids != [] && forall sid :: sid in sids ==> sid in s && sid.Valid()
    ensures ParseServerParts(Split(ServersString(s, sids), ','), acc) == Ok(Collect(s, sids, acc))
  {
    hide CanonicalList, ServerString, Split, TrimSpace, ParseSid, ParseIntervalParts, SortByStart;
    var sid := sids[0];
    assert sid in sids;
    var text := ServerString(sid, s[sid]);
    assert ',' !in text by {
      ListIntervalsValid(s[sid]);
      ServerStringChars(sid, s[sid]);
    }
    if |sids| == 1 {
      SplitWhole(text, ',');
      ServerTextRoundTrip(sid, s[sid], [], acc);
      assert [text] + [] == [text];
      assert Collect(s, sids[1..], acc[sid := s[sid]]) == acc[sid := s[sid]];
    } else {
      var rest := ServersString(s, sids[1..]);
      SplitFirst(text, ',', rest);
      ServerTextRoundTrip(sid, s[sid], Split(rest, ','), acc);
      ServersTextRoundTrip(s, sids[1..], acc[sid := s[sid]]);
    }
  }

  lemma ListIntervalsValid(ivs: seq<Interval>)
    requires CanonicalList(ivs)
    ensures ValidIntervals(ivs)
  {
  }

  /** Parsing what `String` prints gives the set back. */
  lemma TextRoundTrip(s: GtidSet)
    requires Canonical(s) && ValidSids(s)
    ensures ParseSet(SetString(s)) == Ok(s)
  {
    hide ServersString, Split, ParseServerParts, Collect, Canonical, Sorted;
    SortedEnumerates(s.Keys);
    var sids := Sorted(s.Keys);
    CollectAll(s, sids, map[]);
    if sids == [] {
      EmptyText(s);
      assert s == map[];
    } else {
      ServersTextRoundTrip(s, sids, map[]);
    }
  }

  lemma EmptyText(s: GtidSet)
    ensures ServersString(s, []) == "" && ParseSet("") == Ok(map[])
  {
    assert Split("", ',') == [""];
    assert TrimSpace("") == "";
    assert [""][1..] == [];
  }
}
