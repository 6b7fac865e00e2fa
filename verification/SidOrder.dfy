/** The sorted list of the servers in a GTID set (`SIDs` of mysql/mysql56_gtid_set.go). */
module SidOrder {
  import opened Bytes
  import opened Mysql56GtidSet

  ghost predicate Increasing(sids: seq<SID>) {
    forall i, j :: 0 <= i < j < |sids| ==> Less(sids[i].bytes, sids[j].bytes)
  }

  function InsertSid(x: SID, sids: seq<SID>): seq<SID> {
    if sids == [] || Less(x.bytes, sids[0].bytes) then [x] + sids
    else [sids[0]] + InsertSid(x, sids[1..])
  }

  lemma {:induction false} InsertSidIncreasing(x: SID, sids: seq<SID>)
    requires Increasing(sids) && x !in sids
    ensures Increasing(InsertSid(x, sids))
    ensures forall y :: y in InsertSid(x, sids) <==> y == x || y in sids
  {
    if sids == [] {
    } else if Less(x.bytes, sids[0].bytes) {
      forall j | 0 < j < |sids| ensures Less(x.bytes, sids[j].bytes) {
        LessTransitive(x.bytes, sids[0].bytes, sids[j].bytes);
      }
    } else {
      var rest := InsertSid(x, sids[1..]);
      InsertSidIncreasing(x, sids[1..]);
      LessTrichotomy(x.bytes, sids[0].bytes);
      forall y | y in rest ensures Less(sids[0].bytes, y.bytes) {
        if y != x {
          var j :| 0 <= j < |sids[1..]| && sids[1..][j] == y;
          assert sids[j + 1] == y;
        }
      }
      forall j | 0 <= j < |rest| ensures Less(sids[0].bytes, rest[j].bytes) {
        assert rest[j] in rest;
      }
      assert sids == [sids[0]] + sids[1..];
    }
  }

  /** The increasing enumeration of a set of servers. */
  ghost function Sorted(keys: set<SID>): seq<SID> {
    if keys == {} then []
    else
      var x :| x in keys;
      InsertSid(x, Sorted(keys - {x}))
  }

  lemma {:induction false} SortedEnumerates(keys: set<SID>)
    ensures Increasing(Sorted(keys))
    ensures forall y :: y in Sorted(keys) <==> y in keys
  {
    if keys != {} {
      var x :| x in keys && Sorted(keys) == InsertSid(x, Sorted(keys - {x}));
      SortedEnumerates(keys - {x});
      InsertSidIncreasing(x, Sorted(keys - {x}));
    }
  }

  /** Only one increasing list has given elements. */
  lemma {:induction false} IncreasingUnique(a: seq<SID>, b: seq<SID>)
    requires Increasing(a) && Increasing(b)
    requires forall y :: y in a <==> y in b
    ensures a == b
  {
    assert a == [] <==> forall y :: y !in a by { if a != [] { assert a[0] in a; } }
    assert b == [] <==> forall y :: y !in b by { if b != [] { assert b[0] in b; } }
    if a != [] {
      SmallestFirst(a, b);
      forall y ensures y in a[1..] <==> y in b[1..] {
        InTail(a, y);
        InTail(b, y);
      }
      IncreasingUnique(a[1..], b[1..]);
      assert a == [a[0]] + a[1..] && b == [b[0]] + b[1..];
    }
  }

  lemma SmallestFirst(a: seq<SID>, b: seq<SID>)
    requires Increasing(a) && Increasing(b) && a != [] && b != []
    requires a[0] in b && b[0] in a
    ensures a[0] == b[0]
  {
    if a[0] != b[0] {
      LessTrichotomy(a[0].bytes, b[0].bytes);
    }
  }

  lemma InTail(a: seq<SID>, y: SID)
    requires Increasing(a) && a != []
    ensures y in a[1..] <==> y in a && y != a[0]
  {
    if y in a[1..] {
      var j :| 0 <= j < |a[1..]| && a[1..][j] == y;
      assert a[j + 1] == y;
      LessTrichotomy(a[0].bytes, y.bytes);
    }
    assert a == [a[0]] + a[1..];
  }

  /** `SIDs`: the servers in increasing order (sort.Sort is modelled by insertion). */
  method Sids(s: GtidSet) returns (sids: seq<SID>)
    ensures sids == Sorted(s.Keys)
  {
    sids := [];
    var todo := s.Keys;
    while todo != {}
      invariant todo <= s.Keys
      invariant Increasing(sids) && forall y :: y in sids <==> y in s && y !in todo
      decreases todo
    {
      var sid :| sid in todo;
      InsertSidIncreasing(sid, sids);
      sids, todo := InsertSid(sid, sids), todo - {sid};
    }
    SortedEnumerates(s.Keys);
    IncreasingUnique(sids, Sorted(s.Keys));
  }

  /** Collecting the lists of the servers in `sids` on top of `acc`, as both decoders do. */
  ghost function Collect(s: GtidSet, sids: seq<SID>, acc: GtidSet): GtidSet {
    if sids == [] then acc else Collect(s, sids[1..], acc[sids[0] := IntervalsOf(s, sids[0])])
  }

  lemma {:induction false} CollectAll(s: GtidSet, sids: seq<SID>, acc: GtidSet)
    requires forall sid :: sid in s <==> sid in sids || sid in acc
    requires forall sid :: sid in acc ==> acc[sid] == s[sid]
    ensures Collect(s, sids, acc) == s
  {
    if sids == [] {
      assert acc == s;
    } else {
      assert sids == [sids[0]] + sids[1..];
      CollectAll(s, sids[1..], acc[sids[0] := IntervalsOf(s, sids[0])]);
    }
  }
}
