/** MySQL 5.6 GTID sets (mysql/mysql56_gtid_set.go): for each server a list of
    intervals of transaction numbers.  Every operation on the interval lists is
    proved to agree with the plain set of transaction ids the lists denote. */
module Mysql56GtidSet {
  import opened Prelude

  /** The id of a server: 16 bytes. */
  datatype SID = SID(bytes: seq<byte>) {
    predicate Valid() { |bytes| == 16 }
  }

  /** A GTID is either a MySQL 5.6 one or one of another flavor. */
  datatype Gtid = Mysql56Gtid(server: SID, sequence: int) | ForeignGtid

  datatype Interval = Interval(start: int, end: int) {
    predicate Has(n: int) { start <= n <= end }
    predicate Contains(other: Interval) { start <= other.start && other.end <= end }
  }

  type GtidSet = map<SID, seq<Interval>>

  /** Positive 64-bit transaction numbers. */
  predicate ValidSequence(n: int) { 1 <= n <= MAX_INT64 }

  /** Non-empty intervals, in increasing order, no two overlapping or adjacent. */
  ghost predicate CanonicalList(ivs: seq<Interval>) {
    && (forall i :: 0 <= i < |ivs| ==> 1 <= ivs[i].start <= ivs[i].end <= MAX_INT64)
    && (forall i, j :: 0 <= i < j < |ivs| ==> ivs[i].end + 1 < ivs[j].start)
  }

  ghost predicate Canonical(s: GtidSet) {
    forall sid :: sid in s ==> s[sid] != [] && CanonicalList(s[sid])
  }

  ghost predicate InList(n: int, ivs: seq<Interval>) {
    exists i :: 0 <= i < |ivs| && ivs[i].Has(n)
  }

  /** The intervals of a server; a server that is not in the map has none. */
  function IntervalsOf(s: GtidSet, sid: SID): seq<Interval> {
    if sid in s then s[sid] else []
  }

  /** The set of transaction ids that an interval map stands for. */
  ghost function Denote(s: GtidSet): iset<Gtid> {
    iset g: Gtid | g.Mysql56Gtid? && InList(g.sequence, IntervalsOf(s, g.server))
  }

  // ---------------------------------------------------------------- membership

  method ContainsGtid(s: GtidSet, gtid: Gtid) returns (found: bool)
    requires Canonical(s)
    ensures found <==> gtid in Denote(s)
  {
    if gtid.ForeignGtid? {
      return false;
    }
    var ivs := IntervalsOf(s, gtid.server);
    for i := 0 to |ivs|
      invariant forall k :: 0 <= k < i ==> ivs[k].end < gtid.sequence
    {
      if ivs[i].start > gtid.sequence {
        return false;
      }
      if gtid.sequence <= ivs[i].end {
        assert ivs[i].Has(gtid.sequence);
        return true;
      }
    }
    return false;
  }

  // ------------------------------------------------------------------ insertion

  ghost predicate SameExcept(r: seq<Interval>, ivs: seq<Interval>, q: int) {
    forall n :: InList(n, r) <==> InList(n, ivs) || n == q
  }

  lemma InListAppend(n: int, ivs: seq<Interval>, iv: Interval)
    ensures InList(n, ivs + [iv]) <==> InList(n, ivs) || iv.Has(n)
  {
    var r := ivs + [iv];
    if InList(n, ivs) {
      var i :| 0 <= i < |ivs| && ivs[i].Has(n);
      assert r[i].Has(n);
    }
    if iv.Has(n) {
      assert r[|ivs|].Has(n);
    }
  }

  lemma InListPrefix(n: int, ivs: seq<Interval>, i: nat)
    requires i < |ivs|
    ensures InList(n, ivs[..i + 1]) <==> InList(n, ivs[..i]) || ivs[i].Has(n)
  {
    assert ivs[..i + 1] == ivs[..i] + [ivs[i]];
    InListAppend(n, ivs[..i], ivs[i]);
  }

  /** Membership of a list whose last interval is replaced by a longer one. */
  lemma InListLast(n: int, ivs: seq<Interval>)
    requires ivs != []
    ensures InList(n, ivs) <==> InList(n, ivs[..|ivs| - 1]) || ivs[|ivs| - 1].Has(n)
  {
    assert ivs == ivs[..|ivs| - 1] + [ivs[|ivs| - 1]];
    InListAppend(n, ivs[..|ivs| - 1], ivs[|ivs| - 1]);
  }

  /** The state of the insertion loop after `i` intervals were copied to `r`. */
  ghost predicate Inserting(ivs: seq<Interval>, q: int, i: nat, r: seq<Interval>, added: bool)
    requires i <= |ivs|
  {
    && CanonicalList(r)
    && (!added ==> r == ivs[..i] && (i > 0 ==> ivs[i - 1].end + 1 < q))
    && (added ==> r != [] && SameExcept(r, ivs[..i], q)
                  && (forall j :: i <= j < |ivs| ==> r[|r| - 1].end < ivs[j].start))
  }

  /** Appending or merging one interval, the second half of the loop body. */
  function MergeOrAppend(r: seq<Interval>, iv: Interval): seq<Interval> {
    if r != [] && iv.start == r[|r| - 1].end + 1
    then r[..|r| - 1] + [Interval(r[|r| - 1].start, iv.end)]
    else r + [iv]
  }

  lemma MergeOrAppendCanonical(r: seq<Interval>, iv: Interval)
    requires CanonicalList(r) && 1 <= iv.start <= iv.end <= MAX_INT64
    requires r != [] ==> r[|r| - 1].end < iv.start
    ensures CanonicalList(MergeOrAppend(r, iv))
    ensures forall n :: InList(n, MergeOrAppend(r, iv)) <==> InList(n, r) || iv.Has(n)
  {
    forall n ensures InList(n, MergeOrAppend(r, iv)) <==> InList(n, r) || iv.Has(n) {
      if r != [] && iv.start == r[|r| - 1].end + 1 {
        InListLast(n, r);
        InListAppend(n, r[..|r| - 1], Interval(r[|r| - 1].start, iv.end));
      } else {
        InListAppend(n, r, iv);
      }
    }
  }

  lemma InsertStepAdded(ivs: seq<Interval>, q: int, i: nat, r: seq<Interval>)
    requires CanonicalList(ivs) && i < |ivs| && Inserting(ivs, q, i, r, true)
    ensures Inserting(ivs, q, i + 1, MergeOrAppend(r, ivs[i]), true)
  {
    MergeOrAppendCanonical(r, ivs[i]);
    forall n { InListPrefix(n, ivs, i); }
  }

  lemma InsertStepExpand(ivs: seq<Interval>, q: int, i: nat, r: seq<Interval>, iv: Interval)
    requires CanonicalList(ivs) && i < |ivs| && Inserting(ivs, q, i, r, false) && ValidSequence(q)
    requires (q == ivs[i].start - 1 && iv == Interval(q, ivs[i].end))
        || (q == ivs[i].end + 1 && iv == Interval(ivs[i].start, q))
    ensures Inserting(ivs, q, i + 1, MergeOrAppend(r, iv), true)
  {
    MergeOrAppendCanonical(r, iv);
    forall n { InListPrefix(n, ivs, i); }
  }

  lemma InsertStepNew(ivs: seq<Interval>, q: int, i: nat, r: seq<Interval>)
    requires CanonicalList(ivs) && i < |ivs| && Inserting(ivs, q, i, r, false) && ValidSequence(q)
    requires q < ivs[i].start - 1
    ensures Inserting(ivs, q, i + 1, MergeOrAppend(r + [Interval(q, q)], ivs[i]), true)
  {
    var r' := r + [Interval(q, q)];
    MergeOrAppendCanonical(r, Interval(q, q));
    assert r' == MergeOrAppend(r, Interval(q, q));
    MergeOrAppendCanonical(r', ivs[i]);
    forall n { InListPrefix(n, ivs, i); }
  }

  lemma InsertStepBefore(ivs: seq<Interval>, q: int, i: nat, r: seq<Interval>)
    requires CanonicalList(ivs) && i < |ivs| && Inserting(ivs, q, i, r, false)
    requires ivs[i].end + 1 < q
    ensures Inserting(ivs, q, i + 1, MergeOrAppend(r, ivs[i]), false)
  {
    assert MergeOrAppend(r, ivs[i]) == ivs[..i + 1];
  }

  /** One pass of the loop body: place `q` if its position is reached, then copy the interval. */
  method InsertAt(ivs: seq<Interval>, q: int, i: nat, r: seq<Interval>, added: bool)
    returns (r': seq<Interval>, added': bool)
    requires CanonicalList(ivs) && ValidSequence(q) && i < |ivs| && !ivs[i].Has(q)
    requires Inserting(ivs, q, i, r, added)
    ensures Inserting(ivs, q, i + 1, r', added')
  {
    var iv := ivs[i];
    r', added' := r, added;
    if !added {
      if q == iv.start - 1 {
        iv := iv.(start := q);
        added' := true;
        InsertStepExpand(ivs, q, i, r, iv);
      } else if q == iv.end + 1 {
        iv := iv.(end := q);
        added' := true;
        InsertStepExpand(ivs, q, i, r, iv);
      } else if q < iv.start - 1 {
        r' := r' + [Interval(q, q)];
        added' := true;
        InsertStepNew(ivs, q, i, r);
      } else {
        InsertStepBefore(ivs, q, i, r);
      }
    } else {
      InsertStepAdded(ivs, q, i, r);
    }
    ghost var before := r';
    var count := |r'|;
    if count != 0 && iv.start == r'[count - 1].end + 1 {
      r' := r'[..count - 1] + [Interval(r'[count - 1].start, iv.end)];
    } else {
      r' := r' + [iv];
    }
    assert r' == MergeOrAppend(before, iv);
  }

  /** What one server's list becomes: `q` was added, or it lies beyond the last interval. */
  ghost predicate Placed(ivs: seq<Interval>, q: int, r: seq<Interval>, added: bool) {
    if added then CanonicalList(r) && r != [] && SameExcept(r, ivs, q)
    else r == ivs && (ivs != [] ==> ivs[|ivs| - 1].end + 1 < q)
  }

  /** The loop over one server's intervals. */
  method InsertSequence(ivs: seq<Interval>, q: int) returns (r: seq<Interval>, added: bool)
    requires CanonicalList(ivs) && ValidSequence(q) && !InList(q, ivs)
    ensures Placed(ivs, q, r, added)
  {
    r, added := [], false;
    for i := 0 to |ivs|
      invariant Inserting(ivs, q, i, r, added)
    {
      r, added := InsertAt(ivs, q, i, r, added);
    }
    assert ivs[..|ivs|] == ivs;
  }

  /** What the result of an insertion must look like for the inserted server. */
  ghost predicate Inserted(s: GtidSet, server: SID, q: int, r: GtidSet) {
    && server in r && r[server] != []
    && CanonicalList(r[server]) && SameExcept(r[server], IntervalsOf(s, server), q)
    && r.Keys == s.Keys + {server}
    && (forall sid :: sid in s && sid != server ==> r[sid] == s[sid])
  }

  lemma InsertedDenotes(s: GtidSet, gtid: Gtid, r: GtidSet)
    requires Canonical(s) && gtid.Mysql56Gtid? && Inserted(s, gtid.server, gtid.sequence, r)
    ensures Canonical(r)
    ensures Denote(r) == Denote(s) + iset{gtid}
  {
    forall g: Gtid ensures g in Denote(r) <==> g in Denote(s) + iset{gtid} {
      if g.Mysql56Gtid? {
        if g.server == gtid.server {
          assert InList(g.sequence, r[gtid.server])
            <==> InList(g.sequence, IntervalsOf(s, gtid.server)) || g.sequence == gtid.sequence;
        } else {
          assert IntervalsOf(r, g.server) == IntervalsOf(s, g.server);
        }
      }
    }
  }

  /** The appended interval of `AddGtid` when no place was found among the existing ones. */
  lemma AppendedLast(s: GtidSet, server: SID, q: int)
    requires Canonical(s) && ValidSequence(q) && Placed(IntervalsOf(s, server), q, IntervalsOf(s, server), false)
    ensures var r := IntervalsOf(s, server) + [Interval(q, q)];
            CanonicalList(r) && SameExcept(r, IntervalsOf(s, server), q)
  {
    MergeOrAppendCanonical(IntervalsOf(s, server), Interval(q, q));
  }

  /** The copy loop: every server's list is copied, `q` placed in that of `server` if it fits before the end. */
  method CopyInserting(s: GtidSet, server: SID, q: int) returns (r: GtidSet, added: bool)
    requires Canonical(s) && ValidSequence(q) && !InList(q, IntervalsOf(s, server))
    ensures r.Keys == s.Keys
    ensures forall sid :: sid in s && sid != server ==> r[sid] == s[sid]
    ensures Placed(IntervalsOf(s, server), q, IntervalsOf(r, server), added)
  {
    r, added := map[], false;
    var todo := s.Keys;
    while todo != {}
      invariant todo <= s.Keys && r.Keys == s.Keys - todo
      invariant forall sid :: sid in r && sid != server ==> r[sid] == s[sid]
      invariant if server in r then Placed(s[server], q, r[server], added) else !added
      decreases todo
    {
      var sid :| sid in todo;
      var ivs := s[sid];
      if sid == server {
        ivs, added := InsertSequence(ivs, q);
      }
      r, todo := r[sid := ivs], todo - {sid};
    }
  }

  method AddGtid(s: GtidSet, gtid: Gtid) returns (r: GtidSet)
    requires Canonical(s)
    requires gtid.Mysql56Gtid? ==> ValidSequence(gtid.sequence)
    ensures Canonical(r)
    ensures Denote(r) == if gtid.Mysql56Gtid? then Denote(s) + iset{gtid} else Denote(s)
  {
    if gtid.ForeignGtid? {
      return s;
    }
    var contained := ContainsGtid(s, gtid);
    if contained {
      return s;
    }
    assert !InList(gtid.sequence, IntervalsOf(s, gtid.server));
    hide Denote, Canonical, InList, CanonicalList, SameExcept;
    var server, q := gtid.server, gtid.sequence;
    var added;
    r, added := CopyInserting(s, server, q);
    if !added {
      var ivs := IntervalsOf(r, server);
      AppendedLast(s, server, q);
      r := r[server := ivs + [Interval(q, q)]];
    }
    InsertedDenotes(s, gtid, r);
  }

  // ----------------------------------------------------------------- comparison

  ghost predicate Covers(ivs: seq<Interval>, iv: Interval) {
    forall n :: iv.Has(n) ==> InList(n, ivs)
  }

  /** Because canonical intervals are never adjacent, a covered interval lies inside a single one. */
  lemma CoveredBySingle(ivs: seq<Interval>, iv: Interval)
    requires CanonicalList(ivs) && iv.start <= iv.end && Covers(ivs, iv)
    ensures exists i :: 0 <= i < |ivs| && ivs[i].Contains(iv)
  {
    assert iv.Has(iv.start);
    var i :| 0 <= i < |ivs| && ivs[i].Has(iv.start);
    assert !InList(ivs[i].end + 1, ivs);
    assert !iv.Has(ivs[i].end + 1);
    assert ivs[i].Contains(iv);
  }

  /** The single pass over both interval lists of one server. */
  method CoversAll(ivs: seq<Interval>, others: seq<Interval>) returns (covered: bool)
    requires CanonicalList(ivs) && CanonicalList(others)
    ensures covered <==> forall n :: InList(n, others) ==> InList(n, ivs)
  {
    var i := 0;
    for k := 0 to |others|
      invariant 0 <= i <= |ivs|
      invariant k < |others| ==> forall m :: 0 <= m < i ==> ivs[m].end < others[k].end
      invariant forall n :: InList(n, others[..k]) ==> InList(n, ivs)
    {
      var iv := others[k];
      while true
        invariant 0 <= i <= |ivs|
        invariant forall m :: 0 <= m < i ==> !ivs[m].Contains(iv)
        decreases |ivs| - i
      {
        if i >= |ivs| {
          NotCovered(ivs, others, k);
          return false;
        }
        if ivs[i].Contains(iv) {
          break;
        }
        i := i + 1;
      }
      forall n | InList(n, others[..k + 1]) ensures InList(n, ivs) {
        InListPrefix(n, others, k);
        if iv.Has(n) { assert ivs[i].Has(n); }
      }
    }
    assert others[..|others|] == others;
    return true;
  }

  lemma NotCovered(ivs: seq<Interval>, others: seq<Interval>, k: nat)
    requires CanonicalList(ivs) && CanonicalList(others) && k < |others|
    requires forall i :: 0 <= i < |ivs| ==> !ivs[i].Contains(others[k])
    ensures exists n :: InList(n, others) && !InList(n, ivs)
  {
    if Covers(ivs, others[k]) {
      CoveredBySingle(ivs, others[k]);
    }
    var n :| others[k].Has(n) && !InList(n, ivs);
    assert InList(n, others);
  }

  /** `Contains` decides inclusion of the denoted sets. */
  method Contains(s: GtidSet, other: GtidSet) returns (included: bool)
    requires Canonical(s) && Canonical(other)
    ensures included <==> Denote(other) <= Denote(s)
  {
    var todo := other.Keys;
    while todo != {}
      invariant todo <= other.Keys
      invariant forall g: Gtid :: g in Denote(other) && g.server !in todo ==> g in Denote(s)
      decreases todo
    {
      var sid :| sid in todo;
      var covered := CoversAll(IntervalsOf(s, sid), other[sid]);
      if !covered {
        ghost var n :| InList(n, other[sid]) && !InList(n, IntervalsOf(s, sid));
        assert Mysql56Gtid(sid, n) in Denote(other) && Mysql56Gtid(sid, n) !in Denote(s);
        return false;
      }
      todo := todo - {sid};
    }
    return true;
  }

  /** A canonical interval list is determined by its members. */
  lemma {:induction false} CanonicalListUnique(a: seq<Interval>, b: seq<Interval>)
    requires CanonicalList(a) && CanonicalList(b)
    requires forall n :: InList(n, a) <==> InList(n, b)
    ensures a == b
    decreases |a|
  {
    EmptyList(a);
    EmptyList(b);
    if a != [] {
      FirstIntervalInside(a, b);
      FirstIntervalInside(b, a);
      forall n ensures InList(n, a[1..]) <==> InList(n, b[1..]) {
        InListTail(n, a);
        InListTail(n, b);
      }
      CanonicalListUnique(a[1..], b[1..]);
    }
  }

  lemma EmptyList(a: seq<Interval>)
    requires CanonicalList(a)
    ensures a == [] <==> forall n :: !InList(n, a)
  {
    if a != [] {
      assert a[0].Has(a[0].start);
      assert InList(a[0].start, a);
    }
  }

  lemma InListTail(n: int, a: seq<Interval>)
    requires CanonicalList(a) && a != []
    ensures InList(n, a[1..]) <==> InList(n, a) && !a[0].Has(n)
  {
    if InList(n, a[1..]) {
      var i :| 0 <= i < |a[1..]| && a[1..][i].Has(n);
      assert a[i + 1].Has(n);
    }
    if InList(n, a) && !a[0].Has(n) {
      var i :| 0 <= i < |a| && a[i].Has(n);
      assert a[1..][i - 1].Has(n);
    }
  }

  lemma FirstIntervalInside(a: seq<Interval>, b: seq<Interval>)
    requires CanonicalList(a) && CanonicalList(b) && a != [] && b != []
    requires forall n :: InList(n, a) <==> InList(n, b)
    ensures b[0].start <= a[0].start && (b[0].start == a[0].start ==> a[0].end <= b[0].end)
  {
    forall n | a[0].Has(n) ensures InList(n, b) { assert InList(n, a); }
    CoveredBySingle(b, a[0]);
  }

  /** Two canonical sets denote the same transactions exactly when they are the same map. */
  lemma CanonicalUnique(s: GtidSet, t: GtidSet)
    requires Canonical(s) && Canonical(t)
    ensures Denote(s) == Denote(t) <==> s == t
  {
    if Denote(s) == Denote(t) {
      forall sid ensures IntervalsOf(s, sid) == IntervalsOf(t, sid) {
        forall n ensures InList(n, IntervalsOf(s, sid)) <==> InList(n, IntervalsOf(t, sid)) {
          assert Mysql56Gtid(sid, n) in Denote(s) <==> Mysql56Gtid(sid, n) in Denote(t);
        }
        CanonicalListUnique(IntervalsOf(s, sid), IntervalsOf(t, sid));
      }
      forall sid ensures sid in s <==> sid in t {
        assert IntervalsOf(s, sid) == IntervalsOf(t, sid);
      }
      forall sid | sid in s ensures s[sid] == t[sid] {
        assert IntervalsOf(s, sid) == IntervalsOf(t, sid);
      }
    }
  }

  method SameIntervals(ivs: seq<Interval>, others: seq<Interval>) returns (same: bool)
    ensures same <==> ivs == others
  {
    if |ivs| != |others| {
      return false;
    }
    for i := 0 to |ivs|
      invariant forall k :: 0 <= k < i ==> ivs[k] == others[k]
    {
      if ivs[i] != others[i] {
        return false;
      }
    }
    return true;
  }

  /** The loop of `Equal`. */
  method SameMap(s: GtidSet, other: GtidSet) returns (same: bool)
    requires forall sid :: sid in s ==> s[sid] != []
    ensures same <==> s == other
  {
    if |s| != |other| {
      return false;
    }
    var todo := s.Keys;
    while todo != {}
      invariant todo <= s.Keys
      invariant forall sid :: sid in s && sid !in todo ==> sid in other && s[sid] == other[sid]
      decreases todo
    {
      var sid :| sid in todo;
      var same := SameIntervals(s[sid], IntervalsOf(other, sid));
      if !same {
        return false;
      }
      todo := todo - {sid};
    }
    SubsetOfSameSize(s.Keys, other.Keys);
    assert s == other;
    return true;
  }

  /** `Equal` decides equality of the denoted sets. */
  method Equal(s: GtidSet, other: GtidSet) returns (equal: bool)
    requires Canonical(s) && Canonical(other)
    ensures equal <==> Denote(s) == Denote(other)
  {
    CanonicalUnique(s, other);
    equal := SameMap(s, other);
  }

  lemma SubsetOfSameSize<T>(a: set<T>, b: set<T>)
    requires a <= b && |a| == |b|
    ensures a == b
  {
    assert |b - a| == |b| - |a|;
    assert b == a + (b - a);
  }

  /** Inclusion both ways is what `Equal` reports. */
  lemma MutualInclusion(s: GtidSet, t: GtidSet)
    requires Canonical(s) && Canonical(t)
    ensures Denote(s) <= Denote(t) && Denote(t) <= Denote(s) <==> s == t
  {
    CanonicalUnique(s, t);
  }
}
