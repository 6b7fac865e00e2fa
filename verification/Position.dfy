/** Replication positions of the MySQL 5.6 flavor (mysql/replication_position.go). */
module Position {
  import opened Prelude
  import opened Text
  import opened Mysql56GtidSet
  import opened SidOrder
  import opened GtidText

  /** A position is nil or wraps a GTID set. */
  datatype Position = NilPosition | SetPosition(gtids: GtidSet)

  ghost predicate CanonicalPosition(p: Position) {
    p.SetPosition? ==> Canonical(p.gtids) && ValidSids(p.gtids)
  }

  /** The transactions a server at this position has seen. */
  ghost function Seen(p: Position): iset<Gtid> {
    if p.NilPosition? then iset{} else Denote(p.gtids)
  }

  /** A GTID as MySQL 5.6 issues them. */
  ghost predicate ProperGtid(g: Gtid) {
    g.Mysql56Gtid? && g.server.Valid() && ValidSequence(g.sequence)
  }

  method PositionEqual(p: Position, other: Position) returns (equal: bool)
    requires CanonicalPosition(p) && CanonicalPosition(other)
    ensures equal <==> p == other
  {
    if p.NilPosition? {
      return other.NilPosition?;
    }
    if other.NilPosition? {
      return false;
    }
    CanonicalUnique(p.gtids, other.gtids);
    equal := Equal(p.gtids, other.gtids);
  }

  /** `AtLeast`: inclusion of what was seen, except that a set is never at least nil. */
  ghost predicate IsAtLeast(p: Position, other: Position) {
    if p.NilPosition? then other.NilPosition?
    else other.SetPosition? && Seen(other) <= Seen(p)
  }

  method AtLeast(p: Position, other: Position) returns (after: bool)
    requires CanonicalPosition(p) && CanonicalPosition(other)
    ensures after <==> IsAtLeast(p, other)
  {
    if p.NilPosition? {
      return other.NilPosition?;
    }
    if other.NilPosition? {
      return false;
    }
    after := Contains(p.gtids, other.gtids);
  }

  /** `AppendGTID` for a MySQL 5.6 GTID. */
  method AppendGtid(p: Position, gtid: Option<Gtid>) returns (r: Position)
    requires CanonicalPosition(p) && (gtid.Some? ==> ProperGtid(gtid.value))
    ensures gtid.None? ==> r == p
    ensures gtid.Some? ==> r.SetPosition? && CanonicalPosition(r) && Seen(r) == Seen(p) + iset{gtid.value}
  {
    if gtid.None? {
      return p;
    }
    var base: GtidSet := if p.NilPosition? then map[] else p.gtids;
    var gtids := AddGtid(base, gtid.value);
    r := SetPosition(gtids);
    assert Denote(map[]) == iset{};
    forall sid | sid in gtids ensures sid.Valid() {
      ServerSeen(gtids, sid);
      var n :| Mysql56Gtid(sid, n) in Denote(gtids);
      ServerKnown(base, Mysql56Gtid(sid, n));
    }
  }

  lemma ServerSeen(s: GtidSet, sid: SID)
    requires Canonical(s) && sid in s
    ensures exists n :: Mysql56Gtid(sid, n) in Denote(s)
  {
    var n := s[sid][0].start;
    assert s[sid][0].Has(n);
    assert Mysql56Gtid(sid, n) in Denote(s);
  }

  lemma ServerKnown(s: GtidSet, g: Gtid)
    requires g.Mysql56Gtid?
    ensures g in Denote(s) ==> g.server in s
  {
  }

  /** A canonical position is determined by what it has seen, apart from nil and the empty set. */
  lemma PositionUnique(p: Position, q: Position)
    requires CanonicalPosition(p) && CanonicalPosition(q) && Seen(p) == Seen(q)
    ensures p.SetPosition? && q.SetPosition? ==> p == q
  {
    if p.SetPosition? && q.SetPosition? {
      CanonicalUnique(p.gtids, q.gtids);
    }
  }

  // ---------------------------------------------------------------------- codec

  const FLAVOR := "MySQL56"

  /** `EncodePosition` */
  ghost function Encoded(p: Position): string
    requires CanonicalPosition(p)
  {
    if p.NilPosition? then "" else FLAVOR + "/" + SetString(p.gtids)
  }

  method EncodePosition(p: Position) returns (s: string)
    requires CanonicalPosition(p)
    ensures s == Encoded(p) && (p.SetPosition? ==> s == "MySQL56/" + SetString(p.gtids))
  {
    if p.NilPosition? {
      return "";
    }
    var text := PrintSet(p.gtids);
    s := FLAVOR + "/" + text;
  }

  /** The index of the first slash, or -1. */
  function SlashIndex(s: string): (i: int)
    ensures -1 <= i < |s|
    ensures i >= 0 ==> s[i] == '/' && forall j :: 0 <= j < i ==> s[j] != '/'
    ensures i == -1 ==> '/' !in s
  {
    if s == "" then -1
    else if s[0] == '/' then 0
    else var i := SlashIndex(s[1..]); if i < 0 then -1 else i + 1
  }

  /** `DecodePosition` with the MySQL 5.6 parser: a missing or unknown flavor is an error. */
  function DecodePosition(s: string): Result<Position> {
    if s == "" then Ok(NilPosition)
    else
      var i := SlashIndex(s);
      if i < 0 || s[..i] != FLAVOR then Err
      else match ParseSet(s[i + 1..])
        case Err => Err
        case Ok(gtids) => Ok(SetPosition(gtids))
  }

  /** Every position, nil and the empty set included, survives the text form. */
  lemma PositionRoundTrip(p: Position)
    requires CanonicalPosition(p)
    ensures DecodePosition(Encoded(p)) == Ok(p)
  {
    if p.SetPosition? {
      hide ParseSet, SetString, Canonical;
      TextRoundTrip(p.gtids);
      var text, s := SetString(p.gtids), Encoded(p);
      assert '/' !in FLAVOR;
      assert s[7] == '/' && forall j :: 0 <= j < 7 ==> s[j] == FLAVOR[j];
      assert SlashIndex(s) == 7;
      assert s[..7] == FLAVOR && s[8..] == text;
    }
  }

  /** A text that is not empty decodes exactly when it is the flavor, a slash and the text of a set. */
  lemma DecodesOnly(s: string, text: string)
    ensures DecodePosition("MySQL56/" + text)
         == match ParseSet(text) { case Err => Err case Ok(gtids) => Ok(SetPosition(gtids)) }
    ensures s != "" && DecodePosition(s).Ok? ==> "MySQL56/" <= s
  {
    hide ParseSet;
    var t := "MySQL56/" + text;
    assert t[7] == '/' && forall j :: 0 <= j < 7 ==> t[j] == "MySQL56"[j];
    assert SlashIndex(t) == 7;
    assert t[..7] == "MySQL56" && t[8..] == text;
    if s != "" && DecodePosition(s).Ok? {
      assert s[..7] == "MySQL56" && s[7] == '/';
    }
  }
}
