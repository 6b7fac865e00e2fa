/** Filtered replication (vt/binlog/keyrange_filter.go): each shard receives, for every
    transaction of the stream, the statements that belong to its key range. */
module KeyRangeFilter {
  import opened Prelude
  import opened Bytes
  import opened Streamer

  type KeyspaceId = seq<byte>

  datatype KeyRange = KeyRange(start: seq<byte>, end: seq<byte>)

  /** `KeyRangeContains` of vt/key/key.go; None is the nil range. */
  predicate InRange(kr: Option<KeyRange>, id: KeyspaceId) {
    kr.None? ||
    (!Less(id, kr.value.start) && (kr.value.end == [] || Less(id, kr.value.end)))
  }

  /** What the SQL parser says of a statement with several keyspace ids. */
  datatype Parsed = ParseError | NotAnInsert | InsertSelect | InsertValues(rows: seq<string>)

  /** The SQL library: the ids of the trailing annotation (None is its error), the parser, and
      the text of an insert with its rows replaced. */
  datatype Sql = Sql(
    keyspaceIds: string -> Option<seq<KeyspaceId>>,
    parse: string -> Parsed,
    withRows: (string, seq<string>) -> string)

  datatype BinlogTransaction = BinlogTransaction(token: Token, statements: seq<Statement>)

  // --------------------------------------------------------------- multi-row inserts

  /** The numbers of the rows, among the first n, that belong to a range. */
  ghost function RowNumbers(kr: Option<KeyRange>, ids: seq<KeyspaceId>, n: nat): (r: seq<nat>)
    requires n <= |ids|
    ensures forall j :: 0 <= j < |r| ==> r[j] < n && InRange(kr, ids[r[j]])
  {
    if n == 0 then [] else RowNumbers(kr, ids, n - 1) + (if InRange(kr, ids[n - 1]) then [n - 1] else [])
  }

  /** The rows, among the first n, that belong to a range. */
  function RowsIn<T>(kr: Option<KeyRange>, ids: seq<KeyspaceId>, rows: seq<T>, n: nat): seq<T>
    requires n <= |rows| == |ids|
  {
    if n == 0 then [] else RowsIn(kr, ids, rows, n - 1) + (if InRange(kr, ids[n - 1]) then [rows[n - 1]] else [])
  }

  /** The text sent to a range for a statement with several ids; Ok("") when it has no row there. */
  function RangeQuery(lib: Sql, sql: string, ids: seq<KeyspaceId>, kr: Option<KeyRange>): Result<string> {
    match lib.parse(sql)
    case InsertValues(rows) =>
      if |rows| != |ids| then Err
      else
        var values := RowsIn(kr, ids, rows, |rows|);
        if values == [] then Ok("") else Ok(lib.withRows(sql, values))
    case _ => Err
  }

  /** `getValidRangeQuery` and `generateSingleInsertQuery` */
  method GetValidRangeQuery(lib: Sql, sql: string, ids: seq<KeyspaceId>, kr: Option<KeyRange>)
      returns (r: Result<string>)
    ensures r == RangeQuery(lib, sql, ids, kr)
  {
    var parsed := lib.parse(sql);
    if !parsed.InsertValues? {
      return Err;
    }
    var rows := parsed.rows;
    if |rows| != |ids| {
      return Err;
    }
    var values: seq<string> := [];
    for rowNum := 0 to |rows|
      invariant values == RowsIn(kr, ids, rows, rowNum)
    {
      if InRange(kr, ids[rowNum]) {
        values := values + [rows[rowNum]];
      }
    }
    if |values| == 0 {
      return Ok("");
    }
    return Ok(lib.withRows(sql, values));
  }

  // ------------------------------------------------------------------- the filter

  predicate IsDml(c: Category) { c == Insert || c == Update || c == Delete }

  /** What a shard keeps of one statement: nothing, or one statement. */
  function Kept(lib: Sql, kr: Option<KeyRange>, s: FullStatement): (r: seq<Statement>)
    ensures |r| <= 1
  {
    var st := s.statement;
    if st.category == Set then [st]
    else if !IsDml(st.category) then []
    else if s.keyspaceId.Some? then (if InRange(kr, s.keyspaceId.value) then [st] else [])
    else match lib.keyspaceIds(st.sql)
      case None => if st.category == Insert then [] else [st]
      case Some(ids) =>
        if |ids| == 1 then (if InRange(kr, ids[0]) then [st] else [])
        else match RangeQuery(lib, st.sql, ids, kr)
          case Err => []
          case Ok(query) => if query == "" then [] else [Statement(st.category, query, st.charset)]
  }

  function KeptAll(lib: Sql, kr: Option<KeyRange>, stmts: seq<FullStatement>): seq<Statement> {
    if stmts == [] then [] else KeptAll(lib, kr, stmts[..|stmts| - 1]) + Kept(lib, kr, stmts[|stmts| - 1])
  }

  /** Some statement other than a SET was kept. */
  ghost predicate Matches(lib: Sql, kr: Option<KeyRange>, stmts: seq<FullStatement>) {
    exists i :: 0 <= i < |stmts| && IsDml(stmts[i].statement.category) && Kept(lib, kr, stmts[i]) != []
  }

  /** What the shard of range `kr` receives for one transaction: nothing but the token unless a statement matched. */
  ghost function Delivered(lib: Sql, kr: Option<KeyRange>, t: Transaction): BinlogTransaction {
    BinlogTransaction(t.token, if Matches(lib, kr, t.statements) then KeptAll(lib, kr, t.statements) else [])
  }

  /** The body of the loop for a DML statement. */
  method FilterDml(lib: Sql, kr: Option<KeyRange>, s: FullStatement) returns (kept: seq<Statement>)
    requires IsDml(s.statement.category)
    ensures kept == Kept(lib, kr, s)
  {
    kept := [];
    if s.keyspaceId.Some? {
      if InRange(kr, s.keyspaceId.value) {
        kept := [s.statement];
      }
      return;
    }
    var ids := lib.keyspaceIds(s.statement.sql);
    if ids.None? {
      if s.statement.category != Insert {
        kept := [s.statement];
      }
      return;
    }
    if |ids.value| == 1 {
      if InRange(kr, ids.value[0]) {
        kept := [s.statement];
      }
      return;
    }
    var query := GetValidRangeQuery(lib, s.statement.sql, ids.value, kr);
    if query.Ok? && query.value != "" {
      kept := [Statement(s.statement.category, query.value, s.statement.charset)];
    }
  }

  /** The function returned by `KeyRangeFilterFunc`, up to its callback. */
  method KeyRangeFilterFunc(lib: Sql, kr: Option<KeyRange>, t: Transaction) returns (trans: BinlogTransaction)
    ensures trans == Delivered(lib, kr, t)
  {
    hide Kept;
    var matched, filtered: seq<Statement> := false, [];
    var stmts := t.statements;
    for i := 0 to |stmts|
      invariant filtered == KeptAll(lib, kr, stmts[..i])
      invariant matched == Matches(lib, kr, stmts[..i])
    {
      var s := stmts[i];
      assert stmts[..i + 1][..i] == stmts[..i];
      MatchesStep(lib, kr, stmts, i);
      NonDmlKept(lib, kr, s);
      if s.statement.category == Set {
        filtered := filtered + [s.statement];
      } else if IsDml(s.statement.category) {
        var kept := FilterDml(lib, kr, s);
        filtered, matched := filtered + kept, matched || kept != [];
      }
    }
    assert stmts[..|stmts|] == stmts;
    trans := BinlogTransaction(t.token, if matched then filtered else []);
  }

  lemma MatchesStep(lib: Sql, kr: Option<KeyRange>, stmts: seq<FullStatement>, i: nat)
    requires i < |stmts|
    ensures Matches(lib, kr, stmts[..i + 1])
       <==> Matches(lib, kr, stmts[..i]) || (IsDml(stmts[i].statement.category) && Kept(lib, kr, stmts[i]) != [])
  {
    hide Kept;
    var a, b := stmts[..i], stmts[..i + 1];
    assert b[i] == stmts[i];
    assert forall j :: 0 <= j < i ==> a[j] == b[j];
  }

  lemma NonDmlKept(lib: Sql, kr: Option<KeyRange>, s: FullStatement)
    ensures !IsDml(s.statement.category) ==>
              Kept(lib, kr, s) == if s.statement.category == Set then [s.statement] else []
  {
  }

  // ------------------------------------------------------------- several shards

  ghost predicate OnlyRange(krs: seq<Option<KeyRange>>, i: nat, id: KeyspaceId) {
    i < |krs| && InRange(krs[i], id) && forall j :: 0 <= j < |krs| && j != i ==> !InRange(krs[j], id)
  }

  /** Every keyspace id lies in exactly one of the ranges. */
  ghost predicate Partition(krs: seq<Option<KeyRange>>) {
    forall id: KeyspaceId :: InOneRange(krs, id)
  }

  ghost predicate InOneRange(krs: seq<Option<KeyRange>>, id: KeyspaceId) {
    exists i :: OnlyRange(krs, i, id)
  }

  /** The shards cut at increasing points: -b0, b0-b1, ..., bn-. */
  ghost predicate Contiguous(krs: seq<Option<KeyRange>>) {
    && krs != [] && (forall i :: 0 <= i < |krs| ==> krs[i].Some?)
    && krs[0].value.start == [] && krs[|krs| - 1].value.end == []
    && (forall i :: 0 <= i < |krs| - 1 ==> krs[i].value.end == krs[i + 1].value.start && krs[i].value.end != [])
    && (forall i, j :: 0 <= i < j < |krs| ==> Less(krs[i].value.start, krs[j].value.start))
  }

  /** The range that holds an id: the last one that does not start after it. */
  lemma {:induction false} FindRange(krs: seq<Option<KeyRange>>, id: KeyspaceId, n: nat) returns (i: nat)
    requires Contiguous(krs) && 0 < n <= |krs|
    ensures i < n && !Less(id, krs[i].value.start)
    ensures i + 1 < n ==> Less(id, krs[i + 1].value.start)
  {
    if n == 1 || !Less(id, krs[n - 1].value.start) {
      i := n - 1;
    } else {
      i := FindRange(krs, id, n - 1);
    }
  }

  lemma {:induction false} StartOrEqual(krs: seq<Option<KeyRange>>, id: KeyspaceId, i: nat, j: nat)
    requires Contiguous(krs) && i < j < |krs|
    ensures Less(id, krs[i].value.start) ==> Less(id, krs[j].value.start)
  {
    if Less(id, krs[i].value.start) {
      LessTransitive(id, krs[i].value.start, krs[j].value.start);
    }
  }

  /** Contiguous shard ranges partition the keyspace ids. */
  lemma ContiguousPartition(krs: seq<Option<KeyRange>>)
    requires Contiguous(krs)
    ensures Partition(krs)
  {
    forall id: KeyspaceId ensures InOneRange(krs, id) {
      var i := FindRange(krs, id, |krs|);
      forall j | 0 <= j < |krs| && j != i ensures !InRange(krs[j], id) {
        if j > i + 1 {
          StartOrEqual(krs, id, i + 1, j);
        }
        if j < i {
          assert krs[j].value.end == krs[j + 1].value.start;
          if j + 1 < i { StartOrEqual(krs, id, j + 1, i); }
        }
      }
      assert OnlyRange(krs, i, id);
    }
  }

  /** Ranges cut at single bytes hold the ids whose first byte lies between them; a missing bound is none, and the
      empty id comes before every other. */
  lemma RangeByFirstByte(id: KeyspaceId, lo: byte, hi: byte)
    ensures InRange(Some(KeyRange([lo], [hi])), id) <==> id != [] && lo <= id[0] < hi
    ensures InRange(Some(KeyRange([], [hi])), id) <==> id == [] || id[0] < hi
    ensures InRange(Some(KeyRange([lo], [])), id) <==> id != [] && lo <= id[0]
    ensures InRange(Some(KeyRange([], [])), id) && InRange(None, id)
  {
    LessThanByte(id, lo);
    LessThanByte(id, hi);
  }

  /** In general a range holds the ids that do not differ from its start by a smaller byte or by ending first, and
      that do from its end. */
  lemma RangeAtFirstDifference(id: KeyspaceId, start: seq<byte>, end: seq<byte>)
    ensures InRange(Some(KeyRange(start, end)), id)
       <==> && !(exists k :: FirstDifference(id, start, k) && (k == |id| || id[k] < start[k]))
            && (end == [] || exists k :: FirstDifference(id, end, k) && (k == |id| || id[k] < end[k]))
  {
    LessAtFirstDifference(id, start);
    LessAtFirstDifference(id, end);
  }

  /** A DML statement with one keyspace id, from its row or its annotation. */
  ghost predicate RoutedBy(lib: Sql, s: FullStatement, id: KeyspaceId) {
    IsDml(s.statement.category) &&
    (s.keyspaceId == Some(id) || (s.keyspaceId.None? && lib.keyspaceIds(s.statement.sql) == Some([id])))
  }

  /** It reaches exactly one shard, whose transaction is then delivered. */
  lemma ReachesOneShard(lib: Sql, krs: seq<Option<KeyRange>>, t: Transaction, k: nat, id: KeyspaceId)
    returns (i: nat)
    requires Partition(krs) && k < |t.statements| && RoutedBy(lib, t.statements[k], id)
    ensures OnlyRange(krs, i, id)
    ensures Kept(lib, krs[i], t.statements[k]) == [t.statements[k].statement]
    ensures Delivered(lib, krs[i], t).statements == KeptAll(lib, krs[i], t.statements)
    ensures forall j :: 0 <= j < |krs| && j != i ==> Kept(lib, krs[j], t.statements[k]) == []
  {
    assert InOneRange(krs, id);
    i :| OnlyRange(krs, i, id);
    assert Matches(lib, krs[i], t.statements);
  }

  /** Statements without a usable id: inserts go nowhere, updates and deletes everywhere. */
  lemma UnannotatedDml(lib: Sql, kr: Option<KeyRange>, s: FullStatement)
    requires IsDml(s.statement.category) && s.keyspaceId.None? && lib.keyspaceIds(s.statement.sql).None?
    ensures Kept(lib, kr, s) == if s.statement.category == Insert then [] else [s.statement]
  {
  }

  /** A statement annotated with several ids is split when it is an insert with one row for each id;
      otherwise no shard keeps any of it. */
  lemma MultiRowInsert(lib: Sql, kr: Option<KeyRange>, s: FullStatement, ids: seq<KeyspaceId>)
    requires IsDml(s.statement.category) && s.keyspaceId.None? && lib.keyspaceIds(s.statement.sql) == Some(ids)
        && |ids| != 1
    requires forall rows :: lib.withRows(s.statement.sql, rows) != ""
    ensures var parsed := lib.parse(s.statement.sql);
            if parsed.InsertValues? && |parsed.rows| == |ids| && RowsIn(kr, ids, parsed.rows, |ids|) != []
            then Kept(lib, kr, s)
              == [s.statement.(sql := lib.withRows(s.statement.sql, RowsIn(kr, ids, parsed.rows, |ids|)))]
            else Kept(lib, kr, s) == []
  {
    hide RowsIn, InRange;
  }

  /** All that the shards keep of the first n rows of one insert. */
  ghost function RowsOfAll<T>(krs: seq<Option<KeyRange>>, ids: seq<KeyspaceId>, rows: seq<T>, n: nat): multiset<T>
    requires n <= |rows| == |ids|
  {
    if krs == [] then multiset{}
    else RowsOfAll(krs[1..], ids, rows, n) + multiset(RowsIn(krs[0], ids, rows, n))
  }

  lemma {:induction false} NoRows<T>(krs: seq<Option<KeyRange>>, ids: seq<KeyspaceId>, rows: seq<T>)
    requires |rows| == |ids|
    ensures RowsOfAll(krs, ids, rows, 0) == multiset{}
  {
    if krs != [] {
      NoRows(krs[1..], ids, rows);
    }
  }

  lemma RowStep<T>(kr: Option<KeyRange>, ids: seq<KeyspaceId>, rows: seq<T>, n: nat)
    requires n < |rows| == |ids|
    ensures multiset(RowsIn(kr, ids, rows, n + 1))
         == if InRange(kr, ids[n]) then multiset(RowsIn(kr, ids, rows, n)) + multiset{rows[n]}
           else multiset(RowsIn(kr, ids, rows, n))
  {
    hide InRange;
  }

  /** No range holds the id: the row goes nowhere. */
  lemma {:induction false} RowNowhere<T>(krs: seq<Option<KeyRange>>, ids: seq<KeyspaceId>, rows: seq<T>, n: nat)
    requires n < |rows| == |ids| && forall j :: 0 <= j < |krs| ==> !InRange(krs[j], ids[n])
    ensures RowsOfAll(krs, ids, rows, n + 1) == RowsOfAll(krs, ids, rows, n)
  {
    hide InRange, RowsIn;
    if krs != [] {
      RowNowhere(krs[1..], ids, rows, n);
      RowStep(krs[0], ids, rows, n);
    }
  }

  /** One range holds the id: exactly one copy of the row is kept. */
  lemma {:induction false} RowOnce<T>(krs: seq<Option<KeyRange>>, ids: seq<KeyspaceId>, rows: seq<T>, n: nat, i: nat)
    requires n < |rows| == |ids| && OnlyRange(krs, i, ids[n])
    ensures RowsOfAll(krs, ids, rows, n + 1) == RowsOfAll(krs, ids, rows, n) + multiset{rows[n]}
  {
    hide InRange, RowsIn;
    RowStep(krs[0], ids, rows, n);
    if i == 0 {
      RowNowhere(krs[1..], ids, rows, n);
    } else {
      assert OnlyRange(krs[1..], i - 1, ids[n]);
      RowOnce(krs[1..], ids, rows, n, i - 1);
    }
  }

  /** The rows of a multi-row insert are split over the shards, none lost and none repeated. */
  lemma {:induction false} RowsSplit<T>(krs: seq<Option<KeyRange>>, ids: seq<KeyspaceId>, rows: seq<T>, n: nat)
    requires Partition(krs) && n <= |rows| == |ids|
    ensures RowsOfAll(krs, ids, rows, n) == multiset(rows[..n])
  {
    hide InRange, RowsOfAll;
    if n == 0 {
      NoRows(krs, ids, rows);
    } else {
      RowsSplit(krs, ids, rows, n - 1);
      assert InOneRange(krs, ids[n - 1]);
      var i :| OnlyRange(krs, i, ids[n - 1]);
      RowOnce(krs, ids, rows, n - 1, i);
      assert rows[..n] == rows[..n - 1] + [rows[n - 1]];
    }
  }

  /** Within a shard the rows keep their order: they are those with the increasing numbers in the range. */
  lemma {:induction false} RowsInOrder<T>(kr: Option<KeyRange>, ids: seq<KeyspaceId>, rows: seq<T>, n: nat)
    requires n <= |rows| == |ids|
    ensures var nums := RowNumbers(kr, ids, n);
            && |RowsIn(kr, ids, rows, n)| == |nums|
            && (forall j :: 0 <= j < |nums| ==> RowsIn(kr, ids, rows, n)[j] == rows[nums[j]])
            && (forall i, j :: 0 <= i < j < |nums| ==> nums[i] < nums[j])
            && (forall r :: 0 <= r < n && InRange(kr, ids[r]) ==> r in nums)
  {
    hide *;
    SameNumber(kr, ids, rows, n);
    forall j | 0 <= j < |RowNumbers(kr, ids, n)|
      ensures RowsIn(kr, ids, rows, n)[j] == rows[RowNumbers(kr, ids, n)[j]]
    {
      RowAt(kr, ids, rows, n, j);
    }
    forall i, j | 0 <= i < j < |RowNumbers(kr, ids, n)| ensures RowNumbers(kr, ids, n)[i] < RowNumbers(kr, ids, n)[j] {
      NumbersIncrease(kr, ids, n, i, j);
    }
    forall r | 0 <= r < n && InRange(kr, ids[r]) ensures r in RowNumbers(kr, ids, n) {
      EveryRow(kr, ids, n, r);
    }
  }

  lemma {:induction false} SameNumber<T>(kr: Option<KeyRange>, ids: seq<KeyspaceId>, rows: seq<T>, n: nat)
    requires n <= |rows| == |ids|
    ensures |RowsIn(kr, ids, rows, n)| == |RowNumbers(kr, ids, n)|
  {
    hide *;
    RowsInNone(kr, ids, rows);
    NumbersNone(kr, ids);
    if n > 0 {
      SameNumber(kr, ids, rows, n - 1);
      RowsInStep(kr, ids, rows, n - 1);
      NumbersStep(kr, ids, n - 1);
    }
  }

  lemma {:induction false} RowAt<T>(kr: Option<KeyRange>, ids: seq<KeyspaceId>, rows: seq<T>, n: nat, j: nat)
    requires n <= |rows| == |ids| && j < |RowNumbers(kr, ids, n)|
    ensures |RowsIn(kr, ids, rows, n)| == |RowNumbers(kr, ids, n)|
    ensures RowsIn(kr, ids, rows, n)[j] == rows[RowNumbers(kr, ids, n)[j]]
  {
    hide *;
    SameNumber(kr, ids, rows, n);
    NumbersNone(kr, ids);
    RowsInStep(kr, ids, rows, n - 1);
    NumbersStep(kr, ids, n - 1);
    SameNumber(kr, ids, rows, n - 1);
    if j < |RowNumbers(kr, ids, n - 1)| {
      RowAt(kr, ids, rows, n - 1, j);
    }
  }

  lemma {:induction false} NumbersIncrease(kr: Option<KeyRange>, ids: seq<KeyspaceId>, n: nat, i: nat, j: nat)
    requires n <= |ids| && i < j < |RowNumbers(kr, ids, n)|
    ensures RowNumbers(kr, ids, n)[i] < RowNumbers(kr, ids, n)[j]
  {
    hide *;
    NumbersNone(kr, ids);
    NumbersStep(kr, ids, n - 1);
    if j < |RowNumbers(kr, ids, n - 1)| {
      NumbersIncrease(kr, ids, n - 1, i, j);
    }
  }

  lemma {:induction false} EveryRow(kr: Option<KeyRange>, ids: seq<KeyspaceId>, n: nat, r: nat)
    requires r < n <= |ids| && InRange(kr, ids[r])
    ensures r in RowNumbers(kr, ids, n)
    decreases n
  {
    hide *;
    NumbersStep(kr, ids, n - 1);
    if r < n - 1 {
      EveryRow(kr, ids, n - 1, r);
    }
  }

  lemma NumbersNone(kr: Option<KeyRange>, ids: seq<KeyspaceId>)
    ensures RowNumbers(kr, ids, 0) == []
  {
  }

  lemma NumbersStep(kr: Option<KeyRange>, ids: seq<KeyspaceId>, n: nat)
    requires n < |ids|
    ensures var before := RowNumbers(kr, ids, n);
            RowNumbers(kr, ids, n + 1) == if InRange(kr, ids[n]) then before + [n] else before
  {
    hide InRange;
    EmptyParts(RowNumbers(kr, ids, n));
  }

  // ------------------------------------------------------------- a whole transaction

  /** The smallest parts of a transaction that are routed: a whole statement, or one row of it. */
  datatype Unit = Whole(number: nat) | RowOf(number: nat, row: nat)

  function RowUnits(k: nat, n: nat): (us: seq<Unit>)
    ensures |us| == n && forall r :: 0 <= r < n ==> us[r] == RowOf(k, r)
  {
    seq(n, r requires 0 <= r => RowOf(k, r))
  }

  /** The ids by which a DML statement is routed; None for one that has none that could be used. */
  function RoutingIds(lib: Sql, s: FullStatement): Option<seq<KeyspaceId>> {
    if s.keyspaceId.Some? then Some([s.keyspaceId.value]) else lib.keyspaceIds(s.statement.sql)
  }

  /** The units of statement number k, one for each of its ids: none when it is no DML, or has several ids and is
      not an insert with one row for each. */
  function Units(lib: Sql, s: FullStatement, k: nat): (us: seq<Unit>)
    ensures us != [] ==> RoutingIds(lib, s).Some? && |us| == |RoutingIds(lib, s).value|
  {
    if !IsDml(s.statement.category) || RoutingIds(lib, s).None? then []
    else
      var n := |RoutingIds(lib, s).value|;
      if n == 1 then [Whole(k)]
      else
        match lib.parse(s.statement.sql)
        case InsertValues(rows) => if |rows| == n then RowUnits(k, n) else []
        case _ => []
  }

  /** An update or delete without a usable id, which goes to every shard. */
  predicate Everywhere(lib: Sql, s: FullStatement) {
    (s.statement.category == Update || s.statement.category == Delete) && RoutingIds(lib, s).None?
  }

  /** The units of one statement that a shard receives. */
  function UnitsIn(lib: Sql, kr: Option<KeyRange>, s: FullStatement, k: nat): seq<Unit> {
    if Everywhere(lib, s) then [Whole(k)]
    else
      var us := Units(lib, s, k);
      if us == [] then [] else RowsIn(kr, RoutingIds(lib, s).value, us, |us|)
  }

  /** The units of the first n statements that a shard receives, in their order. */
  ghost function UnitsOf(lib: Sql, kr: Option<KeyRange>, stmts: seq<FullStatement>, n: nat): seq<Unit>
    requires n <= |stmts|
  {
    if n == 0 then [] else UnitsOf(lib, kr, stmts, n - 1) + UnitsIn(lib, kr, stmts[n - 1], n - 1)
  }

  /** The statement that carries these units of `s`. */
  function Carrier(lib: Sql, s: FullStatement, us: seq<Unit>): Statement {
    match lib.parse(s.statement.sql)
    case InsertValues(rows) =>
      if us != [] && us[0].RowOf? then s.statement.(sql := lib.withRows(s.statement.sql, RowsNamed(rows, us)))
        else s.statement
    case _ => s.statement
  }

  function RowsNamed(rows: seq<string>, us: seq<Unit>): seq<string> {
    if us == [] then []
    else
      var u := us[|us| - 1];
      RowsNamed(rows, us[..|us| - 1]) + if u.RowOf? && u.row < |rows| then [rows[u.row]] else []
  }

  /** The statements of a shard, put together from its units and every SET in between. */
  ghost function Assembled(lib: Sql, kr: Option<KeyRange>, stmts: seq<FullStatement>, n: nat): seq<Statement>
    requires n <= |stmts|
  {
    if n == 0 then []
    else
      var s, us := stmts[n - 1], UnitsIn(lib, kr, stmts[n - 1], n - 1);
      Assembled(lib, kr, stmts, n - 1)
      + if s.statement.category == Set then [s.statement] else if us == [] then [] else [Carrier(lib, s, us)]
  }

  /** A formatted insert is not the empty text. */
  ghost predicate Formats(lib: Sql) { forall sql, rows :: lib.withRows(sql, rows) != "" }

  lemma {:induction false} NamedRows(kr: Option<KeyRange>, ids: seq<KeyspaceId>, rows: seq<string>, k: nat, n: nat)
    requires n <= |ids| == |rows|
    ensures RowsNamed(rows, RowsIn(kr, ids, RowUnits(k, |ids|), n)) == RowsIn(kr, ids, rows, n)
    ensures forall u :: u in RowsIn(kr, ids, RowUnits(k, |ids|), n) ==> u.RowOf?
    ensures RowsIn(kr, ids, RowUnits(k, |ids|), n) == [] <==> RowsIn(kr, ids, rows, n) == []
  {
    hide *;
    var units := RowUnits(k, |ids|);
    RowsInNone(kr, ids, rows);
    RowsInNone(kr, ids, units);
    if n > 0 {
      NamedRows(kr, ids, rows, k, n - 1);
      NamedLast(rows, RowsIn(kr, ids, units, n - 1), RowOf(k, n - 1));
      RowsInStep(kr, ids, rows, n - 1);
      RowsInStep(kr, ids, units, n - 1);
    } else {
      NamedNone(rows);
    }
  }

  lemma NamedNone(rows: seq<string>)
    ensures RowsNamed(rows, []) == []
  {
  }

  lemma RowsInNone<T>(kr: Option<KeyRange>, ids: seq<KeyspaceId>, rows: seq<T>)
    requires |ids| == |rows|
    ensures RowsIn(kr, ids, rows, 0) == []
  {
  }

  lemma RowsInStep<T>(kr: Option<KeyRange>, ids: seq<KeyspaceId>, rows: seq<T>, n: nat)
    requires n < |ids| == |rows|
    ensures var before := RowsIn(kr, ids, rows, n);
            RowsIn(kr, ids, rows, n + 1) == if InRange(kr, ids[n]) then before + [rows[n]] else before
  {
    hide InRange;
    EmptyParts(RowsIn(kr, ids, rows, n));
  }

  lemma NamedLast(rows: seq<string>, us: seq<Unit>, u: Unit)
    requires u.RowOf? && u.row < |rows|
    ensures RowsNamed(rows, us + [u]) == RowsNamed(rows, us) + [rows[u.row]]
  {
    assert (us + [u])[..|us|] == us;
  }

  /** What a shard keeps of a DML statement carries exactly its units of it. */
  lemma KeptCarries(lib: Sql, kr: Option<KeyRange>, s: FullStatement, k: nat)
    requires Formats(lib)
    ensures var us := UnitsIn(lib, kr, s, k);
            Kept(lib, kr, s) ==
            if s.statement.category == Set then [s.statement] else if us == [] then [] else [Carrier(lib, s, us)]
  {
    hide InRange;
    var ids := RoutingIds(lib, s);
    if IsDml(s.statement.category) && ids.Some? && |ids.value| != 1 {
      MultiRowInsert(lib, kr, s, ids.value);
      var parsed := lib.parse(s.statement.sql);
      if parsed.InsertValues? && |parsed.rows| == |ids.value| {
        NamedRows(kr, ids.value, parsed.rows, k, |ids.value|);
        hide RowsIn, RowsNamed, Kept;
        var us := UnitsIn(lib, kr, s, k);
        assert us != [] ==> us[0] in us;
      }
    } else if IsDml(s.statement.category) && ids.Some? {
      assert RowsIn(kr, ids.value, [Whole(k)], 1) == if InRange(kr, ids.value[0]) then [Whole(k)] else [];
    }
  }

  /** A shard is delivered its units, in the order of the transaction, with every SET in between, or nothing but
      the token when it has no unit. */
  lemma DeliveredIsAssembled(lib: Sql, kr: Option<KeyRange>, t: Transaction)
    requires Formats(lib)
    ensures var n := |t.statements|;
            Delivered(lib, kr, t).statements ==
            if UnitsOf(lib, kr, t.statements, n) == [] then [] else Assembled(lib, kr, t.statements, n)
  {
    hide Kept, UnitsIn;
    var n := |t.statements|;
    AssembledIs(lib, kr, t.statements, n);
    assert t.statements[..n] == t.statements;
  }

  lemma {:induction false} AssembledIs(lib: Sql, kr: Option<KeyRange>, stmts: seq<FullStatement>, n: nat)
    requires Formats(lib) && n <= |stmts|
    ensures KeptAll(lib, kr, stmts[..n]) == Assembled(lib, kr, stmts, n)
    ensures Matches(lib, kr, stmts[..n]) <==> UnitsOf(lib, kr, stmts, n) != []
  {
    hide Kept, UnitsIn, Carrier, Matches;
    if n == 0 {
      NoMatch(lib, kr, stmts);
    } else {
      AssembledIs(lib, kr, stmts, n - 1);
      assert stmts[..n][..n - 1] == stmts[..n - 1];
      KeptCarries(lib, kr, stmts[n - 1], n - 1);
      MatchesStep(lib, kr, stmts, n - 1);
      OnlyDml(lib, kr, stmts[n - 1], n - 1);
    }
  }

  lemma NoMatch(lib: Sql, kr: Option<KeyRange>, stmts: seq<FullStatement>)
    ensures !Matches(lib, kr, stmts[..0])
  {
  }

  lemma OnlyDml(lib: Sql, kr: Option<KeyRange>, s: FullStatement, k: nat)
    ensures UnitsIn(lib, kr, s, k) != [] ==> IsDml(s.statement.category)
  {
  }

  /** What all shards receive of the first n statements. */
  ghost function UnitsOfAll(lib: Sql, krs: seq<Option<KeyRange>>, stmts: seq<FullStatement>, n: nat): multiset<Unit>
    requires n <= |stmts|
  {
    if krs == [] then multiset{} else UnitsOfAll(lib, krs[1..], stmts, n) + multiset(UnitsOf(lib, krs[0], stmts, n))
  }

  /** What all shards receive of one statement. */
  ghost function SharesOfAll(lib: Sql, krs: seq<Option<KeyRange>>, s: FullStatement, k: nat): multiset<Unit> {
    if krs == [] then multiset{} else SharesOfAll(lib, krs[1..], s, k) + multiset(UnitsIn(lib, krs[0], s, k))
  }

  /** What one statement amounts to over a number of shards: each unit once, or the statement in every shard. */
  ghost function Amount(lib: Sql, shards: nat, s: FullStatement, k: nat): multiset<Unit> {
    if Everywhere(lib, s) then multiset{}[Whole(k) := shards] else multiset(Units(lib, s, k))
  }

  ghost function AllAmounts(lib: Sql, shards: nat, stmts: seq<FullStatement>, n: nat): multiset<Unit>
    requires n <= |stmts|
  {
    if n == 0 then multiset{} else AllAmounts(lib, shards, stmts, n - 1) + Amount(lib, shards, stmts[n - 1], n - 1)
  }

  lemma {:induction false} SharesStep(lib: Sql, krs: seq<Option<KeyRange>>, stmts: seq<FullStatement>, n: nat)
    requires n < |stmts|
    ensures UnitsOfAll(lib, krs, stmts, n + 1) == UnitsOfAll(lib, krs, stmts, n) + SharesOfAll(lib, krs, stmts[n], n)
  {
    hide UnitsIn;
    if krs != [] {
      SharesStep(lib, krs[1..], stmts, n);
    }
  }

  lemma {:induction false} NoUnits(lib: Sql, krs: seq<Option<KeyRange>>, stmts: seq<FullStatement>)
    ensures UnitsOfAll(lib, krs, stmts, 0) == multiset{}
  {
    if krs != [] {
      NoUnits(lib, krs[1..], stmts);
    }
  }

  lemma {:induction false} SharesAreRows(lib: Sql, krs: seq<Option<KeyRange>>, s: FullStatement, k: nat)
    requires !Everywhere(lib, s)
    ensures var us := Units(lib, s, k);
            SharesOfAll(lib, krs, s, k) == if us == [] then multiset{}
              else RowsOfAll(krs, RoutingIds(lib, s).value, us, |us|)
  {
    if krs != [] {
      SharesAreRows(lib, krs[1..], s, k);
    }
  }

  lemma {:induction false} SharesEverywhere(lib: Sql, krs: seq<Option<KeyRange>>, s: FullStatement, k: nat)
    requires Everywhere(lib, s)
    ensures SharesOfAll(lib, krs, s, k) == multiset{}[Whole(k) := |krs|]
  {
    if krs != [] {
      SharesEverywhere(lib, krs[1..], s, k);
    }
  }

  /** Over a partition of the key space, the shards together receive of a transaction exactly its units: every
      routed statement and every row of a split insert once, and every update or delete without an id in each shard. */
  lemma {:induction false} TransactionSplit(lib: Sql, krs: seq<Option<KeyRange>>, stmts: seq<FullStatement>, n: nat)
    requires Partition(krs) && n <= |stmts|
    ensures UnitsOfAll(lib, krs, stmts, n) == AllAmounts(lib, |krs|, stmts, n)
  {
    hide UnitsOfAll, SharesOfAll, UnitsIn, Units, Partition, RowsOfAll;
    if n == 0 {
      NoUnits(lib, krs, stmts);
    } else {
      var s := stmts[n - 1];
      TransactionSplit(lib, krs, stmts, n - 1);
      SharesStep(lib, krs, stmts, n - 1);
      if Everywhere(lib, s) {
        SharesEverywhere(lib, krs, s, n - 1);
      } else {
        SharesAreRows(lib, krs, s, n - 1);
        var us := Units(lib, s, n - 1);
        if us != [] {
          RowsSplit(krs, RoutingIds(lib, s).value, us, |us|);
          assert us[..|us|] == us;
        }
      }
    }
  }
}
