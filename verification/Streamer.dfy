/** The binlog streamer (vt/binlog/binlog_streamer.go): `parseEvents` groups the raw
    binlog events of a MySQL 5.6 server into transactions, each sent with the
    replication position reached. */
module Streamer {
  import opened Prelude
  import opened Text
  import opened Mysql56GtidSet
  import opened Position

  // ------------------------------------------------------------------ data model

  datatype Category = Unrecognized | Begin | Commit | Rollback | Ddl | Insert | Update | Delete | Set

  datatype Charset = Charset(client: int, conn: int, server: int)

  datatype Statement = Statement(category: Category, sql: string, charset: Option<Charset>)

  /** A statement with what row-based replication knows about its row. */
  datatype FullStatement = FullStatement(statement: Statement, table: string, keyspaceId: Option<seq<byte>>)

  datatype Query = Query(database: string, charset: Option<Charset>, sql: string)

  datatype TableMap = TableMap(database: string, name: string, types: seq<byte>, metadata: seq<nat>)

  /** A cached table: `known` is whether its schema was filled in (it belongs to our database). */
  datatype TableEntry = TableEntry(tm: TableMap, known: bool)

  /** What the event accessors return for one raw event; Err is their error return. */
  datatype Body =
    | FormatDescription(ok: bool)
    | Rotate
    | Pseudo(pseudoGtid: Result<Gtid>)
    | GtidEvent(gtid: Result<Gtid>, hasBegin: bool)
    | Xid
    | IntVar(variable: Result<(string, nat)>)
    | Rand(seeds: Result<(nat, nat)>)
    | QueryEvent(query: Result<Query>)
    | PreviousGtids(position: Result<Position>)
    | TableMapEvent(mapId: nat, tm: Result<TableMap>)
    | RowsEvent(tableId: nat, rows: seq<byte>)
    | Ignored

  datatype Event = Event(valid: bool, stripped: bool, timestamp: nat, body: Body)

  /** The settings of a Streamer, and the parts of the system it consults. */
  datatype Config = Config(
    dbName: string,
    clientCharset: Option<Charset>,
    startPos: Position,
    timestamp: int,
    usePreviousGtids: bool,
    tableInSchema: string -> bool,
    resolverFound: string -> bool,
    rowStatements: (seq<byte>, TableMap) -> Result<seq<FullStatement>>)

  datatype Token = Token(timestamp: nat, position: string)

  /** One call of sendTransaction. */
  datatype Transaction = Transaction(token: Token, statements: seq<FullStatement>)

  datatype SendResult = SendOk | SendEOF | SendError

  datatype StreamError = ErrServerEOF | ErrCancelled | ErrClientEOF | ErrSend | ErrEvent

  // ---------------------------------------------------------- statement categories

  function ToLower(s: string): string {
    if s == "" then "" else [if 'A' <= s[0] <= 'Z' then s[0] - 'A' + 'a' else s[0]] + ToLower(s[1..])
  }

  function FirstWord(sql: string): string {
    if sql == "" || sql[0] == ' ' then "" else [sql[0]] + FirstWord(sql[1..])
  }

  /** `getStatementCategory` */
  function CategoryOf(sql: string): Category {
    var word := ToLower(FirstWord(sql));
    if word == "begin" then Begin
    else if word == "commit" then Commit
    else if word == "rollback" then Rollback
    else if word == "insert" then Insert
    else if word == "update" then Update
    else if word == "delete" then Delete
    else if word == "create" || word == "alter" || word == "drop" || word == "truncate" || word == "rename" then Ddl
    else if word == "set" then Set
    else Unrecognized
  }

  /** The statement starts with this word: the letters are those of the word, in lower or upper case, and a blank or
      nothing follows. */
  predicate Says(sql: string, word: string) {
    && |word| <= |sql| && (|word| == |sql| || sql[|word|] == ' ')
    && forall i :: 0 <= i < |word| ==> sql[i] == word[i] || sql[i] as int + 32 == word[i] as int
  }

  predicate IsLetters(word: string) { forall i :: 0 <= i < |word| ==> 'a' <= word[i] <= 'z' }

  lemma {:induction false} SaysIs(sql: string, word: string)
    requires IsLetters(word)
    ensures Says(sql, word) <==> ToLower(FirstWord(sql)) == word
  {
    if word != "" && sql != "" && sql[0] != ' ' {
      var rest, more := sql[1..], word[1..];
      assert IsLetters(more);
      SaysIs(rest, more);
      assert ([sql[0]] + FirstWord(rest))[1..] == FirstWord(rest);
    }
  }

  /** The words that statements are told apart by, and what they mean. */
  predicate Keyword(word: string, category: Category) {
    match category
    case Begin => word == "begin"
    case Commit => word == "commit"
    case Rollback => word == "rollback"
    case Insert => word == "insert"
    case Update => word == "update"
    case Delete => word == "delete"
    case Set => word == "set"
    case Ddl => word in ["create", "alter", "drop", "truncate", "rename"]
    case Unrecognized => false
  }

  /** A statement has a category exactly when it starts with one of the words for it, in any letter case. */
  lemma CategoryBySaying(sql: string, category: Category)
    requires category != Unrecognized
    ensures CategoryOf(sql) == category <==> exists word :: Keyword(word, category) && Says(sql, word)
  {
    hide Says, IsLetters, ToLower, FirstWord;
    var first := ToLower(FirstWord(sql));
    KeywordIs(sql, category);
    forall word | Keyword(word, category) ensures Says(sql, word) <==> word == first {
      KeywordLetters(word, category);
      SaysIs(sql, word);
    }
    hide CategoryOf, Keyword;
  }

  lemma KeywordIs(sql: string, category: Category)
    requires category != Unrecognized
    ensures CategoryOf(sql) == category <==> Keyword(ToLower(FirstWord(sql)), category)
  {
    hide ToLower, FirstWord;
  }

  lemma KeywordLetters(word: string, category: Category)
    requires Keyword(word, category)
    ensures IsLetters(word)
  {
  }

  function SetStatement(sql: string, charset: Option<Charset>): FullStatement {
    FullStatement(Statement(Set, sql, charset), "", None)
  }

  function SetTimestamp(timestamp: nat, charset: Option<Charset>): FullStatement {
    SetStatement("SET TIMESTAMP=" + FormatNat(timestamp), charset)
  }

  predicate OtherDatabase(cfg: Config, database: string) {
    database != "" && database != cfg.dbName
  }

  function SentCharset(cfg: Config, q: Query): Option<Charset> {
    if cfg.clientCharset.None? || (q.charset.Some? && q.charset != cfg.clientCharset) then q.charset else None
  }

  // ------------------------------------------------- what a stream of events means

  /** A format description was read before event i. */
  ghost predicate HaveFormat(evs: seq<Event>, i: nat) {
    exists j :: 0 <= j < i && j < |evs| && evs[j].body.FormatDescription?
  }

  /** Event i is one that is interpreted. */
  ghost predicate Live(evs: seq<Event>, i: nat)
    requires i < |evs|
  {
    HaveFormat(evs, i) && !evs[i].body.FormatDescription?
  }

  /** The table cache after the first i events. */
  ghost function Tables(cfg: Config, evs: seq<Event>, i: nat): map<nat, TableEntry>
    requires i <= |evs|
  {
    if i == 0 then map[]
    else
      var before := Tables(cfg, evs, i - 1);
      match evs[i - 1].body
      case TableMapEvent(id, Ok(tm)) =>
        if Live(evs, i - 1) then before[id := TableEntry(tm, !OtherDatabase(cfg, tm.database))] else before
      case _ => before
  }

  /** The statements that event i adds to the transaction it belongs to. */
  ghost function Contribution(cfg: Config, evs: seq<Event>, i: nat): seq<FullStatement>
    requires i < |evs|
  {
    if !Live(evs, i) then []
    else match evs[i].body
      case IntVar(Ok((name, value))) => [SetStatement("SET " + name + "=" + FormatNat(value), None)]
      case Rand(Ok((s1, s2))) => [SetStatement("SET @@RAND_SEED1=" + FormatNat(s1) + ", @@RAND_SEED2=" + FormatNat(s2),
        None)]
      case QueryEvent(Ok(q)) =>
        var category := CategoryOf(q.sql);
        if category == Begin || category == Rollback || category == Commit || OtherDatabase(cfg, q.database) then []
        else [SetTimestamp(evs[i].timestamp, SentCharset(cfg, q)),
              FullStatement(Statement(category, q.sql, SentCharset(cfg, q)), "", None)]
      case RowsEvent(id, raw) =>
        var tables := Tables(cfg, evs, i);
        if id !in tables || !tables[id].known then []
        else (match cfg.rowStatements(raw, tables[id].tm)
              case Err => []
              case Ok(stmts) => [SetTimestamp(evs[i].timestamp, None)] + stmts)
      case _ => []
  }

  /** The transactions seen by the server after the first i events. */
  ghost function SeenAt(cfg: Config, evs: seq<Event>, i: nat): iset<Gtid>
    requires i <= |evs|
  {
    if i == 0 then Seen(cfg.startPos)
    else
      var before := SeenAt(cfg, evs, i - 1);
      if !Live(evs, i - 1) then before
      else match evs[i - 1].body
        case Pseudo(Ok(g)) => before + iset{g}
        case GtidEvent(Ok(g), _) => before + iset{g}
        case PreviousGtids(Ok(p)) => if cfg.usePreviousGtids then Seen(p) else before
        case _ => before
  }

  /** No position is known yet: the start position was nil and no event gave one. */
  ghost predicate NilAt(cfg: Config, evs: seq<Event>, i: nat)
    requires i <= |evs|
  {
    && cfg.startPos.NilPosition?
    && forall j :: 0 <= j < i && Live(evs, j) ==> !GivesPosition(cfg, evs[j])
  }

  predicate GivesPosition(cfg: Config, ev: Event) {
    || (ev.body.Pseudo? && ev.body.pseudoGtid.Ok?)
    || (ev.body.GtidEvent? && ev.body.gtid.Ok?)
    || (ev.body.PreviousGtids? && ev.body.position.Ok? && cfg.usePreviousGtids)
  }

  /** Event i starts an explicit transaction. */
  ghost predicate Opens(evs: seq<Event>, i: nat)
    requires i < |evs|
  {
    Live(evs, i) &&
    match evs[i].body
    case GtidEvent(Ok(_), hasBegin) => hasBegin
    case QueryEvent(Ok(q)) => CategoryOf(q.sql) == Begin
    case _ => false
  }

  ghost predicate RollsBack(evs: seq<Event>, i: nat)
    requires i < |evs|
  {
    Live(evs, i) && evs[i].body.QueryEvent? && evs[i].body.query.Ok?
      && CategoryOf(evs[i].body.query.value.sql) == Rollback
  }

  /** Event i ends a transaction, whether or not one was started: commit, XID, rollback or honoured PREVIOUS_GTIDS. */
  ghost predicate Closes(cfg: Config, evs: seq<Event>, i: nat)
    requires i < |evs|
  {
    Live(evs, i) &&
    match evs[i].body
    case Xid => true
    case QueryEvent(Ok(q)) => CategoryOf(q.sql) == Commit || CategoryOf(q.sql) == Rollback
    case PreviousGtids(Ok(_)) => cfg.usePreviousGtids
    case _ => false
  }

  /** Event i is sent at once when it is not inside an explicit transaction. */
  ghost predicate Standalone(cfg: Config, evs: seq<Event>, i: nat)
    requires i < |evs|
  {
    Live(evs, i) &&
    match evs[i].body
    case Pseudo(Ok(g)) => g !in SeenAt(cfg, evs, i)
    case QueryEvent(Ok(q)) =>
      CategoryOf(q.sql) != Begin && CategoryOf(q.sql) != Commit && CategoryOf(q.sql) != Rollback
        && !OtherDatabase(cfg, q.database)
    case RowsEvent(id, raw) =>
      var tables := Tables(cfg, evs, i);
      id in tables && tables[id].known && cfg.rowStatements(raw, tables[id].tm).Ok?
    case _ => false
  }

  /** Before event i, an explicit transaction was opened and not closed. */
  ghost predicate InTransaction(cfg: Config, evs: seq<Event>, i: nat)
    requires i <= |evs|
  {
    exists b :: 0 <= b < i && Opens(evs, b) && forall k :: b < k < i ==> !Closes(cfg, evs, k)
  }

  /** Event i commits. */
  ghost predicate Commits(cfg: Config, evs: seq<Event>, i: nat)
    requires i < |evs|
  {
    Closes(cfg, evs, i) || (Standalone(cfg, evs, i) && !InTransaction(cfg, evs, i))
  }

  /** One past the last event before i that opened a transaction or committed. */
  ghost function LastBoundary(cfg: Config, evs: seq<Event>, i: nat): (b: nat)
    requires i <= |evs|
    ensures b <= i
  {
    if i == 0 then 0
    else if Opens(evs, i - 1) || Commits(cfg, evs, i - 1) then i
    else LastBoundary(cfg, evs, i - 1)
  }

  /** All the statements that events a, ..., b - 1 contribute, in order. */
  ghost function Contributions(cfg: Config, evs: seq<Event>, a: nat, b: nat): seq<FullStatement>
    requires b <= |evs|
    decreases b
  {
    if a >= b then [] else Contributions(cfg, evs, a, b - 1) + Contribution(cfg, evs, b - 1)
  }

  /** The statements waiting to be sent before event i. */
  ghost function Pending(cfg: Config, evs: seq<Event>, i: nat): seq<FullStatement>
    requires i <= |evs|
  {
    Contributions(cfg, evs, LastBoundary(cfg, evs, i), i)
  }

  /** The statements of the transaction that event i commits; a rollback commits an empty one. */
  ghost function TransactionOf(cfg: Config, evs: seq<Event>, i: nat): seq<FullStatement>
    requires i < |evs|
  {
    if RollsBack(evs, i) then [] else Pending(cfg, evs, i) + Contribution(cfg, evs, i)
  }

  /** The events, among the first n, at which a transaction is sent. */
  ghost function SendPoints(cfg: Config, evs: seq<Event>, n: nat): (r: seq<nat>)
    requires n <= |evs|
    ensures forall j :: 0 <= j < |r| ==> r[j] < n && Commits(cfg, evs, r[j]) && evs[r[j]].timestamp >= cfg.timestamp
  {
    if n == 0 then []
    else
      SendPoints(cfg, evs, n - 1) +
      (if Commits(cfg, evs, n - 1) && evs[n - 1].timestamp >= cfg.timestamp then [n - 1] else [])
  }

  /** `p` is the position reached after the first i events. */
  ghost predicate PositionAt(cfg: Config, evs: seq<Event>, i: nat, p: Position)
    requires i <= |evs|
  {
    CanonicalPosition(p) && Seen(p) == SeenAt(cfg, evs, i) && (p.NilPosition? <==> NilAt(cfg, evs, i))
  }

  /** `t` is the transaction that event i sends: its time, the position reached, and its statements. */
  ghost predicate Reports(cfg: Config, evs: seq<Event>, i: nat, t: Transaction)
    requires i < |evs|
  {
    && t.token.timestamp == evs[i].timestamp
    && t.statements == TransactionOf(cfg, evs, i)
    && exists p :: PositionAt(cfg, evs, i + 1, p) && t.token.position == Encoded(p)
  }

  ghost predicate AllReported(cfg: Config, evs: seq<Event>, n: nat, sent: seq<Transaction>)
    requires n <= |evs|
  {
    var points := SendPoints(cfg, evs, n);
    |sent| == |points| && forall j :: 0 <= j < |points| ==> Reports(cfg, evs, points[j], sent[j])
  }

  /** Event i makes the streamer stop with an error. */
  ghost predicate Fails(cfg: Config, evs: seq<Event>, i: nat)
    requires i < |evs|
  {
    var ev := evs[i];
    || !ev.valid
    || (ev.body.FormatDescription? && !ev.body.ok)
    || (!ev.body.FormatDescription? && !HaveFormat(evs, i) && !ev.body.Rotate?)
    || (Live(evs, i) && (!ev.stripped || BodyFails(cfg, ev.body, Tables(cfg, evs, i))))
  }

  predicate BodyFails(cfg: Config, body: Body, tables: map<nat, TableEntry>) {
    match body
    case Pseudo(g) => g.Err?
    case GtidEvent(g, _) => g.Err?
    case IntVar(v) => v.Err?
    case Rand(s) => s.Err?
    case QueryEvent(q) => q.Err?
    case PreviousGtids(p) => cfg.usePreviousGtids && p.Err?
    case TableMapEvent(_, Err) => true
    case TableMapEvent(_, Ok(tm)) =>
      !OtherDatabase(cfg, tm.database) && (!cfg.tableInSchema(tm.name) || !cfg.resolverFound(tm.name))
    case RowsEvent(id, raw) => id !in tables || (tables[id].known && cfg.rowStatements(raw, tables[id].tm).Err?)
    case _ => false
  }

  /** The GTIDs and positions in the stream are ones a MySQL 5.6 server writes. */
  ghost predicate ProperStream(cfg: Config, evs: seq<Event>) {
    && CanonicalPosition(cfg.startPos)
    && forall i :: 0 <= i < |evs| ==>
        match evs[i].body
        case Pseudo(Ok(g)) => ProperGtid(g)
        case GtidEvent(Ok(g), _) => ProperGtid(g)
        case PreviousGtids(Ok(p)) => p.SetPosition? && CanonicalPosition(p)
        case _ => true
  }

  // ---------------------------------------------------------------- the event loop

  /** The local variables of `parseEvents` before event i. */
  ghost predicate LoopState(cfg: Config, evs: seq<Event>, i: nat, tableMaps: map<nat, TableEntry>,
                            statements: seq<FullStatement>, autocommit: bool, pos: Position)
    requires i <= |evs|
  {
    && tableMaps == Tables(cfg, evs, i)
    && statements == Pending(cfg, evs, i)
    && autocommit == !InTransaction(cfg, evs, i)
    && PositionAt(cfg, evs, i, pos)
  }

  lemma InTransactionStep(cfg: Config, evs: seq<Event>, i: nat)
    requires i < |evs|
    ensures InTransaction(cfg, evs, i + 1) <==> Opens(evs, i) || (InTransaction(cfg, evs, i) && !Closes(cfg, evs, i))
  {
    hide Opens, Closes;
    if InTransaction(cfg, evs, i) && !Closes(cfg, evs, i) {
      var b :| 0 <= b < i && Opens(evs, b) && forall k :: b < k < i ==> !Closes(cfg, evs, k);
      assert forall k :: b < k < i + 1 ==> !Closes(cfg, evs, k);
    }
  }

  /** An event that is not interpreted changes nothing but the format. */
  lemma SkippedStep(cfg: Config, evs: seq<Event>, i: nat, pos: Position)
    requires i < |evs| && !Live(evs, i) && PositionAt(cfg, evs, i, pos)
    ensures Pending(cfg, evs, i + 1) == Pending(cfg, evs, i)
    ensures Tables(cfg, evs, i + 1) == Tables(cfg, evs, i)
    ensures InTransaction(cfg, evs, i + 1) <==> InTransaction(cfg, evs, i)
    ensures PositionAt(cfg, evs, i + 1, pos)
    ensures !Commits(cfg, evs, i)
  {
    InTransactionStep(cfg, evs, i);
    assert Contribution(cfg, evs, i) == [];
    hide Live;
    assert Contributions(cfg, evs, LastBoundary(cfg, evs, i), i + 1)
      == Contributions(cfg, evs, LastBoundary(cfg, evs, i), i);
  }

  lemma PendingStep(cfg: Config, evs: seq<Event>, i: nat)
    requires i < |evs|
    ensures Pending(cfg, evs, i + 1)
         == if Opens(evs, i) || Commits(cfg, evs, i) then [] else Pending(cfg, evs, i) + Contribution(cfg, evs, i)
  {
  }

  /** How the position advances at an interpreted event. */
  ghost predicate Advances(cfg: Config, ev: Event, pos: Position, pos': Position) {
    match ev.body
    case Pseudo(Ok(g)) => pos'.SetPosition? && CanonicalPosition(pos') && Seen(pos') == Seen(pos) + iset{g}
    case GtidEvent(Ok(g), _) => pos'.SetPosition? && CanonicalPosition(pos') && Seen(pos') == Seen(pos) + iset{g}
    case PreviousGtids(Ok(p)) => pos' == if cfg.usePreviousGtids then p else pos
    case _ => pos' == pos
  }

  lemma PositionStep(cfg: Config, evs: seq<Event>, i: nat, pos: Position, pos': Position)
    requires ProperStream(cfg, evs) && i < |evs| && Live(evs, i)
    requires PositionAt(cfg, evs, i, pos) && Advances(cfg, evs[i], pos, pos')
    ensures PositionAt(cfg, evs, i + 1, pos')
  {
    hide Seen, CanonicalPosition, HaveFormat;
  }

  /** Appending a GTID changes the position exactly when the GTID was not seen yet. */
  lemma AppendChanges(pos: Position, g: Gtid, pos': Position)
    requires pos'.SetPosition? && Seen(pos') == Seen(pos) + iset{g}
    requires CanonicalPosition(pos) && CanonicalPosition(pos')
    ensures pos' == pos <==> g in Seen(pos)
  {
    if g in Seen(pos) {
      assert Seen(pos) == Seen(pos');
      PositionUnique(pos, pos');
    }
  }

  method TimestampStatement(timestamp: nat, charset: Option<Charset>) returns (s: FullStatement)
    ensures s == SetTimestamp(timestamp, charset)
  {
    return FullStatement(Statement(Set, "SET TIMESTAMP=" + FormatNat(timestamp), charset), "", None);
  }

  /** What a statement of our database adds to a transaction. The charset is sent along when the client has not told
      its own, or has another. */
  method QueryStatements(cfg: Config, q: Query, category: Category, timestamp: nat) returns (r: seq<FullStatement>)
    ensures r == [SetTimestamp(timestamp, SentCharset(cfg, q)),
                  FullStatement(Statement(category, q.sql, SentCharset(cfg, q)), "", None)]
  {
    var charset: Option<Charset> := None;
    if cfg.clientCharset.None? || (q.charset.Some? && q.charset.value != cfg.clientCharset.value) {
      charset := q.charset;
    }
    var setTimestamp := TimestampStatement(timestamp, charset);
    return [setTimestamp, FullStatement(Statement(category, q.sql, charset), "", None)];
  }

  /** The switch of `parseEvents` for an interpreted event, up to the call of commit it may end in. */
  method HandleEvent(cfg: Config, ghost evs: seq<Event>, ghost i: nat, ev: Event, tableMaps: map<nat, TableEntry>,
                     statements: seq<FullStatement>, autocommit: bool, pos: Position)
    returns (failed: bool, tableMaps': map<nat, TableEntry>, statements': seq<FullStatement>, autocommit': bool,
             pos': Position, commits: bool)
    requires ProperStream(cfg, evs) && i < |evs| && evs[i] == ev && Live(evs, i)
    requires LoopState(cfg, evs, i, tableMaps, statements, autocommit, pos)
    ensures failed <==> BodyFails(cfg, ev.body, Tables(cfg, evs, i))
    ensures !failed ==>
      && tableMaps' == Tables(cfg, evs, i + 1)
      && PositionAt(cfg, evs, i + 1, pos')
      && (commits <==> Commits(cfg, evs, i))
      && (Opens(evs, i) ==> statements' == [] && !autocommit')
      && (!Opens(evs, i) ==> statements' == TransactionOf(cfg, evs, i) && autocommit' == autocommit)
    ensures failed ==> !commits
  {
    hide Seen, CanonicalPosition, HaveFormat, CategoryOf, FormatNat, SetTimestamp, SentCharset, InTransaction, SeenAt,
      NilAt, LastBoundary, Contributions;
    failed, tableMaps', statements', autocommit', pos', commits := false, tableMaps, statements, autocommit, pos, false;
    match ev.body {
      case Pseudo(Err) => failed := true;
      case Pseudo(Ok(gtid)) =>
        pos' := AppendGtid(pos, Some(gtid));
        AppendChanges(pos, gtid, pos');
        var same := PositionEqual(pos', pos);
        commits := autocommit && !same;
      case GtidEvent(Err, _) => failed := true;
      case GtidEvent(Ok(gtid), hasBegin) =>
        pos' := AppendGtid(pos, Some(gtid));
        if hasBegin {
          statements', autocommit' := [], false;
        }
      case Xid => commits := true;
      case IntVar(Err) => failed := true;
      case IntVar(Ok((name, value))) =>
        statements' := statements
          + [FullStatement(Statement(Set, "SET " + name + "=" + FormatNat(value), None), "", None)];
      case Rand(Err) => failed := true;
      case Rand(Ok((s1, s2))) =>
        var text := "SET @@RAND_SEED1=" + FormatNat(s1) + ", @@RAND_SEED2=" + FormatNat(s2);
        statements' := statements + [FullStatement(Statement(Set, text, None), "", None)];
      case QueryEvent(Err) => failed := true;
      case QueryEvent(Ok(q)) =>
        var category := CategoryOf(q.sql);
        if category == Begin {
          statements', autocommit' := [], false;
        } else if category == Rollback {
          statements', commits := [], true;
        } else if category == Commit {
          commits := true;
        } else if q.database == "" || q.database == cfg.dbName {
          var added := QueryStatements(cfg, q, category, ev.timestamp);
          statements', commits := statements + added, autocommit;
        }
      case PreviousGtids(newPos) =>
        if cfg.usePreviousGtids {
          if newPos.Err? {
            failed := true;
          } else {
            pos', commits := newPos.value, true;
          }
        }
      case TableMapEvent(_, Err) => failed := true;
      case TableMapEvent(id, Ok(tm)) =>
        tableMaps' := tableMaps[id := TableEntry(tm, false)];
        if tm.database == "" || tm.database == cfg.dbName {
          if !cfg.tableInSchema(tm.name) || !cfg.resolverFound(tm.name) {
            failed := true;
          }
          tableMaps' := tableMaps[id := TableEntry(tm, true)];
        }
      case RowsEvent(id, raw) =>
        if id !in tableMaps {
          failed := true;
        } else if tableMaps[id].known {
          var setTimestamp := TimestampStatement(ev.timestamp, None);
          statements' := statements + [setTimestamp];
          var rows := cfg.rowStatements(raw, tableMaps[id].tm);
          if rows.Err? {
            failed := true;
          } else {
            statements' := statements' + rows.value;
            commits := autocommit;
          }
        }
      case _ =>
    }
    if !failed {
      PositionStep(cfg, evs, i, pos, pos');
    }
  }

  /** How far a run got: the first `n` events were processed, and why it stopped. */
  ghost predicate Outcome(cfg: Config, evs: seq<Event>, cancelled: nat, send: nat -> SendResult,
                          n: nat, sent: seq<Transaction>, err: StreamError)
    requires n <= |evs|
  {
    && (forall k :: 0 <= k < n ==> !Fails(cfg, evs, k))
    && (forall j :: 0 <= j < |SendPoints(cfg, evs, n)| ==> send(j) == SendOk)
    && match err
       case ErrServerEOF => n == |evs| && AllReported(cfg, evs, n, sent)
       case ErrCancelled => n == cancelled && AllReported(cfg, evs, n, sent)
       case ErrEvent => n < |evs| && Fails(cfg, evs, n) && AllReported(cfg, evs, n, sent)
       case _ =>
         && n < |evs| && !Fails(cfg, evs, n) && AllReported(cfg, evs, n + 1, sent)
         && |sent| == |SendPoints(cfg, evs, n)| + 1
         && send(|sent| - 1) == if err == ErrClientEOF then SendEOF else SendError
  }

  /** The body of the loop up to the call of commit it may end in. */
  method ProcessEvent(cfg: Config, evs: seq<Event>, n: nat, format: bool, tableMaps: map<nat, TableEntry>,
                      statements: seq<FullStatement>, autocommit: bool, pos: Position)
    returns (failed: bool, format': bool, tableMaps': map<nat, TableEntry>, statements': seq<FullStatement>,
             autocommit': bool, pos': Position, commits: bool)
    requires ProperStream(cfg, evs) && n < |evs| && format == HaveFormat(evs, n)
    requires LoopState(cfg, evs, n, tableMaps, statements, autocommit, pos)
    ensures failed <==> Fails(cfg, evs, n)
    ensures failed ==> pos' == pos
    ensures !failed ==>
      && format' == HaveFormat(evs, n + 1)
      && (commits <==> Commits(cfg, evs, n))
      && PositionAt(cfg, evs, n + 1, pos')
      && (commits ==>
            statements' == TransactionOf(cfg, evs, n) && LoopState(cfg, evs, n + 1, tableMaps', [], true, pos'))
      && (!commits ==> LoopState(cfg, evs, n + 1, tableMaps', statements', autocommit', pos'))
  {
    hide Live, Tables, Pending, InTransaction, PositionAt, Fails, BodyFails, Commits, TransactionOf, Opens, Closes,
      ProperStream, HaveFormat, Contribution;
    failed, format', tableMaps', statements', autocommit', pos', commits := false, format, tableMaps, statements,
      autocommit, pos, false;
    var ev := evs[n];
    EventKinds(cfg, evs, n);
    CommitFacts(cfg, evs, n);
    if !ev.valid {
      failed := true;
    } else if ev.body.FormatDescription? {
      failed, format' := !ev.body.ok, true;
      SkippedStep(cfg, evs, n, pos);
    } else if !format {
      failed := !ev.body.Rotate?;
      SkippedStep(cfg, evs, n, pos);
    } else if !ev.stripped {
      failed := true;
    } else {
      failed, tableMaps', statements', autocommit', pos',
        commits := HandleEvent(cfg, evs, n, ev, tableMaps, statements, autocommit, pos);
      if failed {
        pos' := pos;
      } else {
        PendingStep(cfg, evs, n);
        InTransactionStep(cfg, evs, n);
      }
    }
  }

  /** `parseEvents`: `send(j)` is the answer of the j-th sendTransaction call, and the context
      is seen done at the event `cancelled` (never, if there is no such event). */
  method ParseEvents(cfg: Config, evs: seq<Event>, cancelled: nat, send: nat -> SendResult)
    returns (n: nat, sent: seq<Transaction>, pos: Position, err: StreamError)
    requires ProperStream(cfg, evs)
    ensures n <= |evs| && Outcome(cfg, evs, cancelled, send, n, sent, err)
    ensures PositionAt(cfg, evs, if err.ErrClientEOF? || err.ErrSend? then n + 1 else n, pos)
  {
    hide ProperStream, LoopState, PositionAt, Fails, Commits, TransactionOf, Encoded, HaveFormat, AllReported,
      SendPoints;
    var statements: seq<FullStatement>, format, autocommit := [], false, true;
    var tableMaps: map<nat, TableEntry> := map[];
    n, sent, pos := 0, [], cfg.startPos;
    InitialState(cfg, evs);
    while n < |evs|
      invariant n <= |evs| && format == HaveFormat(evs, n)
      invariant LoopState(cfg, evs, n, tableMaps, statements, autocommit, pos)
      invariant forall k :: 0 <= k < n ==> !Fails(cfg, evs, k)
      invariant PositionAt(cfg, evs, n, pos)
      invariant AllReported(cfg, evs, n, sent) && |sent| == |SendPoints(cfg, evs, n)|
      invariant forall j :: 0 <= j < |sent| ==> send(j) == SendOk
    {
      if n == cancelled {
        return n, sent, pos, ErrCancelled;
      }
      var failed, commits;
      failed, format, tableMaps, statements, autocommit, pos, commits :=
        ProcessEvent(cfg, evs, n, format, tableMaps, statements, autocommit, pos);
      if failed {
        return n, sent, pos, ErrEvent;
      }
      if commits {
        if evs[n].timestamp >= cfg.timestamp {
          EncodeAt(cfg, evs, n + 1, pos);
          var position := EncodePosition(pos);
          ghost var before := sent;
          sent := sent + [Transaction(Token(evs[n].timestamp, position), statements)];
          ReportedStep(cfg, evs, n, before, sent, pos);
          var answer := send(|sent| - 1);
          if answer != SendOk {
            return n, sent, pos, if answer == SendEOF then ErrClientEOF else ErrSend;
          }
        }
        statements, autocommit := [], true;
      }
      if !commits || evs[n].timestamp < cfg.timestamp {
        UnsentStep(cfg, evs, n, sent);
      }
      n := n + 1;
    }
    return n, sent, pos, ErrServerEOF;
  }

  lemma UnsentStep(cfg: Config, evs: seq<Event>, n: nat, sent: seq<Transaction>)
    requires n < |evs| && AllReported(cfg, evs, n, sent) && !(Commits(cfg, evs, n) && evs[n].timestamp >= cfg.timestamp)
    ensures AllReported(cfg, evs, n + 1, sent) && |sent| == |SendPoints(cfg, evs, n + 1)|
  {
    hide Commits, Reports;
  }

  lemma ReportedStep(cfg: Config, evs: seq<Event>, n: nat, before: seq<Transaction>, sent: seq<Transaction>,
      p: Position)
    requires n < |evs| && AllReported(cfg, evs, n, before) && Commits(cfg, evs, n) && evs[n].timestamp >= cfg.timestamp
    requires PositionAt(cfg, evs, n + 1, p)
    requires sent == before + [Transaction(Token(evs[n].timestamp, Encoded(p)), TransactionOf(cfg, evs, n))]
    ensures AllReported(cfg, evs, n + 1, sent)
    ensures |sent| == |SendPoints(cfg, evs, n + 1)| == |SendPoints(cfg, evs, n)| + 1
  {
    assert Reports(cfg, evs, n, sent[|before|]);
    hide Commits, TransactionOf, Reports;
  }

  lemma InitialState(cfg: Config, evs: seq<Event>)
    requires ProperStream(cfg, evs)
    ensures LoopState(cfg, evs, 0, map[], [], true, cfg.startPos) && !HaveFormat(evs, 0)
    ensures PositionAt(cfg, evs, 0, cfg.startPos) && AllReported(cfg, evs, 0, []) && SendPoints(cfg, evs, 0) == []
  {
  }

  lemma EncodeAt(cfg: Config, evs: seq<Event>, i: nat, p: Position)
    requires i <= |evs| && PositionAt(cfg, evs, i, p)
    ensures CanonicalPosition(p)
  {
  }

  /** The checks before the switch, told apart. */
  lemma EventKinds(cfg: Config, evs: seq<Event>, i: nat)
    requires i < |evs|
    ensures HaveFormat(evs, i + 1) <==> HaveFormat(evs, i) || evs[i].body.FormatDescription?
    ensures Live(evs, i) <==> HaveFormat(evs, i) && !evs[i].body.FormatDescription?
    ensures !evs[i].valid ==> Fails(cfg, evs, i)
    ensures evs[i].valid && evs[i].body.FormatDescription? ==> (Fails(cfg, evs, i) <==> !evs[i].body.ok)
    ensures evs[i].valid && !evs[i].body.FormatDescription? && !HaveFormat(evs, i)
        ==> (Fails(cfg, evs, i) <==> !evs[i].body.Rotate?)
    ensures evs[i].valid && Live(evs, i) ==>
      (Fails(cfg, evs, i) <==> !evs[i].stripped || BodyFails(cfg, evs[i].body, Tables(cfg, evs, i)))
  {
    hide BodyFails, Tables;
    if evs[i].body.FormatDescription? {
      assert HaveFormat(evs, i + 1);
    }
  }

  /** A commit leaves the streamer outside of any transaction; an event that opens one does not commit. */
  lemma CommitFacts(cfg: Config, evs: seq<Event>, i: nat)
    requires i < |evs|
    ensures Opens(evs, i) ==> !Commits(cfg, evs, i)
    ensures Commits(cfg, evs, i) ==> Closes(cfg, evs, i) || !InTransaction(cfg, evs, i)
    ensures Closes(cfg, evs, i) ==> Commits(cfg, evs, i)
    ensures !Commits(cfg, evs, i) && !Opens(evs, i)
        ==> TransactionOf(cfg, evs, i) == Pending(cfg, evs, i) + Contribution(cfg, evs, i)
  {
    hide CategoryOf, InTransaction, Pending, Contribution;
  }
}
