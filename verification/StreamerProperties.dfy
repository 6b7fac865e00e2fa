/** What holds of every run of the streamer: no statement is lost, repeated or
    reordered, transactions are sent whole, and the positions sent are exact. */
module StreamerProperties {
  import opened Prelude
  import opened Text
  import opened Mysql56GtidSet
  import opened Position
  import opened Streamer

  // ---------------------------------------------------------------- conservation

  datatype Fate = Sent | DroppedByBegin | DroppedByRollback | DroppedByTimestamp

  /** The statements collected up to one boundary event, and what became of them. */
  datatype Batch = Batch(event: nat, statements: seq<FullStatement>, fate: Fate)

  ghost function BatchAt(cfg: Config, evs: seq<Event>, k: nat): seq<Batch>
    requires k < |evs|
  {
    if Opens(evs, k) then [Batch(k, Pending(cfg, evs, k), DroppedByBegin)]
    else if !Commits(cfg, evs, k) then []
    else if RollsBack(evs, k) then [Batch(k, Pending(cfg, evs, k), DroppedByRollback)]
    else [Batch(k, TransactionOf(cfg, evs, k), if evs[k].timestamp >= cfg.timestamp then Sent else DroppedByTimestamp)]
  }

  ghost function Batches(cfg: Config, evs: seq<Event>, n: nat): seq<Batch>
    requires n <= |evs|
  {
    if n == 0 then [] else Batches(cfg, evs, n - 1) + BatchAt(cfg, evs, n - 1)
  }

  ghost function AllStatements(bs: seq<Batch>): seq<FullStatement> {
    if bs == [] then [] else AllStatements(bs[..|bs| - 1]) + bs[|bs| - 1].statements
  }

  lemma ContributionsSplit(cfg: Config, evs: seq<Event>, a: nat, b: nat, c: nat)
    requires a <= b <= c <= |evs|
    ensures Contributions(cfg, evs, a, c) == Contributions(cfg, evs, a, b) + Contributions(cfg, evs, b, c)
    decreases c
  {
    hide Contribution;
    if b < c {
      ContributionsSplit(cfg, evs, a, b, c - 1);
    }
  }

  lemma BoundaryContributesNothing(cfg: Config, evs: seq<Event>, k: nat)
    requires k < |evs| && (Opens(evs, k) || RollsBack(evs, k))
    ensures Contribution(cfg, evs, k) == []
  {
    hide CategoryOf;
  }

  /** A boundary closes a batch with what was pending and what the event itself contributed. */
  lemma BatchStep(cfg: Config, evs: seq<Event>, k: nat)
    requires k < |evs|
    ensures var b := BatchAt(cfg, evs, k);
            if Opens(evs, k) || Commits(cfg, evs, k)
            then |b| == 1 && b[0].statements == Pending(cfg, evs, k) + Contribution(cfg, evs, k)
              && Pending(cfg, evs, k + 1) == []
            else b == [] && Pending(cfg, evs, k + 1) == Pending(cfg, evs, k) + Contribution(cfg, evs, k)
  {
    PendingStep(cfg, evs, k);
    if Opens(evs, k) || RollsBack(evs, k) {
      BoundaryContributesNothing(cfg, evs, k);
    }
    hide Opens, Commits, RollsBack, Pending, Contribution;
  }

  /** Every statement an event contributed is in exactly one batch, or still pending, in the order contributed. */
  lemma {:induction false} Conservation(cfg: Config, evs: seq<Event>, n: nat)
    requires n <= |evs|
    ensures AllStatements(Batches(cfg, evs, n)) + Pending(cfg, evs, n) == Contributions(cfg, evs, 0, n)
  {
    hide Opens, Commits, Pending, Contribution, AllStatements, BatchAt;
    if n == 0 {
      NothingPendingAtStart(cfg, evs);
      assert AllStatements([]) == [] by { NoBatches(); }
    } else {
      var k := n - 1;
      Conservation(cfg, evs, k);
      BatchStep(cfg, evs, k);
      var bs, b := Batches(cfg, evs, k), BatchAt(cfg, evs, k);
      Associative(AllStatements(bs), Pending(cfg, evs, k), Contribution(cfg, evs, k));
      if b == [] {
        assert bs + b == bs;
      } else {
        assert b == [b[0]];
        AllStatementsAppend(bs, b[0]);
        assert AllStatements(bs + b) + [] == AllStatements(bs + b);
      }
    }
  }

  lemma NoBatches()
    ensures AllStatements([]) == []
  {
  }

  lemma AllStatementsAppend(bs: seq<Batch>, b: Batch)
    ensures AllStatements(bs + [b]) == AllStatements(bs) + b.statements
  {
    assert (bs + [b])[..|bs|] == bs;
  }

  lemma NothingPendingAtStart(cfg: Config, evs: seq<Event>)
    ensures Pending(cfg, evs, 0) == []
  {
  }

  ghost function SentEvents(bs: seq<Batch>): seq<nat> {
    if bs == [] then []
    else SentEvents(bs[..|bs| - 1]) + (if bs[|bs| - 1].fate == Sent then [bs[|bs| - 1].event] else [])
  }

  ghost function NotRollbacks(evs: seq<Event>, points: seq<nat>): seq<nat>
    requires forall j :: 0 <= j < |points| ==> points[j] < |evs|
  {
    if points == [] then []
    else
      NotRollbacks(evs, points[..|points| - 1]) +
      (if RollsBack(evs, points[|points| - 1]) then [] else [points[|points| - 1]])
  }

  /** The sent batches are the transactions sent, one for one and in order, apart from the
      empty transactions that rollbacks send. */
  lemma {:induction false} SentBatches(cfg: Config, evs: seq<Event>, n: nat)
    requires n <= |evs|
    ensures SentEvents(Batches(cfg, evs, n)) == NotRollbacks(evs, SendPoints(cfg, evs, n))
  {
    hide Opens, Commits, RollsBack, Pending, TransactionOf, SentEvents, NotRollbacks;
    if n == 0 {
      NoSends(evs);
    } else {
      var k := n - 1;
      SentBatches(cfg, evs, k);
      CommitFacts(cfg, evs, k);
      RollbackCommits(cfg, evs, k);
      var bs, b := Batches(cfg, evs, k), BatchAt(cfg, evs, k);
      if b == [] {
        assert bs + b == bs;
      } else {
        assert b == [b[0]];
        SentEventsAppend(bs, b[0]);
      }
      var points := SendPoints(cfg, evs, k);
      NotRollbacksAppend(evs, points, k);
      assert points + [] == points;
      assert SentEvents(bs) + [] == SentEvents(bs);
    }
  }

  lemma NoSends(evs: seq<Event>)
    ensures SentEvents([]) == [] && NotRollbacks(evs, []) == []
  {
  }

  /** A sent batch is the transaction of its event. */
  lemma {:induction false} SentStatements(cfg: Config, evs: seq<Event>, n: nat, b: Batch)
    requires n <= |evs| && b in Batches(cfg, evs, n) && b.fate == Sent
    ensures b.event < n && b.statements == TransactionOf(cfg, evs, b.event)
  {
    hide Opens, Commits, RollsBack, Pending, TransactionOf;
    if b in Batches(cfg, evs, n - 1) {
      SentStatements(cfg, evs, n - 1, b);
    }
  }

  lemma RollbackCommits(cfg: Config, evs: seq<Event>, k: nat)
    requires k < |evs|
    ensures RollsBack(evs, k) ==> Commits(cfg, evs, k)
  {
    hide CategoryOf, Live;
  }

  lemma SentEventsAppend(bs: seq<Batch>, b: Batch)
    ensures SentEvents(bs + [b]) == SentEvents(bs) + if b.fate == Sent then [b.event] else []
  {
    assert (bs + [b])[..|bs|] == bs;
  }

  lemma NotRollbacksAppend(evs: seq<Event>, points: seq<nat>, k: nat)
    requires k < |evs| && forall j :: 0 <= j < |points| ==> points[j] < |evs|
    ensures NotRollbacks(evs, points + [k]) == NotRollbacks(evs, points) + if RollsBack(evs, k) then [] else [k]
  {
    assert (points + [k])[..|points|] == points;
  }

  /** Send points are distinct and increasing: no event sends two transactions. */
  lemma {:induction false} SendPointsIncrease(cfg: Config, evs: seq<Event>, n: nat)
    requires n <= |evs|
    ensures forall i, j :: 0 <= i < j < |SendPoints(cfg, evs, n)| ==>
              SendPoints(cfg, evs, n)[i] < SendPoints(cfg, evs, n)[j]
  {
    hide Commits;
    if n > 0 {
      SendPointsIncrease(cfg, evs, n - 1);
    }
  }

  /** The statements of all transactions sent, one after the other. */
  ghost function SentText(sent: seq<Transaction>): seq<FullStatement> {
    if sent == [] then [] else SentText(sent[..|sent| - 1]) + sent[|sent| - 1].statements
  }

  ghost function SentPart(bs: seq<Batch>): seq<FullStatement> {
    if bs == [] then []
    else SentPart(bs[..|bs| - 1]) + if bs[|bs| - 1].fate == Sent then bs[|bs| - 1].statements else []
  }

  /** No statement was dropped by a nested BEGIN, a rollback or the timestamp. */
  ghost predicate NothingDropped(bs: seq<Batch>) {
    forall i :: 0 <= i < |bs| && bs[i].fate != Sent ==> bs[i].statements == []
  }

  /** What was sent is exactly the batches that were not dropped, in order. So the statements sent, followed by the
      pending ones, are all that was contributed if and only if none was dropped. */
  lemma SentConserved(cfg: Config, evs: seq<Event>, n: nat, sent: seq<Transaction>)
    requires n <= |evs| && AllReported(cfg, evs, n, sent)
    ensures SentText(sent) == SentPart(Batches(cfg, evs, n))
    ensures SentText(sent) + Pending(cfg, evs, n) == Contributions(cfg, evs, 0, n)
        <==> NothingDropped(Batches(cfg, evs, n))
  {
    hide *;
    var bs, rest := Batches(cfg, evs, n), Pending(cfg, evs, n);
    SentIsSentPart(cfg, evs, n, sent);
    Conservation(cfg, evs, n);
    DroppedPart(bs);
    if SentPart(bs) + rest == AllStatements(bs) + rest {
      assert |SentPart(bs)| == |AllStatements(bs)|;
    }
  }

  lemma {:induction false} SentIsSentPart(cfg: Config, evs: seq<Event>, n: nat, sent: seq<Transaction>)
    requires n <= |evs| && AllReported(cfg, evs, n, sent)
    ensures SentText(sent) == SentPart(Batches(cfg, evs, n))
  {
    hide *;
    if n == 0 {
      NothingSentYet(cfg, evs, sent);
    } else {
      var k := n - 1;
      var bs := Batches(cfg, evs, k);
      var before := SentBefore(cfg, evs, k, sent);
      SentIsSentPart(cfg, evs, k, before);
      BatchesStep(cfg, evs, k, bs);
    }
  }

  lemma NothingSentYet(cfg: Config, evs: seq<Event>, sent: seq<Transaction>)
    requires AllReported(cfg, evs, 0, sent)
    ensures SentText(sent) == SentPart(Batches(cfg, evs, 0))
  {
  }

  /** What had been sent before event k, and what it added. */
  lemma SentBefore(cfg: Config, evs: seq<Event>, k: nat, sent: seq<Transaction>) returns (before: seq<Transaction>)
    requires k < |evs| && AllReported(cfg, evs, k + 1, sent)
    ensures AllReported(cfg, evs, k, before)
    ensures SentText(sent) == SentText(before) + if Commits(cfg, evs, k)
        && evs[k].timestamp >= cfg.timestamp then TransactionOf(cfg, evs, k) else []
  {
    hide Commits, TransactionOf, PositionAt, Encoded;
    before := sent;
    if Commits(cfg, evs, k) && evs[k].timestamp >= cfg.timestamp {
      before := sent[..|sent| - 1];
      assert Reports(cfg, evs, SendPoints(cfg, evs, k + 1)[|sent| - 1], sent[|sent| - 1]);
    } else {
      EmptyParts(SentText(before));
      hide SentText;
    }
  }

  lemma BatchesStep(cfg: Config, evs: seq<Event>, k: nat, bs: seq<Batch>)
    requires k < |evs| && bs == Batches(cfg, evs, k)
    ensures SentPart(Batches(cfg, evs, k + 1))
         == SentPart(bs) + if Commits(cfg, evs, k)
           && evs[k].timestamp >= cfg.timestamp then TransactionOf(cfg, evs, k) else []
  {
    CommitFacts(cfg, evs, k);
    RollbackSendsNothing(cfg, evs, k);
    hide Opens, Commits, RollsBack, TransactionOf, Pending, SentPart;
    EmptyParts(bs);
    EmptyParts(SentPart(bs));
    var b := BatchAt(cfg, evs, k);
    if b != [] {
      SentPartAppend(bs, b[0]);
      assert b == [b[0]];
    }
  }

  lemma RollbackSendsNothing(cfg: Config, evs: seq<Event>, k: nat)
    requires k < |evs|
    ensures RollsBack(evs, k) ==> TransactionOf(cfg, evs, k) == []
  {
    hide RollsBack, Contribution, Pending;
  }

  lemma SentPartAppend(bs: seq<Batch>, b: Batch)
    ensures SentPart(bs + [b]) == SentPart(bs) + if b.fate == Sent then b.statements else []
  {
    assert (bs + [b])[..|bs|] == bs;
  }

  /** The sent part is everything exactly when nothing was dropped; otherwise it is shorter. */
  lemma {:induction false} DroppedPart(bs: seq<Batch>)
    ensures |SentPart(bs)| <= |AllStatements(bs)|
    ensures NothingDropped(bs) ==> SentPart(bs) == AllStatements(bs)
    ensures |SentPart(bs)| == |AllStatements(bs)| ==> NothingDropped(bs)
  {
    if bs != [] {
      var front, b := bs[..|bs| - 1], bs[|bs| - 1];
      DroppedPart(front);
      assert NothingDropped(bs) <==> NothingDropped(front) && (b.fate != Sent ==>
               b.statements == []) by { DroppedLast(bs); }
      hide NothingDropped;
    }
  }

  lemma DroppedLast(bs: seq<Batch>)
    requires bs != []
    ensures var front, b := bs[..|bs| - 1], bs[|bs| - 1];
            NothingDropped(bs) <==> NothingDropped(front) && (b.fate != Sent ==> b.statements == [])
  {
    var front := bs[..|bs| - 1];
    assert forall i :: 0 <= i < |front| ==> front[i] == bs[i];
  }

  // ------------------------------------------------------------------- atomicity

  lemma InsideTransaction(cfg: Config, evs: seq<Event>, b: nat, k: nat)
    requires b < k <= |evs| && Opens(evs, b)
    requires forall j :: b < j < k ==> !Closes(cfg, evs, j)
    ensures InTransaction(cfg, evs, k)
  {
    hide Opens, Closes;
  }

  /** Between the event that opens a transaction and the one that closes it nothing is sent. */
  lemma {:induction false} NothingSentInside(cfg: Config, evs: seq<Event>, b: nat, n: nat)
    requires b < n <= |evs| && Opens(evs, b)
    requires forall j :: b < j < n ==> !Closes(cfg, evs, j)
    ensures SendPoints(cfg, evs, n) == SendPoints(cfg, evs, b)
    decreases n
  {
    hide *;
    NotCommitted(cfg, evs, b, n - 1);
    NoSendWithoutCommit(cfg, evs, n);
    if n > b + 1 {
      NothingSentInside(cfg, evs, b, n - 1);
    }
  }

  lemma NotCommitted(cfg: Config, evs: seq<Event>, b: nat, k: nat)
    requires b <= k < |evs| && Opens(evs, b)
    requires forall j :: b < j <= k ==> !Closes(cfg, evs, j)
    ensures !Commits(cfg, evs, k)
  {
    CommitFacts(cfg, evs, k);
    if k > b {
      InsideTransaction(cfg, evs, b, k);
      hide Closes, Opens, Standalone, InTransaction;
    }
  }

  lemma NoSendWithoutCommit(cfg: Config, evs: seq<Event>, n: nat)
    requires 0 < n <= |evs|
    ensures !Commits(cfg, evs, n - 1) ==> SendPoints(cfg, evs, n) == SendPoints(cfg, evs, n - 1)
  {
    hide Commits;
  }

  lemma {:induction false} BoundaryInside(cfg: Config, evs: seq<Event>, b: nat, k: nat)
    requires b < k <= |evs| && Opens(evs, b)
    requires forall j :: b < j < k ==> !Closes(cfg, evs, j) && !Opens(evs, j)
    ensures LastBoundary(cfg, evs, k) == b + 1
    decreases k
  {
    if k > b + 1 {
      InsideTransaction(cfg, evs, b, k - 1);
      hide Standalone, InTransaction, Closes, Opens;
      BoundaryInside(cfg, evs, b, k - 1);
    }
  }

  /** The transaction that is closed consists of exactly the statements contributed since it was opened. */
  lemma WholeTransaction(cfg: Config, evs: seq<Event>, b: nat, k: nat)
    requires b < k < |evs| && Opens(evs, b) && Closes(cfg, evs, k)
    requires forall j :: b < j < k ==> !Closes(cfg, evs, j) && !Opens(evs, j)
    ensures Commits(cfg, evs, k)
    ensures TransactionOf(cfg, evs, k) == if RollsBack(evs, k) then [] else Contributions(cfg, evs, b + 1, k + 1)
  {
    BoundaryInside(cfg, evs, b, k);
    hide Closes, Opens, Contribution, RollsBack;
  }

  // ----------------------------------------------------- transactions by their text

  /** Event i is an interpreted statement that starts with this word, in any letter case. */
  ghost predicate SaysAt(evs: seq<Event>, i: nat, word: string)
    requires i < |evs|
  {
    Live(evs, i) && evs[i].body.QueryEvent? && evs[i].body.query.Ok? && Says(evs[i].body.query.value.sql, word)
  }

  /** Event i is an interpreted statement that neither begins nor ends a transaction. */
  ghost predicate Ordinary(evs: seq<Event>, i: nat)
    requires i < |evs|
  {
    && Live(evs, i) && evs[i].body.QueryEvent? && evs[i].body.query.Ok?
    && !SaysAt(evs, i, "begin") && !SaysAt(evs, i, "commit") && !SaysAt(evs, i, "rollback")
  }

  /** A statement of our database is sent after the time it was run at, both with its charset unless that is the one
      the client has told, or there is none. */
  ghost function SpelledOut(cfg: Config, ev: Event): seq<FullStatement>
    requires ev.body.QueryEvent? && ev.body.query.Ok?
  {
    var q := ev.body.query.value;
    var same := cfg.clientCharset.Some? && (q.charset.None? || q.charset.value == cfg.clientCharset.value);
    var charset := if same then None else q.charset;
    if q.database == cfg.dbName || q.database == "" then
      [FullStatement(Statement(Set, "SET TIMESTAMP=" + FormatNat(ev.timestamp), charset), "", None),
       FullStatement(Statement(CategoryOf(q.sql), q.sql, charset), "", None)]
    else []
  }

  ghost function AllSpelledOut(cfg: Config, evs: seq<Event>, a: nat, b: nat): seq<FullStatement>
    requires b <= |evs| && forall i :: a <= i < b ==> Ordinary(evs, i)
    decreases b
  {
    if a >= b then []
    else
      assert Ordinary(evs, b - 1);
      AllSpelledOut(cfg, evs, a, b - 1) + SpelledOut(cfg, evs[b - 1])
  }

  lemma SayingOpens(cfg: Config, evs: seq<Event>, i: nat)
    requires i < |evs| && SaysAt(evs, i, "begin")
    ensures Opens(evs, i)
  {
    var sql := evs[i].body.query.value.sql;
    hide Says, CategoryOf;
    CategoryBySaying(sql, Begin);
    assert Keyword("begin", Begin);
  }

  lemma SayingCloses(cfg: Config, evs: seq<Event>, i: nat)
    requires i < |evs| && (SaysAt(evs, i, "commit") || SaysAt(evs, i, "rollback"))
    ensures Closes(cfg, evs, i) && (RollsBack(evs, i) <==> !SaysAt(evs, i, "commit")) && Contribution(cfg, evs, i) == []
  {
    var sql := evs[i].body.query.value.sql;
    hide Says, CategoryOf;
    CategoryBySaying(sql, Commit);
    CategoryBySaying(sql, Rollback);
    assert Keyword("commit", Commit) && Keyword("rollback", Rollback);
  }

  lemma OrdinaryGoesOn(cfg: Config, evs: seq<Event>, i: nat)
    requires i < |evs| && Ordinary(evs, i)
    ensures !Opens(evs, i) && !Closes(cfg, evs, i) && Contribution(cfg, evs, i) == SpelledOut(cfg, evs[i])
  {
    var sql := evs[i].body.query.value.sql;
    hide Says, CategoryOf, FormatNat;
    CategoryBySaying(sql, Begin);
    CategoryBySaying(sql, Commit);
    CategoryBySaying(sql, Rollback);
  }

  lemma {:induction false} ContributedSpelledOut(cfg: Config, evs: seq<Event>, a: nat, b: nat)
    requires b <= |evs| && forall i :: a <= i < b ==> Ordinary(evs, i)
    ensures Contributions(cfg, evs, a, b) == AllSpelledOut(cfg, evs, a, b)
    decreases b
  {
    hide Ordinary, SpelledOut, Contribution;
    if a < b {
      ContributedSpelledOut(cfg, evs, a, b - 1);
      OrdinaryGoesOn(cfg, evs, b - 1);
    }
  }

  lemma {:induction false} FindSendPoint(cfg: Config, evs: seq<Event>, n: nat, k: nat) returns (j: nat)
    requires k < n <= |evs| && Commits(cfg, evs, k) && evs[k].timestamp >= cfg.timestamp
    ensures j < |SendPoints(cfg, evs, n)| && SendPoints(cfg, evs, n)[j] == k
  {
    hide Commits;
    if k == n - 1 {
      j := |SendPoints(cfg, evs, n)| - 1;
    } else {
      j := FindSendPoint(cfg, evs, n - 1, k);
    }
  }

  /** A transaction that is begun and committed by its text, in any letter case, is sent once, with exactly the
      statements in between, spelled out; one that is rolled back is sent empty. */
  lemma TextTransaction(cfg: Config, evs: seq<Event>, b: nat, k: nat, n: nat, sent: seq<Transaction>) returns (j: nat)
    requires b < k < n <= |evs| && AllReported(cfg, evs, n, sent) && evs[k].timestamp >= cfg.timestamp
    requires SaysAt(evs, b, "begin") && (SaysAt(evs, k, "commit") || SaysAt(evs, k, "rollback"))
    requires forall i :: b < i < k ==> Ordinary(evs, i)
    ensures j < |sent| && SendPoints(cfg, evs, n)[j] == k && sent[j].token.timestamp == evs[k].timestamp
    ensures sent[j].statements == if SaysAt(evs, k, "commit") then AllSpelledOut(cfg, evs, b + 1, k) else []
  {
    hide *;
    SayingOpens(cfg, evs, b);
    SayingCloses(cfg, evs, k);
    forall i | b < i < k ensures !Closes(cfg, evs, i) && !Opens(evs, i) {
      OrdinaryGoesOn(cfg, evs, i);
    }
    WholeTransaction(cfg, evs, b, k);
    ContributedSpelledOut(cfg, evs, b + 1, k);
    ContributionsLast(cfg, evs, b + 1, k);
    j := FindSendPoint(cfg, evs, n, k);
    ReportedAt(cfg, evs, n, sent, j);
  }

  lemma ContributionsLast(cfg: Config, evs: seq<Event>, a: nat, k: nat)
    requires a <= k < |evs| && Contribution(cfg, evs, k) == []
    ensures Contributions(cfg, evs, a, k + 1) == Contributions(cfg, evs, a, k)
  {
    hide Contribution;
    EmptyParts(Contributions(cfg, evs, a, k));
  }

  lemma ReportedAt(cfg: Config, evs: seq<Event>, n: nat, sent: seq<Transaction>, j: nat)
    requires n <= |evs| && AllReported(cfg, evs, n, sent) && j < |SendPoints(cfg, evs, n)|
    ensures var k := SendPoints(cfg, evs, n)[j];
            && j < |sent| && k < |evs| && sent[j].statements == TransactionOf(cfg, evs, k)
            && sent[j].token.timestamp == evs[k].timestamp
  {
    hide TransactionOf, PositionAt;
    assert Reports(cfg, evs, SendPoints(cfg, evs, n)[j], sent[j]);
  }

  // ------------------------------------------------------------------- positions

  /** The GTIDs carried by the interpreted events among the first i. */
  ghost function GtidsRead(evs: seq<Event>, i: nat): iset<Gtid>
    requires i <= |evs|
  {
    iset g: Gtid | ReadBefore(evs, i, g)
  }

  ghost predicate ReadBefore(evs: seq<Event>, i: nat, g: Gtid)
    requires i <= |evs|
  {
    exists k :: 0 <= k < i && CarriesGtid(evs, k, g)
  }

  ghost predicate CarriesGtid(evs: seq<Event>, k: nat, g: Gtid)
    requires k < |evs|
  {
    Live(evs, k) && (evs[k].body == Pseudo(Ok(g)) || (evs[k].body.GtidEvent? && evs[k].body.gtid == Ok(g)))
  }

  /** Without PREVIOUS_GTIDS, what was seen is the start position and the GTIDs read. */
  lemma {:induction false} SeenIsStartPlusRead(cfg: Config, evs: seq<Event>, i: nat)
    requires i <= |evs| && !cfg.usePreviousGtids
    ensures SeenAt(cfg, evs, i) == Seen(cfg.startPos) + GtidsRead(evs, i)
  {
    hide Seen;
    if i > 0 {
      SeenIsStartPlusRead(cfg, evs, i - 1);
      forall g ensures g in GtidsRead(evs, i) <==> g in GtidsRead(evs, i - 1) || CarriesGtid(evs, i - 1, g) {
      }
    }
  }

  /** Every token sent decodes to the exact position: the start set and all the GTIDs read so far. */
  lemma TokenExact(cfg: Config, evs: seq<Event>, n: nat, sent: seq<Transaction>, j: nat)
    requires n <= |evs| && !cfg.usePreviousGtids
    requires AllReported(cfg, evs, n, sent) && j < |sent|
    ensures var at := SendPoints(cfg, evs, n)[j];
            var r := DecodePosition(sent[j].token.position);
            && r.Ok? && CanonicalPosition(r.value)
            && Seen(r.value) == Seen(cfg.startPos) + GtidsRead(evs, at + 1)
            && (r.value.NilPosition? <==> NilAt(cfg, evs, at + 1))
  {
    hide Seen, DecodePosition, Encoded, CanonicalPosition, TransactionOf, NilAt, SeenAt, GtidsRead;
    var at := SendPoints(cfg, evs, n)[j];
    assert Reports(cfg, evs, at, sent[j]);
    var p :| PositionAt(cfg, evs, at + 1, p) && sent[j].token.position == Encoded(p);
    PositionRoundTrip(p);
    SeenIsStartPlusRead(cfg, evs, at + 1);
  }

  lemma ReadGrows(evs: seq<Event>, i: nat, j: nat)
    requires i <= j <= |evs|
    ensures GtidsRead(evs, i) <= GtidsRead(evs, j)
  {
  }

  /** Successive tokens never go back; the one exception is the step from no position to a first one. */
  lemma TokensAdvance(cfg: Config, evs: seq<Event>, n: nat, sent: seq<Transaction>, i: nat, j: nat)
    requires n <= |evs| && !cfg.usePreviousGtids
    requires AllReported(cfg, evs, n, sent) && i <= j < |sent|
    ensures var points := SendPoints(cfg, evs, n);
            var p, q := DecodePosition(sent[i].token.position), DecodePosition(sent[j].token.position);
            && p.Ok? && q.Ok?
            && (IsAtLeast(q.value, p.value) <==> (NilAt(cfg, evs, points[i] + 1) ==> NilAt(cfg, evs, points[j] + 1)))
  {
    hide DecodePosition, Reports, GtidsRead, Seen;
    TokenExact(cfg, evs, n, sent, i);
    TokenExact(cfg, evs, n, sent, j);
    SendPointsIncrease(cfg, evs, n);
    var points := SendPoints(cfg, evs, n);
    ReadGrows(evs, points[i] + 1, points[j] + 1);
    hide SendPoints;
    assert NilAt(cfg, evs, points[j] + 1) ==> NilAt(cfg, evs, points[i] + 1);
  }

  /** From a non-nil start position every token is at least every earlier one. */
  lemma TokensNeverGoBack(cfg: Config, evs: seq<Event>, n: nat, sent: seq<Transaction>, i: nat, j: nat)
    requires n <= |evs| && !cfg.usePreviousGtids && cfg.startPos.SetPosition?
    requires AllReported(cfg, evs, n, sent) && i <= j < |sent|
    ensures DecodePosition(sent[i].token.position).Ok? && DecodePosition(sent[j].token.position).Ok?
    ensures IsAtLeast(DecodePosition(sent[j].token.position).value, DecodePosition(sent[i].token.position).value)
  {
    hide DecodePosition, AllReported, SendPoints, IsAtLeast;
    TokensAdvance(cfg, evs, n, sent, i, j);
  }
}
