/** A cluster operation (vt/automation/cluster_operation_instance.go, task_containers.go): a serial list of
    containers of tasks, which grows while it is executed. */
module ClusterOperation {
  import opened Prelude
  import opened Text
  import opened AutomationTasks

  /** The tasks in the order in which they run. */
  function Flat(cs: seq<Container>): seq<Task> {
    if cs == [] then [] else cs[0] + Flat(cs[1..])
  }

  lemma {:induction false} FlatAppend(a: seq<Container>, b: seq<Container>)
    ensures Flat(a + b) == Flat(a) + Flat(b)
  {
    if a == [] {
      assert a + b == b;
    } else {
      assert (a + b)[1..] == a[1..] + b;
      FlatAppend(a[1..], b);
    }
  }

  /** Where task j of container i stands among all tasks. */
  function Index(cs: seq<Container>, i: nat, j: nat): nat
    requires i < |cs|
  {
    |Flat(cs[..i])| + j
  }

  lemma FlatSplit(cs: seq<Container>, i: nat)
    requires i < |cs|
    ensures Flat(cs) == Flat(cs[..i]) + cs[i] + Flat(cs[i + 1..]) && Flat(cs[..i + 1]) == Flat(cs[..i]) + cs[i]
  {
    hide *;
    FlatAppend(cs[..i], [cs[i]]);
    FlatAppend(cs[..i + 1], cs[i + 1..]);
    FlatOne(cs[i]);
    assert cs == cs[..i + 1] + cs[i + 1..];
    assert cs[..i + 1] == cs[..i] + [cs[i]];
  }

  lemma FlatOne(c: Container)
    ensures Flat([c]) == c
  {
    assert [c][1..] == [];
    assert c + [] == c;
  }

  function Update(cs: seq<Container>, i: nat, j: nat, t: Task): seq<Container>
    requires i < |cs| && j < |cs[i]|
  {
    cs[i := cs[i][j := t]]
  }

  lemma FlatUpdate(cs: seq<Container>, i: nat, j: nat, t: Task)
    requires i < |cs| && j < |cs[i]|
    ensures var k := Index(cs, i, j);
            k < |Flat(cs)| && Flat(cs)[k] == cs[i][j] && Flat(Update(cs, i, j, t)) == Flat(cs)[k := t]
    ensures Index(Update(cs, i, j, t), i, j) == Index(cs, i, j) && Update(cs, i, j, t)[..i] == cs[..i]
        && Update(cs, i, j, t)[i + 1..] == cs[i + 1..]
  {
    var after := Update(cs, i, j, t);
    FlatSplit(cs, i);
    FlatSplit(after, i);
    assert after[..i] == cs[..i] && after[i + 1..] == cs[i + 1..];
    hide Flat;
    UpdateMiddle(Flat(cs[..i]), cs[i], Flat(cs[i + 1..]), j, t);
  }

  lemma UpdateMiddle<T>(a: seq<T>, b: seq<T>, c: seq<T>, j: nat, t: T)
    requires j < |b|
    ensures (a + b + c)[|a| + j] == b[j] && a + b[j := t] + c == (a + b + c)[|a| + j := t]
  {
  }

  /** InsertTaskContainers: the new containers between the old ones, whose order is unchanged. */
  function Inserted(cs: seq<Container>, more: seq<Container>, pos: nat): seq<Container>
    requires pos <= |cs|
  {
    cs[..pos] + more + cs[pos..]
  }

  lemma FlatInserted(cs: seq<Container>, more: seq<Container>, pos: nat)
    requires pos <= |cs|
    ensures Flat(Inserted(cs, more, pos)) == Flat(cs[..pos]) + Flat(more) + Flat(cs[pos..])
    ensures Flat(cs) == Flat(cs[..pos]) + Flat(cs[pos..])
  {
    FlatAppend(cs[..pos] + more, cs[pos..]);
    FlatAppend(cs[..pos], more);
    FlatAppend(cs[..pos], cs[pos..]);
    assert cs == cs[..pos] + cs[pos..];
  }

  // -------------------------------------------------------------------------------- ids

  /** AddMissingTaskID: tasks without an id get the next numbers. */
  function Numbered(ts: seq<Task>, n: nat): (r: seq<Task>)
    ensures |r| == |ts|
  {
    if ts == [] then []
    else if ts[0].id == "" then [ts[0].(id := FormatNat(n + 1))] + Numbered(ts[1..], n + 1)
    else [ts[0]] + Numbered(ts[1..], n)
  }

  function Missing(ts: seq<Task>): nat {
    if ts == [] then 0 else (if ts[0].id == "" then 1 else 0) + Missing(ts[1..])
  }

  function NumberedAll(cs: seq<Container>, n: nat): (r: seq<Container>)
    ensures |r| == |cs|
  {
    if cs == [] then [] else [Numbered(cs[0], n)] + NumberedAll(cs[1..], n + Missing(cs[0]))
  }

  lemma {:induction false} MissingAppend(a: seq<Task>, b: seq<Task>)
    ensures Missing(a + b) == Missing(a) + Missing(b)
  {
    if a == [] {
      assert a + b == b;
    } else {
      assert (a + b)[1..] == a[1..] + b;
      MissingAppend(a[1..], b);
    }
  }

  lemma NumberedStep(ts: seq<Task>, n: nat)
    requires ts != []
    ensures var gap := ts[0].id == "";
            && Numbered(ts, n) == [if gap then ts[0].(id := FormatNat(n + 1)) else ts[0]]
              + Numbered(ts[1..], if gap then n + 1 else n)
            && Missing(ts) == (if gap then 1 else 0) + Missing(ts[1..])
  {
    hide FormatNat;
  }

  lemma {:induction false} NumberedAppend(a: seq<Task>, b: seq<Task>, n: nat)
    ensures Numbered(a + b, n) == Numbered(a, n) + Numbered(b, n + Missing(a))
        && Missing(a + b) == Missing(a) + Missing(b)
    decreases |a|
  {
    hide *;
    MissingAppend(a, b);
    if a == [] {
      NumberedNothing([], n);
      EmptyParts(b);
      EmptyParts(Numbered(b, n));
    } else {
      NumberedStep(a, n);
      NumberedStep(a + b, n);
      assert (a + b)[1..] == a[1..] + b;
      var t, m := if a[0].id == "" then a[0].(id := FormatNat(n + 1)) else a[0], if a[0].id == "" then n + 1 else n;
      NumberedAppend(a[1..], b, m);
      Associative([t], Numbered(a[1..], m), Numbered(b, m + Missing(a[1..])));
    }
  }

  lemma {:induction false} FlatNumbered(cs: seq<Container>, n: nat)
    ensures Flat(NumberedAll(cs, n)) == Numbered(Flat(cs), n)
    decreases |cs|
  {
    if cs != [] {
      FlatNumbered(cs[1..], n + Missing(cs[0]));
      NumberedAppend(cs[0], Flat(cs[1..]), n);
      assert NumberedAll(cs, n)[1..] == NumberedAll(cs[1..], n + Missing(cs[0]));
    }
  }

  /** One task more, numbered after those before it. */
  lemma NumberedLast(c: seq<Task>, j: nat, n: nat)
    requires j < |c|
    ensures var m, t := n + Missing(c[..j]), c[j];
            && Numbered(c[..j + 1], n) == Numbered(c[..j], n) + [if t.id == "" then t.(id := FormatNat(m + 1)) else t]
            && Missing(c[..j + 1]) == Missing(c[..j]) + if t.id == "" then 1 else 0
  {
    assert c[..j + 1] == c[..j] + [c[j]];
    NumberedAppend(c[..j], [c[j]], n);
    NumberedOne(c[j], n + Missing(c[..j]));
  }

  lemma NumberedOne(t: Task, n: nat)
    ensures Numbered([t], n) == [if t.id == "" then t.(id := FormatNat(n + 1)) else t]
        && Missing([t]) == if t.id == "" then 1 else 0
  {
    assert [t][1..] == [];
  }

  lemma NumberedAllLast(cs: seq<Container>, i: nat, n: nat)
    requires i < |cs|
    ensures var m := n + Missing(Flat(cs[..i]));
            && NumberedAll(cs[..i + 1], n) == NumberedAll(cs[..i], n) + [Numbered(cs[i], m)]
            && Missing(Flat(cs[..i + 1])) == Missing(Flat(cs[..i])) + Missing(cs[i])
  {
    hide Flat, Numbered, Missing, NumberedAll;
    assert cs[..i + 1] == cs[..i] + [cs[i]];
    NumberedAllAppend(cs[..i], cs[i], n);
    FlatSplit(cs, i);
    MissingAppend(Flat(cs[..i]), cs[i]);
  }

  lemma {:induction false} NumberedAllAppend(a: seq<Container>, c: Container, n: nat)
    ensures NumberedAll(a + [c], n) == NumberedAll(a, n) + [Numbered(c, n + Missing(Flat(a)))]
    decreases |a|
  {
    hide *;
    if a == [] {
      EmptyParts([c]);
      NumberedFirst([c], n);
      NumberedNone([], n);
      NumberedNone([c][1..], n + Missing(c));
      EmptyParts([Numbered(c, n)]);
    } else {
      NumberedFirst(a, n);
      NumberedFirst(a + [c], n);
      assert (a + [c])[1..] == a[1..] + [c];
      var m := n + Missing(a[0]);
      NumberedAllAppend(a[1..], c, m);
      Associative([Numbered(a[0], n)], NumberedAll(a[1..], m), [Numbered(c, m + Missing(Flat(a[1..])))]);
    }
  }

  lemma NumberedFirst(cs: seq<Container>, n: nat)
    requires cs != []
    ensures NumberedAll(cs, n) == [Numbered(cs[0], n)] + NumberedAll(cs[1..], n + Missing(cs[0]))
    ensures Missing(Flat(cs)) == Missing(cs[0]) + Missing(Flat(cs[1..]))
  {
    NumberedAppend(cs[0], Flat(cs[1..]), 0);
  }

  lemma NumberedNothing(ts: seq<Task>, n: nat)
    requires ts == []
    ensures Numbered(ts, n) == [] && Missing(ts) == 0
  {
  }

  lemma NumberedNone(cs: seq<Container>, n: nat)
    requires cs == []
    ensures NumberedAll(cs, n) == [] && Missing(Flat(cs)) == 0
  {
  }

  /** Numbering changes nothing but the ids; tasks that all lack one get n+1, n+2, ... in order. */
  lemma {:induction false} NumberedIs(ts: seq<Task>, n: nat, i: nat)
    requires i < |ts| && forall k :: 0 <= k < |ts| ==> ts[k].id == ""
    ensures Numbered(ts, n)[i] == ts[i].(id := FormatNat(n + 1 + i)) && Missing(ts) == |ts|
    decreases i, |ts|
  {
    if |ts| > 1 {
      NumberedIs(ts[1..], n + 1, if i == 0 then 0 else i - 1);
    }
  }

  ghost predicate Issued(id: string, n: nat) { exists k :: 1 <= k <= n && id == FormatNat(k) }

  /** Every task has a number up to n as its id, and no two tasks the same. */
  ghost predicate DistinctIds(ts: seq<Task>, n: nat) {
    && (forall i :: 0 <= i < |ts| ==> Issued(ts[i].id, n))
    && (forall i, j :: 0 <= i < j < |ts| ==> ts[i].id != ts[j].id)
  }

  lemma OldNumber(id: string, n: nat)
    requires Issued(id, n)
    ensures ParseDigits(id).Some? && ParseDigits(id).value <= n
  {
    var k :| 1 <= k <= n && id == FormatNat(k);
    ParseFormat(k);
  }

  lemma NewNumber(more: seq<Task>, n: nat, i: nat)
    requires i < |more| && forall k :: 0 <= k < |more| ==> more[k].id == ""
    ensures var id := Numbered(more, n)[i].id; ParseDigits(id) == Some(n + 1 + i) && Issued(id, n + |more|)
  {
    NumberedIs(more, n, i);
    ParseFormat(n + 1 + i);
  }

  /** New tasks without ids, numbered from n on, put anywhere among tasks numbered up to n. */
  lemma InsertedIds(a: seq<Task>, more: seq<Task>, b: seq<Task>, n: nat)
    requires DistinctIds(a + b, n) && forall k :: 0 <= k < |more| ==> more[k].id == ""
    ensures DistinctIds(a + Numbered(more, n) + b, n + |more|)
  {
    var numbered := Numbered(more, n);
    forall i | 0 <= i < |numbered| ensures ParseDigits(numbered[i].id) == Some(n + 1 + i)
      && Issued(numbered[i].id, n + |more|) {
      NewNumber(more, n, i);
    }
    Halves(a, b, n);
    hide Numbered, ParseDigits, FormatNat;
    Between(a, numbered, b, n, n + |more|);
  }

  /** Each part has distinct ids, with numbers up to n. */
  lemma Halves(a: seq<Task>, b: seq<Task>, n: nat)
    requires DistinctIds(a + b, n)
    ensures forall i :: 0 <= i < |a| ==> Issued(a[i].id, n)
    ensures forall i :: 0 <= i < |b| ==> Issued(b[i].id, n)
    ensures forall i, j :: 0 <= i < j < |a| ==> a[i].id != a[j].id
    ensures forall i, j :: 0 <= i < j < |b| ==> b[i].id != b[j].id
    ensures forall i, j :: 0 <= i < |a| && 0 <= j < |b| ==> a[i].id != b[j].id
  {
    hide Issued;
    assert forall i :: 0 <= i < |a| ==> (a + b)[i] == a[i];
    assert forall i :: 0 <= i < |b| ==> (a + b)[|a| + i] == b[i];
    forall i | 0 <= i < |b| ensures Issued(b[i].id, n) {
      assert Issued((a + b)[|a| + i].id, n);
    }
    forall i, j | 0 <= i < j < |b| ensures b[i].id != b[j].id {
      assert (a + b)[|a| + i].id != (a + b)[|a| + j].id;
    }
    forall i, j | 0 <= i < |a| && 0 <= j < |b| ensures a[i].id != b[j].id {
      assert (a + b)[i].id != (a + b)[|a| + j].id;
    }
  }

  lemma Between(a: seq<Task>, mid: seq<Task>, b: seq<Task>, n: nat, m: nat)
    requires n <= m
    requires forall i :: 0 <= i < |a| ==> Issued(a[i].id, n)
    requires forall i :: 0 <= i < |b| ==> Issued(b[i].id, n)
    requires forall i, j :: 0 <= i < j < |a| ==> a[i].id != a[j].id
    requires forall i, j :: 0 <= i < j < |b| ==> b[i].id != b[j].id
    requires forall i, j :: 0 <= i < |a| && 0 <= j < |b| ==> a[i].id != b[j].id
    requires forall i :: 0 <= i < |mid| ==> ParseDigits(mid[i].id) == Some(n + 1 + i) && Issued(mid[i].id, m)
    ensures DistinctIds(a + mid + b, m)
  {
    hide ParseDigits, FormatNat;
    var all := a + mid + b;
    forall i | 0 <= i < |a| ensures Issued(a[i].id, m) && ParseDigits(a[i].id).Some?
      && ParseDigits(a[i].id).value <= n {
      OldNumber(a[i].id, n);
    }
    forall i | 0 <= i < |b| ensures Issued(b[i].id, m) && ParseDigits(b[i].id).Some?
      && ParseDigits(b[i].id).value <= n {
      OldNumber(b[i].id, n);
    }
    hide Issued;
  }

  // ------------------------------------------------------------------------------ class

  datatype OpState = OpNotStarted | OpDone

  /** A deep copy of an operation. */
  datatype Operation = Operation(id: string, serialTasks: seq<Container>, state: OpState, error: string)

  class ClusterOperationInstance {
    const id: string
    var serialTasks: seq<Container>
    var state: OpState
    var error: string
    var lastId: nat

    constructor (id: string, initial: Container)
      ensures this.id == id && serialTasks == NumberedAll([initial], 0) && lastId == Missing(initial)
          && state == OpNotStarted && error == ""
    {
      this.id := id;
      serialTasks := [];
      state := OpNotStarted;
      error := "";
      lastId := 0;
      new;
      InsertTaskContainers([initial], 0);
      assert [] + NumberedAll([initial], 0) + [] == NumberedAll([initial], 0);
      assert Flat([initial]) == initial + [];
      assert initial + [] == initial;
    }

    function Clone(): Operation
      reads this
    {
      Operation(id, serialTasks, state, error)
    }

    method GetNextId() returns (r: string)
      modifies this`lastId
      ensures lastId == old(lastId) + 1 && r == FormatNat(lastId)
    {
      lastId := lastId + 1;
      r := FormatNat(lastId);
    }

    /** One container of AddMissingTaskID. */
    method AddMissing(c: Container) returns (r: Container)
      modifies this`lastId
      ensures r == Numbered(c, old(lastId)) && lastId == old(lastId) + Missing(c)
    {
      hide *;
      r := [];
      NumberedNothing(c[..0], lastId);
      for j := 0 to |c|
        invariant r == Numbered(c[..j], old(lastId)) && lastId == old(lastId) + Missing(c[..j])
      {
        NumberedLast(c, j, old(lastId));
        var t := c[j];
        if t.id == "" {
          var next := GetNextId();
          t := t.(id := next);
        }
        r := r + [t];
      }
      EmptyParts(c);
    }

    method AddMissingTaskIds(cs: seq<Container>) returns (r: seq<Container>)
      modifies this`lastId
      ensures r == NumberedAll(cs, old(lastId)) && lastId == old(lastId) + Missing(Flat(cs))
    {
      hide *;
      r := [];
      NumberedNone(cs[..0], lastId);
      for i := 0 to |cs|
        invariant r == NumberedAll(cs[..i], old(lastId)) && lastId == old(lastId) + Missing(Flat(cs[..i]))
      {
        NumberedAllLast(cs, i, old(lastId));
        var c := AddMissing(cs[i]);
        r := r + [c];
      }
      EmptyParts(cs);
    }

    method InsertTaskContainers(more: seq<Container>, pos: nat)
      requires pos <= |serialTasks|
      modifies this`serialTasks, this`lastId
      ensures serialTasks == Inserted(old(serialTasks), NumberedAll(more, old(lastId)), pos)
          && lastId == old(lastId) + Missing(Flat(more))
    {
      var numbered := AddMissingTaskIds(more);
      serialTasks := serialTasks[..pos] + numbered + serialTasks[pos..];
    }
  }
}
