/** The automation scheduler (vt/automation/scheduler.go): it runs cluster operations task by task, lets tasks add
    further tasks, records a checkpoint after each, and keeps track of active and finished operations. */
module Scheduler {
  import opened Prelude
  import opened Text
  import opened AutomationTasks
  import opened ClusterOperation

  /** What the run of a leaf task gives: tasks call out to other systems, so this is a parameter. */
  datatype LeafResult = LeafOk(output: string) | LeafErr(output: string, message: string)

  /** The leaf runs from one number up to another all succeeded. */
  ghost predicate AllOk(world: nat -> LeafResult, from: nat, to: nat) {
    forall k :: from <= k < to ==> world(k).LeafOk?
  }

  /** One of these leaf runs failed without an error text. */
  ghost predicate Silent(world: nat -> LeafResult, from: nat, to: nat) {
    exists k :: from <= k < to && world(k).LeafErr? && world(k).message == ""
  }

  lemma RunsJoin(world: nat -> LeafResult, a: nat, b: nat, c: nat)
    requires a <= b <= c && AllOk(world, a, b)
    ensures AllOk(world, b, c) <==> AllOk(world, a, c)
    ensures Silent(world, b, c) <==> Silent(world, a, c)
  {
  }

  // ------------------------------------------------------------------------- invariants

  /** If a task is done, every earlier task is done without an error. */
  predicate PrefixDone(ts: seq<Task>) { forall a, b :: 0 <= a < b < |ts| && ts[b].state.Done? ==> ts[a].Clean() }

  predicate CleanUpTo(ts: seq<Task>, k: nat) { k <= |ts| && forall a :: 0 <= a < k ==> ts[a].Clean() }

  /** The tasks after one of them succeeded and possibly added more, behind the rest of its container. */
  function Stepped(ts: seq<Task>, k: nat, t: Task, m: nat, more: seq<Task>): seq<Task>
    requires k < m <= |ts|
  {
    ts[k := t][..m] + more + ts[m..]
  }

  /** Success of task k, the first one not known to be done: the done tasks are still a prefix, one longer. */
  lemma SuccessKeepsPrefix(ts: seq<Task>, k: nat, t: Task, m: nat, more: seq<Task>)
    requires k < m <= |ts| && PrefixDone(ts) && CleanUpTo(ts, k) && t.Clean()
    requires (more != [] ==> !ts[k].state.Done?) && forall i :: 0 <= i < |more| ==> !more[i].state.Done?
    ensures PrefixDone(Stepped(ts, k, t, m, more)) && CleanUpTo(Stepped(ts, k, t, m, more), k + 1)
  {
    var us := Stepped(ts, k, t, m, more);
    assert forall i :: 0 <= i < k ==> us[i] == ts[i];
    assert us[k] == t;
    forall a, b | 0 <= a < b < |us| && us[b].state.Done? ensures us[a].Clean() {
      if b > k {
        var b' := if b < m then b else b - |more|;
        assert us[b] == ts[b'] && b' > k;
        assert ts[k].Clean();
        assert more == [] && us[a] == ts[k := t][a];
      }
    }
  }

  /** Failure of task k: nothing before it failed, nothing after it has run. */
  lemma FailureKeepsPrefix(ts: seq<Task>, k: nat, t: Task)
    requires k < |ts| && PrefixDone(ts) && CleanUpTo(ts, k) && !ts[k].Clean()
    ensures PrefixDone(ts[k := t]) && CleanUpTo(ts[k := t], k) && forall b :: k < b < |ts| ==> !ts[b].state.Done?
  {
  }

  lemma SteppedIds(ts: seq<Task>, k: nat, t: Task, m: nat, more: seq<Task>, n: nat)
    requires k < m <= |ts| && DistinctIds(ts, n) && t.id == ts[k].id && forall i :: 0 <= i < |more| ==> more[i].id == ""
    ensures DistinctIds(ts[k := t], n) && DistinctIds(Stepped(ts, k, t, m, Numbered(more, n)), n + |more|)
  {
    var us := ts[k := t];
    assert forall i :: 0 <= i < |us| ==> us[i].id == ts[i].id;
    assert us == us[..m] + us[m..] && us[m..] == ts[m..];
    InsertedIds(us[..m], more, us[m..], n);
  }

  function Composites(ts: seq<Task>): nat {
    if ts == [] then 0 else (if IsComposite(ts[0].name) then 1 else 0) + Composites(ts[1..])
  }

  predicate IsComposite(name: Name) { SpecOf(name).Some? && SpecOf(name).value.composite }

  lemma CompositeNames(name: Name)
    ensures IsComposite(name) <==> name == HorizontalReshardingTask || name == VerticalSplitTask
    ensures IsComposite(name) ==> SpecOf(name).Some?
  {
  }

  lemma {:induction false} CompositesAppend(a: seq<Task>, b: seq<Task>)
    ensures Composites(a + b) == Composites(a) + Composites(b)
  {
    if a == [] {
      assert a + b == b;
    } else {
      assert (a + b)[1..] == a[1..] + b;
      CompositesAppend(a[1..], b);
    }
  }

  lemma {:induction false} NoComposites(ts: seq<Task>)
    requires forall i :: 0 <= i < |ts| ==> !IsComposite(ts[i].name)
    ensures Composites(ts) == 0
  {
    if ts != [] {
      NoComposites(ts[1..]);
    }
  }

  lemma {:induction false} SomeComposite(ts: seq<Task>, j: nat)
    requires j < |ts| && IsComposite(ts[j].name)
    ensures Composites(ts) >= 1
  {
    if j > 0 {
      SomeComposite(ts[1..], j - 1);
    }
  }

  /** What holds of the tasks of an operation at every checkpoint. */
  ghost predicate Good(ts: seq<Task>, n: nat) {
    PrefixDone(ts) && DistinctIds(ts, n) && forall i :: 0 <= i < |ts| && !ts[i].state.Done? ==> ts[i].error == ""
  }

  lemma {:induction false} FlatProper(cs: seq<Container>)
    requires ProperLeaves(cs)
    ensures forall k :: 0 <= k < |Flat(cs)| ==> ProperLeaf(Flat(cs)[k])
  {
    hide ProperLeaf;
    if cs != [] {
      assert forall j :: 0 <= j < |cs[0]| ==> ProperLeaf(cs[0][j]);
      FlatProper(cs[1..]);
    }
  }

  /** Emitted tasks after numbering: unstarted, error-free leaves. */
  lemma EmittedTasks(ts: seq<Task>, n: nat)
    requires forall k :: 0 <= k < |ts| ==> ProperLeaf(ts[k])
    ensures Missing(ts) == |ts|
    ensures forall k :: 0 <= k < |ts| ==>
              var u := Numbered(ts, n)[k]; !u.state.Done? && u.error == "" && !IsComposite(u.name)
  {
    if ts != [] {
      NumberedIs(ts, n, 0);
    }
    forall k | 0 <= k < |ts|
      ensures var u := Numbered(ts, n)[k]; !u.state.Done? && u.error == "" && !IsComposite(u.name)
    {
      NumberedIs(ts, n, k);
      assert ProperLeaf(ts[k]);
    }
  }

  lemma SteppedGood(ts: seq<Task>, k: nat, t: Task, m: nat, more: seq<Task>, n: nat)
    requires k < m <= |ts| && Good(ts, n) && CleanUpTo(ts, k) && t.Clean() && t.id == ts[k].id
    requires (more != [] ==> !ts[k].state.Done?) && forall i :: 0 <= i < |more| ==> ProperLeaf(more[i])
    ensures var us := Stepped(ts, k, t, m, Numbered(more, n)); Good(us, n + |more|) && CleanUpTo(us, k + 1)
  {
    EmittedTasks(more, n);
    assert forall i :: 0 <= i < |more| ==> ProperLeaf(more[i]) ==> more[i].id == "";
    hide ProperLeaf, IsComposite, Numbered, Missing;
    SuccessKeepsPrefix(ts, k, t, m, Numbered(more, n));
    SteppedIds(ts, k, t, m, more, n);
    hide PrefixDone, DistinctIds, CleanUpTo;
  }

  /** The containers after task j of container i was marked and its emitted containers inserted behind container i. */
  function Grown(cs: seq<Container>, i: nat, j: nat, t: Task, more: seq<Container>, n: nat): seq<Container>
    requires i < |cs| && j < |cs[i]|
  {
    Inserted(Update(cs, i, j, t), NumberedAll(more, n), i + 1)
  }

  lemma GrownParts(cs: seq<Container>, i: nat, j: nat, t: Task, more: seq<Container>, n: nat)
    requires i < |cs| && j < |cs[i]|
    ensures var ds := Grown(cs, i, j, t, more, n);
            && |ds| == |cs| + |more| && ds[..i] == cs[..i] && ds[i] == cs[i][j := t]
            && ds[i + 1..] == NumberedAll(more, n) + cs[i + 1..]
  {
    hide NumberedAll;
    var us := Update(cs, i, j, t);
    assert us[..i + 1] == cs[..i] + [cs[i][j := t]] && us[i + 1..] == cs[i + 1..];
    hide Update;
  }

  lemma GrownFlat(cs: seq<Container>, i: nat, j: nat, t: Task, more: seq<Container>, n: nat)
    requires i < |cs| && j < |cs[i]|
    ensures var k, m := Index(cs, i, j), |Flat(cs[..i + 1])|;
            && k < m <= |Flat(cs)| && Flat(cs)[k] == cs[i][j]
            && Flat(Grown(cs, i, j, t, more, n)) == Stepped(Flat(cs), k, t, m, Numbered(Flat(more), n))
  {
    var us := Update(cs, i, j, t);
    var k, m := Index(cs, i, j), |Flat(cs[..i + 1])|;
    FlatUpdate(cs, i, j, t);
    FlatSplit(cs, i);
    FlatSplit(us, i);
    FlatNumbered(more, n);
    FlatInserted(us, NumberedAll(more, n), i + 1);
    FlatInserted(cs, [], i + 1);
    hide Flat, Numbered, NumberedAll, Update, Inserted;
    assert Flat(us)[..m] == Flat(us[..i + 1]);
    assert Flat(cs)[m..] == Flat(cs[i + 1..]);
  }

  /** Everything the loops rely on survives the success of the next task. */
  lemma StepKeeps(cs: seq<Container>, i: nat, j: nat, t: Task, more: seq<Container>, n: nat)
    requires i < |cs| && j < |cs[i]| && Good(Flat(cs), n) && CleanUpTo(Flat(cs), Index(cs, i, j))
    requires t.Clean() && t.id == cs[i][j].id && ProperLeaves(more) && (more != [] ==> !cs[i][j].state.Done?)
    ensures var ds := Grown(cs, i, j, t, more, n);
            && Good(Flat(ds), n + Missing(Flat(more))) && CleanUpTo(Flat(ds), Index(cs, i, j) + 1)
            && Composites(Flat(ds[i + 1..])) == Composites(Flat(cs[i + 1..]))
  {
    hide *;
    var k, m := Index(cs, i, j), |Flat(cs[..i + 1])|;
    GrownFlat(cs, i, j, t, more, n);
    GrownParts(cs, i, j, t, more, n);
    FlatProper(more);
    EmittedTasks(Flat(more), n);
    FlatNumbered(more, n);
    FlatAppend(NumberedAll(more, n), cs[i + 1..]);
    CompositesAppend(Flat(NumberedAll(more, n)), Flat(cs[i + 1..]));
    NoComposites(Numbered(Flat(more), n));
    FlatOfNone();
    SteppedGood(Flat(cs), k, t, m, Flat(more), n);
  }

  /** Task k failed: all before it are done without an error, none after it was finished. */
  predicate FailedAt(ts: seq<Task>, k: nat) {
    k < |ts| && CleanUpTo(ts, k) && ts[k].state.Done? && forall b :: k < b < |ts| ==> !ts[b].state.Done?
  }

  lemma FailureKeeps(cs: seq<Container>, i: nat, j: nat, t: Task, n: nat)
    requires i < |cs| && j < |cs[i]| && Good(Flat(cs), n) && CleanUpTo(Flat(cs), Index(cs, i, j))
    requires t.state.Done? && t.id == cs[i][j].id && !cs[i][j].Clean()
    ensures var us := Flat(Grown(cs, i, j, t, [], n));
            Good(us, n + Missing(Flat([]))) && FailedAt(us, Index(cs, i, j)) && us[Index(cs, i, j)] == t
  {
    var ts, k := Flat(cs), Index(cs, i, j);
    FlatUpdate(cs, i, j, t);
    NothingInserted(Update(cs, i, j, t), i + 1, n);
    hide Flat, Update, Inserted, NumberedAll, DistinctIds, Index;
    FailureKeepsPrefix(ts, k, t);
    SteppedIds(ts, k, t, k + 1, [], n);
  }

  lemma FlatOfNone()
    ensures Flat([]) == []
  {
  }

  // -------------------------------------------------------------------------- the tasks

  /** What running a task gives: its output, an error, and the containers it wants to add. */
  datatype Ran = Succeeded(output: string, emitted: Option<seq<Container>>) | Broke(output: string, message: string)

  function MarkSucceeded(t: Task, output: string): Task { t.(state := TaskState.Done, output := output) }

  function MarkFailed(t: Task, output: string, message: string): Task {
    t.(state := TaskState.Done, output := output, error := message)
  }

  /** runTask: a task that is done is not run again; a composite task gives its plan; any other asks the outside
      world. */
  function ResultOf(t: Task, leaf: LeafResult): Ran {
    if t.state.Done? then (if t.error != "" then Broke("", t.error) else Succeeded(t.output, None))
    else if SpecOf(t.name).None? then Broke("", "no implementation found")
    else if IsComposite(t.name) then Succeeded("", Some(PlanOf(t.name, t.parameters)))
    else
      match leaf
      case LeafOk(output) => Succeeded(output, None)
      case LeafErr(output, message) => Broke(output, message)
  }

  /** A leaf that fails without an error text is marked like one that succeeded. */
  lemma SilentFailure(t: Task, output: string)
    requires !t.state.Done? && SpecOf(t.name).Some? && !IsComposite(t.name)
    ensures ResultOf(t, LeafErr(output, "")) == Broke(output, "") && MarkFailed(t, output, "").Clean()
    ensures MarkFailed(t, output, "") == MarkSucceeded(t, output) || t.error != ""
  {
  }

  /** The containers a task adds when it is run. */
  function Emits(t: Task): seq<Container> {
    if !t.state.Done? && IsComposite(t.name) then PlanOf(t.name, t.parameters) else []
  }

  lemma EmitsIs(t: Task, leaf: LeafResult)
    requires ResultOf(t, leaf).Succeeded?
    ensures Emits(t) == match ResultOf(t, leaf).emitted case None => [] case Some(cs) => cs
    ensures ProperLeaves(Emits(t)) && (Emits(t) != [] ==> IsComposite(t.name) && !t.state.Done?)
  {
    PlansAreProper(t.name, t.parameters);
    EmptyIsProper();
    hide SpecOf, PlanOf, ProperLeaves;
  }

  // What a whole operation amounts to.

  type Work = (Name, Parameters)

  function Works(c: Container): (ws: seq<Work>)
    ensures |ws| == |c| && forall j :: 0 <= j < |c| ==> ws[j] == (c[j].name, c[j].parameters)
  {
    if c == [] then [] else [(c[0].name, c[0].parameters)] + Works(c[1..])
  }

  function AllWorks(cs: seq<Container>): (ws: seq<seq<Work>>)
    ensures |ws| == |cs|
  {
    if cs == [] then [] else [Works(cs[0])] + AllWorks(cs[1..])
  }

  /** What the first j tasks of a container add behind it: the plan of the last one comes first. */
  function Emitted(c: Container, j: nat): seq<seq<Work>>
    requires j <= |c|
  {
    if j == 0 then [] else AllWorks(Emits(c[j - 1])) + Emitted(c, j - 1)
  }

  /** All the work of an operation: each container, followed by the plans of its composite tasks. */
  function Expanded(cs: seq<Container>): seq<seq<Work>> {
    if cs == [] then [] else [Works(cs[0])] + (Emitted(cs[0], |cs[0]|) + Expanded(cs[1..]))
  }

  lemma {:induction false} AllWorksAppend(a: seq<Container>, b: seq<Container>)
    ensures AllWorks(a + b) == AllWorks(a) + AllWorks(b)
  {
    if a == [] {
      EmptyParts(b);
      EmptyParts(AllWorks(b));
    } else {
      assert (a + b)[1..] == a[1..] + b;
      AllWorksAppend(a[1..], b);
      hide Works;
      Associative([Works(a[0])], AllWorks(a[1..]), AllWorks(b));
    }
  }

  lemma {:induction false} NoneEmitted(c: Container, j: nat)
    requires j <= |c| && forall l :: 0 <= l < |c| ==> !IsComposite(c[l].name)
    ensures Emitted(c, j) == []
  {
    if j > 0 {
      NoneEmitted(c, j - 1);
    }
  }

  lemma {:induction false} NumberedWorks(ts: seq<Task>, n: nat)
    ensures Works(Numbered(ts, n)) == Works(ts)
    decreases |ts|
  {
    if ts != [] {
      NumberedStep(ts, n);
      hide Numbered, FormatNat;
      NumberedWorks(ts[1..], if ts[0].id == "" then n + 1 else n);
      assert Numbered(ts, n)[1..] == Numbered(ts[1..], if ts[0].id == "" then n + 1 else n);
    }
  }

  /** Plans consist of leaves, so behind their container they add just themselves to the work. */
  lemma {:induction false} PlanExpands(more: seq<Container>, n: nat, rest: seq<Container>)
    requires ProperLeaves(more)
    ensures Expanded(NumberedAll(more, n) + rest) == AllWorks(more) + Expanded(rest)
    decreases |more|
  {
    hide *;
    if more == [] {
      NumberedNone([], n);
      WorksNone();
      EmptyParts(rest);
      EmptyParts(Expanded(rest));
    } else {
      var c, tail := Numbered(more[0], n), NumberedAll(more[1..], n + Missing(more[0]));
      ProperFirst(more);
      PlanExpands(more[1..], n + Missing(more[0]), rest);
      NumberedWorks(more[0], n);
      LeavesEmitNothing(more[0], n);
      NumberedFirst(more, n);
      ExpandedFirst(c, tail + rest);
      Associative([c], tail, rest);
      WorksFirst(more);
      EmptyParts(Expanded(tail + rest));
      Associative([Works(more[0])], AllWorks(more[1..]), Expanded(rest));
    }
  }

  lemma ProperFirst(cs: seq<Container>)
    requires cs != [] && ProperLeaves(cs)
    ensures ProperLeaves(cs[1..]) && forall l :: 0 <= l < |cs[0]| ==> ProperLeaf(cs[0][l])
  {
    hide ProperLeaf;
  }

  lemma WorksNone()
    ensures AllWorks([]) == []
  {
  }

  lemma WorksFirst(cs: seq<Container>)
    requires cs != []
    ensures AllWorks(cs) == [Works(cs[0])] + AllWorks(cs[1..])
  {
  }

  lemma ExpandedFirst(c: Container, rest: seq<Container>)
    ensures Expanded([c] + rest) == [Works(c)] + (Emitted(c, |c|) + Expanded(rest))
  {
    assert ([c] + rest)[1..] == rest;
  }

  lemma LeavesEmitNothing(c: Container, n: nat)
    requires forall l :: 0 <= l < |c| ==> ProperLeaf(c[l])
    ensures Emitted(Numbered(c, n), |c|) == []
  {
    EmittedTasks(c, n);
    NoneEmitted(Numbered(c, n), |c|);
  }

  /** While container i is run: it and what precedes it stand for the same work, the tasks not yet run are as they were,
      and the work still to come is what its first j tasks added and what was to come before. */
  ghost predicate Unfolding(start: seq<Container>, cs: seq<Container>, i: nat, j: nat) {
    && i < |start| && i < |cs| && cs[..i] == start[..i] && |cs[i]| == |start[i]| && j <= |cs[i]|
    && Works(cs[i]) == Works(start[i]) && (forall l :: j <= l < |cs[i]| ==> cs[i][l] == start[i][l])
    && Expanded(cs[i + 1..]) == Emitted(start[i], j) + Expanded(start[i + 1..])
  }

  lemma UnfoldingStart(start: seq<Container>, i: nat)
    requires i < |start|
    ensures Unfolding(start, start, i, 0)
  {
    EmptyParts(Expanded(start[i + 1..]));
    hide Expanded, Works;
  }

  lemma UnfoldingNext(start: seq<Container>, cs: seq<Container>, i: nat, j: nat, t: Task, n: nat)
    requires Unfolding(start, cs, i, j) && j < |cs[i]| && t.name == cs[i][j].name
        && t.parameters == cs[i][j].parameters && ProperLeaves(Emits(cs[i][j]))
    ensures Unfolding(start, Grown(cs, i, j, t, Emits(cs[i][j]), n), i, j + 1)
  {
    var more := Emits(cs[i][j]);
    hide Expanded, Works, AllWorks, Emitted, Grown, Emits, ProperLeaves, NumberedAll;
    GrownParts(cs, i, j, t, more, n);
    PlanExpands(more, n, cs[i + 1..]);
    SameWorks(cs[i], j, t);
    EmittedStep(start[i], j);
    Associative(AllWorks(more), Emitted(start[i], j), Expanded(start[i + 1..]));
  }

  lemma SameWorks(c: Container, j: nat, t: Task)
    requires j < |c| && t.name == c[j].name && t.parameters == c[j].parameters
    ensures Works(c[j := t]) == Works(c)
  {
  }

  lemma EmittedStep(c: Container, j: nat)
    requires j < |c|
    ensures Emitted(c, j + 1) == AllWorks(Emits(c[j])) + Emitted(c, j)
  {
  }

  /** After container i the work of the rest is what is left of the work that was to come from container i on. */
  ghost predicate Unfolded(start: seq<Container>, cs: seq<Container>, i: nat) {
    && i < |start| && i < |cs| && AllWorks(cs[..i + 1]) == AllWorks(start[..i]) + [Works(start[i])]
    && Expanded(start[i..]) == [Works(start[i])] + Expanded(cs[i + 1..])
  }

  lemma UnfoldingEnd(start: seq<Container>, cs: seq<Container>, i: nat, j: nat)
    requires Unfolding(start, cs, i, j) && j >= |cs[i]|
    ensures Unfolded(start, cs, i)
  {
    hide Expanded, Works, AllWorks, Emitted;
    assert start[i..] == [start[i]] + start[i + 1..];
    ExpandedFirst(start[i], start[i + 1..]);
    assert cs[..i + 1] == cs[..i] + [cs[i]];
    AllWorksAppend(cs[..i], [cs[i]]);
    OneWork(cs[i]);
  }

  lemma OneWork(c: Container)
    ensures AllWorks([c]) == [Works(c)]
  {
    assert [c][1..] == [];
  }

  /** The work done so far, followed by the work to come, is always the work there was at the start. */
  lemma UnfoldedNext(all: seq<seq<Work>>, start: seq<Container>, cs: seq<Container>, i: nat)
    requires Unfolded(start, cs, i) && all == AllWorks(start[..i]) + Expanded(start[i..])
    ensures all == AllWorks(cs[..i + 1]) + Expanded(cs[i + 1..])
  {
    hide Expanded, Works, AllWorks;
    Associative(AllWorks(start[..i]), [Works(start[i])], Expanded(cs[i + 1..]));
  }

  lemma UnfoldedAll(all: seq<seq<Work>>, cs: seq<Container>)
    requires all == AllWorks(cs) + Expanded(cs[|cs|..])
    ensures all == AllWorks(cs)
  {
    EmptyParts(AllWorks(cs));
  }

  lemma UnfoldedNone(cs: seq<Container>)
    ensures Expanded(cs) == AllWorks(cs[..0]) + Expanded(cs[0..])
  {
    EmptyParts(cs);
    EmptyParts(Expanded(cs));
  }

  /** The whole work of a request for a composite task: itself, then its plan. */
  lemma RequestedWork(name: Name, parameters: Parameters)
    requires IsComposite(name)
    ensures Expanded([[NewTask(name, parameters)]]) == [[(name, parameters)]] + AllWorks(PlanOf(name, parameters))
    ensures Expanded(NumberedAll([[NewTask(name, parameters)]], 0)) == Expanded([[NewTask(name, parameters)]])
  {
    var t := NewTask(name, parameters);
    ExpandedOne(t);
    NumberedFirst([[t]], 0);
    NumberedOne(t, 0);
    NumberedNone([[t]][1..], 0 + Missing([t]));
    EmptyParts([Numbered([t], 0)]);
    ExpandedOne(t.(id := FormatNat(1)));
    hide PlanOf, AllWorks, Expanded, FormatNat, Numbered, NumberedAll;
  }

  lemma ExpandedOne(t: Task)
    requires t.state.NotStarted? && IsComposite(t.name)
    ensures Expanded([[t]]) == [[(t.name, t.parameters)]] + AllWorks(PlanOf(t.name, t.parameters))
  {
    ExpandedFirst([t], []);
    assert [[t]] + [] == [[t]];
    EmittedStep([t], 0);
    assert Works([t]) == [(t.name, t.parameters)];
    assert Emitted([t], 0) == [];
    assert Expanded([]) == [];
    hide PlanOf, AllWorks, Expanded, Works, Emitted, IsComposite;
    EmptyParts(AllWorks(PlanOf(t.name, t.parameters)));
  }

  class Scheduler {
    var registered: set<Name>
    var running: bool
    var lastId: nat
    var queue: seq<ClusterOperationInstance>
    var active: map<string, Operation>
    var finished: map<string, Operation>
    /** What was asked for under each id. */
    ghost var requests: map<string, (Name, Parameters)>
    /** How many leaf tasks have been run. */
    var runs: nat
    /** Every checkpoint that was taken. */
    ghost var checkpoints: seq<Operation>

    /** runTask, for a task in any state. */
    method RunTask(t: Task, world: nat -> LeafResult) returns (r: Ran)
      modifies this`runs
      ensures r == ResultOf(t, world(old(runs)))
      ensures r.Succeeded? ==> AllOk(world, old(runs), runs)
      ensures r.Broke? ==> (r.message == "" <==> Silent(world, old(runs), runs))
      ensures runs == old(runs) + if !t.state.Done? && SpecOf(t.name).Some? && !IsComposite(t.name) then 1 else 0
    {
      CompositeNames(t.name);
      hide SpecOf, IsComposite, ProperLeaves, HorizontalPlan, VerticalPlan;
      if t.state.Done? {
        if t.error != "" {
          return Broke("", t.error);
        }
        return Succeeded(t.output, None);
      }
      if SpecOf(t.name).None? {
        return Broke("", "no implementation found");
      }
      if t.name == HorizontalReshardingTask {
        var plan := RunHorizontalResharding(t.parameters);
        return Succeeded("", Some(plan));
      }
      if t.name == VerticalSplitTask {
        var plan := RunVerticalSplit(t.parameters);
        return Succeeded("", Some(plan));
      }
      var result := world(runs);
      runs := runs + 1;
      match result
      case LeafOk(output) => r := Succeeded(output, None);
      case LeafErr(output, message) => r := Broke(output, message);
    }

    /** validateTaskContainers: every task is known and has valid parameters. */
    method ValidateTaskContainers(cs: seq<Container>) returns (ok: bool)
      ensures ok <==> forall i, j :: 0 <= i < |cs| && 0 <= j < |cs[i]| ==> ValidTask(cs[i][j])
    {
      for i := 0 to |cs|
        invariant forall k, j :: 0 <= k < i && 0 <= j < |cs[k]| ==> ValidTask(cs[k][j])
      {
        for j := 0 to |cs[i]|
          invariant forall l :: 0 <= l < j ==> ValidTask(cs[i][l])
        {
          var spec := SpecOf(cs[i][j].name);
          if spec.None? {
            return false;
          }
          var valid := ValidateParameters(spec.value, cs[i][j].parameters);
          if !valid {
            return false;
          }
        }
      }
      return true;
    }

    method Checkpoint(op: ClusterOperationInstance)
      modifies this`active, this`checkpoints
      ensures active == old(active)[op.id := op.Clone()] && checkpoints == old(checkpoints) + [op.Clone()]
    {
      active := active[op.id := op.Clone()];
      checkpoints := checkpoints + [op.Clone()];
    }

    /** The body of the inner loop: runs task j of container i, marks it, and inserts what it adds behind its container.
        `t` is that task as it was marked, `more` what it added. */
    method RunAt(op: ClusterOperationInstance, i: nat, j: nat, world: nat -> LeafResult)
        returns (ok: bool, ghost t: Task, ghost more: seq<Container>)
      requires i < |op.serialTasks| && j < |op.serialTasks[i]|
      requires !op.serialTasks[i][j].state.Done? ==> op.serialTasks[i][j].error == ""
      modifies this`runs, op`serialTasks, op`lastId, op`error
      ensures ok <==> ResultOf(old(op.serialTasks[i][j]), world(old(runs))).Succeeded?
      ensures var task, r := old(op.serialTasks[i][j]), ResultOf(old(op.serialTasks[i][j]), world(old(runs)));
              if r.Succeeded? then t == MarkSucceeded(task, r.output) && more == Emits(task)
              else t == MarkFailed(task, r.output, r.message) && more == []
      ensures ProperLeaves(more) && (more != [] ==> IsComposite(t.name) && !old(op.serialTasks[i][j]).state.Done?)
      ensures op.serialTasks == Grown(old(op.serialTasks), i, j, t, more, old(op.lastId))
      ensures op.lastId == old(op.lastId) + Missing(Flat(more))
      ensures ok ==> op.error == old(op.error) && t.Clean() && AllOk(world, old(runs), runs)
      ensures !ok ==> more == [] && t.state.Done? && op.error == t.error && !old(op.serialTasks[i][j]).Clean()
      ensures !ok ==> (op.error == "" <==> Silent(world, old(runs), runs))
      ensures runs >= old(runs)
    {
      hide SpecOf, IsComposite, PlanOf, ProperLeaf, ProperLeaves, ValidTask, NumberedAll, Flat, Missing, Inserted,
        Update, Emits, ResultOf,
        AllOk, Silent;
      var task := op.serialTasks[i][j];
      DoneIsRight(task, world(runs));
      var r := RunTask(task, world);
      more := [];
      EmptyIsProper();
      if r.Broke? {
        t := MarkFailed(task, r.output, r.message);
        UpdateLength(op.serialTasks, i, j, t);
        op.serialTasks := Update(op.serialTasks, i, j, MarkFailed(task, r.output, r.message));
        op.error := r.message;
        NothingInserted(op.serialTasks, i + 1, op.lastId);
        return false, t, more;
      }
      t := MarkSucceeded(task, r.output);
      EmitsIs(task, world(old(runs)));
      UpdateLength(op.serialTasks, i, j, t);
      op.serialTasks := Update(op.serialTasks, i, j, MarkSucceeded(task, r.output));
      if r.emitted.None? {
        NothingInserted(op.serialTasks, i + 1, op.lastId);
        return true, t, more;
      }
      ProperIsValid(r.emitted.value);
      var valid := ValidateTaskContainers(r.emitted.value);
      assert valid;
      more := r.emitted.value;
      op.InsertTaskContainers(r.emitted.value, i + 1);
      ok := true;
    }

    /** The inner loop: the tasks of container i, one after the other. */
    method RunContainer(op: ClusterOperationInstance, i: nat, world: nat -> LeafResult)
        returns (ok: bool, ghost failed: nat)
      requires i < |op.serialTasks| && Good(Flat(op.serialTasks), op.lastId)
          && CleanUpTo(Flat(op.serialTasks), Index(op.serialTasks, i, 0))
      requires GoodCheckpoints(checkpoints) && op.id in active
      modifies this`runs, this`active, this`checkpoints, op`serialTasks, op`lastId, op`error
      ensures Good(Flat(op.serialTasks), op.lastId) && GoodCheckpoints(checkpoints)
          && SameOthers(old(active), active, op.id)
      ensures ok ==> op.error == old(op.error) && AfterContainer(old(op.serialTasks), op.serialTasks, i)
      ensures ok ==> Unfolded(old(op.serialTasks), op.serialTasks, i) && AllOk(world, old(runs), runs)
      ensures !ok ==> FailedAt(Flat(op.serialTasks), failed) && op.error == Flat(op.serialTasks)[failed].error
      ensures !ok ==> (op.error == "" <==> Silent(world, old(runs), runs))
      ensures runs >= old(runs)
    {
      hide Good, Flat, CleanUpTo, Index, InContainer, AfterContainer, GoodCheckpoints, PrefixDone, FailedAt, Grown,
        ProperLeaves, IsComposite,
        Composites, Missing, Task.Clean, AllOk, Silent, Unfolding, Unfolded, ResultOf, Emits;
      failed := 0;
      var j := 0;
      ghost var start := op.serialTasks;
      ContainerStart(start, i);
      UnfoldingStart(start, i);
      NoRuns(world, runs);
      while j < |op.serialTasks[i]|
        invariant Unfolding(start, op.serialTasks, i, j) && runs >= old(runs) && AllOk(world, old(runs), runs)
        invariant InContainer(start, op.serialTasks, i, j) && i < |op.serialTasks| && |op.serialTasks[i]| == |start[i]|
        invariant Good(Flat(op.serialTasks), op.lastId) && CleanUpTo(Flat(op.serialTasks), Index(op.serialTasks, i, j))
        invariant GoodCheckpoints(checkpoints) && SameOthers(old(active), active, op.id) && op.error == old(op.error)
        decreases |start[i]| - j
      {
        ghost var before, n := op.serialTasks, op.lastId;
        StaleIs(Flat(before), before, i, j, n);
        ghost var t, more;
        ghost var ran := runs;
        ok, t, more := RunAt(op, i, j, world);
        RunsJoin(world, old(runs), ran, runs);
        if !ok {
          FailureKeeps(before, i, j, t, n);
          failed := Index(before, i, j);
          return false, failed;
        }
        StepKeeps(before, i, j, t, more, n);
        NextInContainer(start, before, i, j, t, more, n);
        UnfoldingNext(start, before, i, j, t, n);
        InContainerIs(start, op.serialTasks, i, j + 1);
        CheckpointsGrow(checkpoints, op.Clone(), op.lastId);
        Checkpoint(op);
        j := j + 1;
      }
      ContainerEnd(start, op.serialTasks, i, j);
      UnfoldingEnd(start, op.serialTasks, i, j);
      ok := true;
    }

    /** The outer loop: containers are run in order until one fails; containers that tasks add are run in their
        turn. It ends because every container passed leaves fewer composite tasks to come, or as many and one
        container less. */
    method RunContainers(op: ClusterOperationInstance, world: nat -> LeafResult) returns (ghost failed: Option<nat>)
      requires Good(Flat(op.serialTasks), op.lastId) && GoodCheckpoints(checkpoints) && op.id in active
          && op.error == ""
      modifies this`runs, this`active, this`checkpoints, op`serialTasks, op`lastId, op`error
      ensures Good(Flat(op.serialTasks), op.lastId) && GoodCheckpoints(checkpoints)
          && SameOthers(old(active), active, op.id)
      ensures Ended(op.serialTasks, op.error, failed, Expanded(old(op.serialTasks)))
      ensures op.error == "" ==> (failed.None? <==> !Silent(world, old(runs), runs))
    {
      failed := None;
      var i := 0;
      ghost var all := Expanded(op.serialTasks);
      NoneBefore(op.serialTasks);
      UnfoldedNone(op.serialTasks);
      NoRuns(world, runs);
      hide Expanded, AllWorks, Unfolded, Good, Flat, CleanUpTo, Index, AfterContainer, GoodCheckpoints, PrefixDone,
        FailedAt, AllClean,
        Composites, Task.Clean, AllOk, Silent, Ended;
      while i < |op.serialTasks|
        invariant runs >= old(runs) && AllOk(world, old(runs), runs)
        invariant i <= |op.serialTasks| && op.error == ""
            && all == AllWorks(op.serialTasks[..i]) + Expanded(op.serialTasks[i..])
        invariant Good(Flat(op.serialTasks), op.lastId) && CleanUpTo(Flat(op.serialTasks), |Flat(op.serialTasks[..i])|)
        invariant GoodCheckpoints(checkpoints) && SameOthers(old(active), active, op.id)
        decreases Composites(Flat(op.serialTasks[i..])), |op.serialTasks| - i
      {
        ghost var before := op.serialTasks;
        IndexIs(before, i);
        var ok;
        ghost var k, ran := 0, runs;
        ok, k := RunContainer(op, i, world);
        RunsJoin(world, old(runs), ran, runs);
        if !ok {
          EndsAt(op.serialTasks, op.error, k, all);
          return Some(k);
        }
        AfterIs(before, op.serialTasks, i);
        UnfoldedNext(all, before, op.serialTasks, i);
        i := i + 1;
      }
      assert op.serialTasks[..i] == op.serialTasks;
      UnfoldedAll(all, op.serialTasks);
      WholeIsClean(Flat(op.serialTasks));
      EndsClean(op.serialTasks, all);
      OkIsNotSilent(world, old(runs), runs);
    }

    /** processClusterOperation: an operation that is not done yet is run to its end and moved from active to
        finished. */
    method ProcessClusterOperation(op: ClusterOperationInstance, world: nat -> LeafResult)
        returns (ghost failed: Option<nat>)
      requires Good(Flat(op.serialTasks), op.lastId) && GoodCheckpoints(checkpoints) && op.id in active
          && op.error == ""
      modifies this`runs, this`active, this`finished, this`checkpoints, op`serialTasks, op`lastId, op`error, op`state
      ensures GoodCheckpoints(checkpoints)
      ensures old(op.state) == OpDone ==> op.state == OpDone && active == old(active) && finished == old(finished)
      ensures old(op.state) != OpDone ==>
                && op.state == OpDone && active == old(active) - {op.id}
                && finished == old(finished)[op.id := op.Clone()]
                && Good(Flat(op.serialTasks), op.lastId)
                && Ended(op.serialTasks, op.error, failed, Expanded(old(op.serialTasks)))
                && (op.error == "" ==> (failed.None? <==> !Silent(world, old(runs), runs)))
    {
      hide Flat, GoodCheckpoints, Good, Expanded, Ended, Silent;
      failed := None;
      if op.state == OpDone {
        return;
      }
      failed := RunContainers(op, world);
      op.state := OpDone;
      CheckpointsGrow(checkpoints, op.Clone(), op.lastId);
      Checkpoint(op);
      active := active - {op.id};
      finished := finished[op.id := op.Clone()];
    }

    /** Every id handed out is in exactly one of active and finished, the active operations are the queued ones, those
        are ready to run their requests, and the finished ones ended as they should. */
    ghost predicate Valid()
      reads this, queue
    {
      && Partitioned(active.Keys, finished.Keys, lastId) && Queued(queue, active.Keys) && AllReady(queue, requests)
      && AllEnded(finished, requests) && GoodCheckpoints(checkpoints) && AllComposite(registered)
    }

    constructor ()
      ensures Valid() && queue == [] && active == map[] && finished == map[] && !running && lastId == 0
      ensures registered == {HorizontalReshardingTask, VerticalSplitTask}
    {
      registered := {HorizontalReshardingTask, VerticalSplitTask};
      running := false;
      lastId := 0;
      queue := [];
      active := map[];
      finished := map[];
      requests := map[];
      runs := 0;
      checkpoints := [];
    }

    /** Run, up to the start of the processing loop. */
    method Run()
      requires Valid()
      modifies this`running
      ensures Valid() && running
    {
      hide Partitioned, Queued, AllReady, AllEnded, GoodCheckpoints, AllComposite;
      running := true;
    }

    /** EnqueueClusterOperation: a valid request gets a new id, and its operation is active. */
    method EnqueueClusterOperation(name: Name, parameters: Parameters) returns (r: Result<string>)
      requires Valid()
      modifies this`lastId, this`active, this`queue, this`requests
      ensures Valid()
      ensures r.Ok? <==> running && name in registered && ValidTask(NewTask(name, parameters))
      ensures r.Err? ==>
                active == old(active) && queue == old(queue) && lastId == old(lastId) && requests == old(requests)
      ensures r.Ok? ==>
                r == Ok(FormatNat(lastId)) && r.value !in finished
                  && requests == old(requests)[r.value := (name, parameters)]
      ensures r.Ok? ==>
                Admitted(old(queue), queue, old(active), active, name, parameters, lastId) && fresh(queue[|old(queue)|])
    {
      if !running {
        return Err;
      }
      if name !in registered {
        return Err;
      }
      var spec := SpecOf(name);
      if spec.None? {
        return Err;
      }
      var valid := ValidateParameters(spec.value, parameters);
      if !valid {
        return Err;
      }
      Admit(name, parameters);
      r := Ok(FormatNat(lastId));
    }

    /** The part of EnqueueClusterOperation after the request was found valid. */
    method Admit(name: Name, parameters: Parameters)
      requires Valid() && IsComposite(name)
      modifies this`lastId, this`active, this`queue, this`requests
      ensures Valid() && lastId == old(lastId) + 1 && FormatNat(lastId) !in finished
      ensures requests == old(requests)[FormatNat(lastId) := (name, parameters)]
      ensures Admitted(old(queue), queue, old(active), active, name, parameters, lastId) && fresh(queue[|old(queue)|])
    {
      hide Partitioned, Queued, AllEnded, GoodCheckpoints, FormatNat, Ready, AllReady, Numbered, NumberedAll, Missing,
        IsComposite, AllComposite;
      ghost var before, q, n, asked := active.Keys, queue, lastId, requests;
      PartitionGrows(before, finished.Keys, n);
      lastId := lastId + 1;
      var id := FormatNat(lastId);
      var op := new ClusterOperationInstance(id, [NewTask(name, parameters)]);
      requests := requests[id := (name, parameters)];
      FreshIsReady(op, name, parameters, requests);
      QueueGrows(q, before, op);
      ReadyGrows(q, op, before, asked, requests);
      EndedStay(finished, asked, id, (name, parameters));
      active := active[id := op.Clone()];
      queue := queue + [op];
      assert active.Keys == before + {id};
    }

    /** One turn of the processing loop. The finished operation is the request and its plan, all done without an
        error, or it failed at one of its tasks and ran none after it. It has no error in the first case, and in
        the second only when that task failed without an error text. */
    method ProcessNext(world: nat -> LeafResult)
      requires Valid() && queue != []
      modifies this, queue
      ensures Valid() && queue == old(queue)[1..] && lastId == old(lastId) && requests == old(requests)
      ensures active == old(active) - {old(queue)[0].id} && finished.Keys == old(finished).Keys + {old(queue)[0].id}
      ensures var id := old(queue)[0].id;
              && id in finished && id in requests && finished == old(finished)[id := finished[id]]
              && var op := finished[id];
                 op.error == "" && !Silent(world, old(runs), runs) ==> Fulfilled(op, requests[id])
    {
      hide Partitioned, Queued, GoodCheckpoints, Ready, AllReady, AllEnded, EndedWell, Good, Ended, Flat, Silent,
        Fulfilled, Expanded,
        AllComposite, NumberedAll, PlanOf, AllWorks, IsComposite, FormatNat, Issued;
      var op := queue[0];
      ghost var q, before, done, was := queue, active.Keys, finished.Keys, finished;
      QueueShrinks(q, before);
      PartitionMoves(before, done, lastId, op.id);
      ReadyIs(q, requests);
      ReadyRest(q, requests);
      assert op !in q[1..];
      queue := queue[1..];
      ghost var failed := ProcessClusterOperation(op, world);
      EndsWell(op.Clone(), op.lastId, failed, requests[op.id]);
      EndedGrows(was, requests, op.id, op.Clone());
      assert active.Keys == before - {op.id} && finished.Keys == done + {op.id};
    }

    /** findClusterOp: any id that was handed out is found, whether its operation is active or finished. */
    method FindClusterOp(id: string) returns (r: Result<Operation>)
      requires Valid()
      ensures r.Ok? <==> Issued(id, lastId)
      ensures r.Ok? ==> r == Ok(if id in active then active[id] else finished[id])
    {
      if id in active {
        return Ok(active[id]);
      }
      if id in finished {
        return Ok(finished[id]);
      }
      return Err;
    }
  }

  /** A new operation with one task was queued and recorded as active, under a new id. */
  ghost predicate Admitted(before: seq<ClusterOperationInstance>, after: seq<ClusterOperationInstance>,
      was: map<string, Operation>,
                           now: map<string, Operation>, name: Name, parameters: Parameters, n: nat)
    reads after
  {
    && |after| == |before| + 1 && after[..|before|] == before
    && after[|before|].id == FormatNat(n) && FormatNat(n) !in was && now == was[FormatNat(n) := after[|before|].Clone()]
    && after[|before|].serialTasks == NumberedAll([[NewTask(name, parameters)]], 0)
  }

  /** Ready to run: not started, with the requested task alone. */
  ghost predicate Ready(op: ClusterOperationInstance, requests: map<string, (Name, Parameters)>)
    reads op
  {
    && op.state == OpNotStarted && op.error == "" && Good(Flat(op.serialTasks), op.lastId)
    && op.id in requests && IsComposite(requests[op.id].0)
    && op.serialTasks == NumberedAll([[NewTask(requests[op.id].0, requests[op.id].1)]], 0)
  }

  /** Every task is done without an error, and the tasks are the requested one and those of its plan, in order. */
  ghost predicate Fulfilled(op: Operation, request: (Name, Parameters)) {
    AllClean(Flat(op.serialTasks)) && AllWorks(op.serialTasks) == [[request]] + AllWorks(PlanOf(request.0, request.1))
  }

  /** How the loops end: without a failure every task is done and error-free and the tasks are the whole work; with
      one, the tasks before the one that failed are, those after it have not run, and its error is reported. */
  ghost predicate Ended(cs: seq<Container>, error: string, failed: Option<nat>, all: seq<seq<Work>>) {
    if failed.None? then error == "" && AllClean(Flat(cs)) && AllWorks(cs) == all
    else FailedAt(Flat(cs), failed.value) && error == Flat(cs)[failed.value].error
  }

  lemma EndsClean(cs: seq<Container>, all: seq<seq<Work>>)
    requires AllClean(Flat(cs)) && AllWorks(cs) == all
    ensures Ended(cs, "", None, all)
  {
  }

  lemma EndsAt(cs: seq<Container>, error: string, k: nat, all: seq<seq<Work>>)
    requires FailedAt(Flat(cs), k) && error == Flat(cs)[k].error
    ensures Ended(cs, error, Some(k), all)
  {
  }

  /** Done: fulfilled, or failed at one of its tasks, whose error it has; its tasks have distinct ids. */
  ghost predicate EndedWell(op: Operation, request: (Name, Parameters)) {
    && op.state == OpDone && GoodOperation(op)
    && ((op.error == "" && Fulfilled(op, request))
        || exists k: nat :: FailedAt(Flat(op.serialTasks), k) && op.error == Flat(op.serialTasks)[k].error)
  }

  predicate AllComposite(names: set<Name>) { forall name :: name in names ==> IsComposite(name) }

  lemma NoRuns(world: nat -> LeafResult, n: nat)
    ensures AllOk(world, n, n)
  {
  }

  lemma OkIsNotSilent(world: nat -> LeafResult, from: nat, to: nat)
    requires AllOk(world, from, to)
    ensures !Silent(world, from, to)
  {
  }

  /** Every id handed out is in exactly one of the two sets. */
  ghost predicate Partitioned(active: set<string>, finished: set<string>, n: nat) {
    active !! finished && forall id :: Issued(id, n) <==> id in active || id in finished
  }

  /** The active operations are the queued ones, each queued once. */
  ghost predicate Queued(queue: seq<ClusterOperationInstance>, active: set<string>) {
    && (forall q :: 0 <= q < |queue| ==> queue[q].id in active)
    && (forall p, q :: 0 <= p < q < |queue| ==> queue[p].id != queue[q].id)
    && (forall id :: id in active ==> exists q :: 0 <= q < |queue| && queue[q].id == id)
  }

  ghost predicate AllReady(queue: seq<ClusterOperationInstance>, requests: map<string, (Name, Parameters)>)
    reads queue
  {
    forall q :: 0 <= q < |queue| ==> Ready(queue[q], requests)
  }

  ghost predicate AllEnded(finished: map<string, Operation>, requests: map<string, (Name, Parameters)>) {
    forall id :: id in finished ==> id in requests && EndedWell(finished[id], requests[id])
  }

  lemma PartitionGrows(active: set<string>, finished: set<string>, n: nat)
    requires Partitioned(active, finished, n)
    ensures Partitioned(active + {FormatNat(n + 1)}, finished, n + 1) && FormatNat(n + 1) !in active
        && FormatNat(n + 1) !in finished
  {
    NextIsNew(n);
    hide Issued;
  }

  lemma PartitionMoves(active: set<string>, finished: set<string>, n: nat, id: string)
    requires Partitioned(active, finished, n) && id in active
    ensures Partitioned(active - {id}, finished + {id}, n)
  {
  }

  lemma QueueGrows(queue: seq<ClusterOperationInstance>, active: set<string>, op: ClusterOperationInstance)
    requires Queued(queue, active) && op.id !in active
    ensures Queued(queue + [op], active + {op.id})
  {
    var grown := queue + [op];
    forall id | id in active + {op.id} ensures exists q :: 0 <= q < |grown| && grown[q].id == id {
      if id in active {
        var q :| 0 <= q < |queue| && queue[q].id == id;
        assert grown[q].id == id;
      } else {
        assert grown[|queue|].id == id;
      }
    }
  }

  lemma QueueShrinks(queue: seq<ClusterOperationInstance>, active: set<string>)
    requires queue != [] && Queued(queue, active)
    ensures Queued(queue[1..], active - {queue[0].id}) && queue[0].id in active
    ensures forall q :: 0 < q < |queue| ==> queue[q] != queue[0]
  {
    var rest := queue[1..];
    assert forall q :: 0 <= q < |rest| ==> rest[q] == queue[q + 1];
    forall id | id in active - {queue[0].id} ensures exists q :: 0 <= q < |rest| && rest[q].id == id {
      var q :| 0 <= q < |queue| && queue[q].id == id;
      assert rest[q - 1].id == id;
    }
  }

  lemma ReadyIs(queue: seq<ClusterOperationInstance>, requests: map<string, (Name, Parameters)>)
    requires queue != [] && AllReady(queue, requests)
    ensures var op := queue[0];
            && op.state == OpNotStarted && op.error == "" && Good(Flat(op.serialTasks), op.lastId) && op.id in requests
            && Expanded(op.serialTasks) == [[requests[op.id]]] + AllWorks(PlanOf(requests[op.id].0, requests[op.id].1))
  {
    var op := queue[0];
    assert Ready(op, requests);
    hide Good, Flat, PlanOf, Expanded, AllWorks, NumberedAll, IsComposite;
    RequestedWork(requests[op.id].0, requests[op.id].1);
  }

  lemma ReadyRest(queue: seq<ClusterOperationInstance>, requests: map<string, (Name, Parameters)>)
    requires queue != [] && AllReady(queue, requests)
    ensures AllReady(queue[1..], requests)
  {
    hide Ready;
  }

  lemma ReadyGrows(queue: seq<ClusterOperationInstance>, op: ClusterOperationInstance, active: set<string>,
                   was: map<string, (Name, Parameters)>, requests: map<string, (Name, Parameters)>)
    requires AllReady(queue, was) && Ready(op, requests) && Queued(queue, active) && op.id !in active
    requires forall id :: id in was && id != op.id ==> id in requests && requests[id] == was[id]
    ensures AllReady(queue + [op], requests)
  {
    hide Good, Flat, NumberedAll, IsComposite;
    forall q | 0 <= q < |queue| ensures Ready(queue[q], requests) {
      assert Ready(queue[q], was) && queue[q].id in active;
    }
  }

  lemma EndedGrows(finished: map<string, Operation>, requests: map<string, (Name, Parameters)>, id: string,
      op: Operation)
    requires AllEnded(finished, requests) && id in requests && EndedWell(op, requests[id])
    ensures AllEnded(finished[id := op], requests)
  {
    hide EndedWell;
  }

  lemma EndedStay(finished: map<string, Operation>, requests: map<string, (Name, Parameters)>, id: string,
      request: (Name, Parameters))
    requires AllEnded(finished, requests) && id !in finished
    ensures AllEnded(finished, requests[id := request])
  {
    hide EndedWell;
  }

  lemma EndsWell(op: Operation, n: nat, failed: Option<nat>, request: (Name, Parameters))
    requires op.state == OpDone && Good(Flat(op.serialTasks), n)
    requires Ended(op.serialTasks, op.error, failed, [[request]] + AllWorks(PlanOf(request.0, request.1)))
    ensures EndedWell(op, request) && (failed.None? ==> op.error == "" && Fulfilled(op, request))
  {
    hide Good, Flat, AllClean, FailedAt, AllWorks, PlanOf;
  }

  lemma NextIsNew(n: nat)
    ensures !Issued(FormatNat(n + 1), n) && Issued(FormatNat(n + 1), n + 1)
    ensures forall id :: Issued(id, n + 1) <==> Issued(id, n) || id == FormatNat(n + 1)
  {
    forall k: nat ensures ParseDigits(FormatNat(k)) == Some(k) {
      ParseFormat(k);
    }
  }

  lemma FreshIsReady(op: ClusterOperationInstance, name: Name, parameters: Parameters, requests: map<string,
      (Name, Parameters)>)
    requires op.serialTasks == NumberedAll([[NewTask(name, parameters)]], 0)
        && op.lastId == Missing([NewTask(name, parameters)])
    requires op.state == OpNotStarted && op.error == "" && IsComposite(name)
    requires op.id in requests && requests[op.id] == (name, parameters)
    ensures Ready(op, requests)
  {
    hide IsComposite;
    var t := NewTask(name, parameters);
    FlatNumbered([[t]], 0);
    assert Flat([[t]]) == [t] + [];
    assert [t] + [] == [t];
    NumberedIs([t], 0, 0);
    var ts := Numbered([t], 0);
    assert Issued(ts[0].id, 1);
  }

  predicate AllClean(ts: seq<Task>) { forall i :: 0 <= i < |ts| ==> ts[i].Clean() }

  lemma NoneBefore(cs: seq<Container>)
    ensures CleanUpTo(Flat(cs), |Flat(cs[..0])|)
  {
  }

  lemma IndexIs(cs: seq<Container>, i: nat)
    requires i < |cs|
    ensures Index(cs, i, 0) == |Flat(cs[..i])|
  {
  }

  lemma AfterIs(start: seq<Container>, cs: seq<Container>, i: nat)
    requires AfterContainer(start, cs, i)
    ensures i < |start| <= |cs| && CleanUpTo(Flat(cs), |Flat(cs[..i + 1])|)
    ensures Composites(Flat(cs[i + 1..])) < Composites(Flat(start[i..]))
        || (Composites(Flat(cs[i + 1..])) == Composites(Flat(start[i..])) && |cs| == |start|)
  {
  }

  lemma WholeIsClean(ts: seq<Task>)
    requires CleanUpTo(ts, |ts|)
    ensures AllClean(ts)
  {
  }

  /** The same operations are active, and all but one as they were. */
  predicate SameOthers(before: map<string, Operation>, after: map<string, Operation>, id: string) {
    before.Keys == after.Keys && forall k :: k in before && k != id ==> after[k] == before[k]
  }

  /** Every checkpoint shows tasks as they should be: done ones first, distinct ids, no stale error. */
  ghost predicate GoodCheckpoints(cps: seq<Operation>) { forall i :: 0 <= i < |cps| ==> GoodOperation(cps[i]) }

  ghost predicate GoodOperation(op: Operation) { exists n: nat :: Good(Flat(op.serialTasks), n) }

  lemma CheckpointsGrow(cps: seq<Operation>, op: Operation, n: nat)
    requires GoodCheckpoints(cps) && Good(Flat(op.serialTasks), n)
    ensures GoodCheckpoints(cps + [op])
  {
    hide Good, Flat;
    assert GoodOperation(op);
  }

  /** A task not yet done carries no error, so its success leaves it clean. */
  lemma StaleIs(ts: seq<Task>, cs: seq<Container>, i: nat, j: nat, n: nat)
    requires ts == Flat(cs) && Good(ts, n) && i < |cs| && j < |cs[i]|
    ensures !cs[i][j].state.Done? ==> cs[i][j].error == ""
  {
    FlatUpdate(cs, i, j, cs[i][j]);
    hide Flat, Index, PrefixDone, DistinctIds, Update;
  }

  /** During container i: what precedes it is as it was, it has the same tasks, and what follows has as many composites,
      and more containers only if it had a composite itself. */
  ghost predicate InContainer(start: seq<Container>, cs: seq<Container>, i: nat, j: nat) {
    && i < |start| <= |cs| && cs[..i] == start[..i] && |cs[i]| == |start[i]| && j <= |cs[i]|
    && (forall l :: 0 <= l < |cs[i]| ==> cs[i][l].name == start[i][l].name)
    && Composites(Flat(cs[i + 1..])) == Composites(Flat(start[i + 1..]))
    && (|cs| > |start| ==> Composites(start[i]) >= 1)
  }

  lemma InContainerIs(start: seq<Container>, cs: seq<Container>, i: nat, j: nat)
    requires InContainer(start, cs, i, j)
    ensures i < |start| && i < |cs| && |cs[i]| == |start[i]|
  {
    hide Flat, Composites;
  }

  lemma ContainerStart(start: seq<Container>, i: nat)
    requires i < |start|
    ensures InContainer(start, start, i, 0)
  {
  }

  lemma NextInContainer(start: seq<Container>, cs: seq<Container>, i: nat, j: nat, t: Task, more: seq<Container>,
      n: nat)
    requires InContainer(start, cs, i, j) && j < |cs[i]| && t.name == cs[i][j].name
        && (more != [] ==> IsComposite(t.name))
    requires Composites(Flat(Grown(cs, i, j, t, more, n)[i + 1..])) == Composites(Flat(cs[i + 1..]))
    ensures InContainer(start, Grown(cs, i, j, t, more, n), i, j + 1)
    ensures Index(Grown(cs, i, j, t, more, n), i, j + 1) == Index(cs, i, j) + 1
  {
    GrownParts(cs, i, j, t, more, n);
    if more != [] {
      SomeComposite(start[i], j);
    }
    hide Flat, Grown, Composites, IsComposite;
  }

  /** After container i: its tasks are done, and the containers still to come have fewer composites or are fewer. */
  ghost predicate AfterContainer(start: seq<Container>, cs: seq<Container>, i: nat) {
    && i < |start| <= |cs| && CleanUpTo(Flat(cs), |Flat(cs[..i + 1])|)
    && (Composites(Flat(cs[i + 1..])) < Composites(Flat(start[i..]))
      || (Composites(Flat(cs[i + 1..])) == Composites(Flat(start[i..])) && |cs| == |start|))
  }

  lemma ContainerEnd(start: seq<Container>, cs: seq<Container>, i: nat, j: nat)
    requires InContainer(start, cs, i, j) && j >= |cs[i]| && CleanUpTo(Flat(cs), Index(cs, i, j))
    ensures AfterContainer(start, cs, i)
  {
    FlatSplit(cs, i);
    assert start[i..][1..] == start[i + 1..];
    assert Flat(start[i..]) == start[i] + Flat(start[i + 1..]);
    CompositesAppend(start[i], Flat(start[i + 1..]));
    hide Flat, Composites, CleanUpTo;
  }

  /** A task that succeeds is not left with an error, and one that is done without an error does not fail. */
  lemma DoneIsRight(t: Task, leaf: LeafResult)
    requires !t.state.Done? ==> t.error == ""
    ensures ResultOf(t, leaf).Succeeded? ==> t.error == ""
    ensures ResultOf(t, leaf).Broke? ==> !t.Clean()
  {
    hide SpecOf, IsComposite, PlanOf;
  }

  lemma UpdateLength(cs: seq<Container>, i: nat, j: nat, t: Task)
    requires i < |cs| && j < |cs[i]|
    ensures |Update(cs, i, j, t)| == |cs|
  {
  }

  lemma EmptyIsProper()
    ensures ProperLeaves([])
  {
  }

  lemma ProperIsValid(cs: seq<Container>)
    requires ProperLeaves(cs)
    ensures forall i, j :: 0 <= i < |cs| && 0 <= j < |cs[i]| ==> ValidTask(cs[i][j])
  {
    hide ValidTask;
  }

  lemma NothingInserted(cs: seq<Container>, pos: nat, n: nat)
    requires pos <= |cs|
    ensures Inserted(cs, NumberedAll([], n), pos) == cs && Missing(Flat([])) == 0
  {
    assert cs[..pos] + [] + cs[pos..] == cs;
  }
}
