/** What the calls of the resource pool do (pools/resource_pool.go): a call that is not interrupted, and the order and
    the fate of resources over any run. */
module ResourcePoolCalls {
  import opened Prelude
  import opened Sums
  import opened ResourcePool
  import opened ResourcePoolProperties

  // ------------------------------------------------------------------- single calls

  lemma TwoSteps(s: Pool, a: Step, b: Step, t: Pool)
    requires Apply(s, a) == Some(t)
    ensures Run(s, [a, b]) == Apply(t, b)
  {
    assert [a, b][1..] == [b];
    assert Run(t, [b]) == Apply(t, b);
  }

  lemma RunOne(s: Pool, a: Step)
    ensures Run(s, [a]) == Apply(s, a)
  {
    hide Apply;
    assert [a][1..] == [];
  }

  lemma NoneIsEmpty(s: multiset<Resource>)
    ensures s + AsSet(None) == s
  {
  }

  /** A step of a session that is neither blocked nor panics. */
  lemma SessionStep(s: Pool, i: nat, a: ClientAction, c: Client, e: Effect, chan: seq<Wrapper>)
    requires !s.panicked && i < |s.clients| && ClientMove(s.clients[i], a, Head(s), s.made) == Some((c, e))
    requires e.shut.None? && e.discarded.None? && Leaves(s, e.op, chan)
    ensures Apply(s, Session(i, a))
         == Some(s.(chan := chan, available := s.available + e.available, active := s.active + e.active,
                    inUse := s.inUse + e.inUse, made := s.made + (if e.makes then 1 else 0),
                    clients := s.clients[i := c]))
  {
    hide ClientMove;
    assert s.shut + multiset{} == s.shut && s.discarded + multiset{} == s.discarded;
  }

  /** What a channel operation leaves, when it goes through. */
  predicate Leaves(s: Pool, op: ChanOp, chan: seq<Wrapper>) {
    match op
    case NoOp => chan == s.chan
    case Receive => s.chan != [] && chan == s.chan[1..]
    case Give(w) => !s.closed && |s.chan| < s.maxCap && chan == s.chan + [w]
    case PutBack(w) => !s.closed && |s.chan| < s.maxCap && chan == s.chan + [w]
  }

  /** The end of a Get: the resource is counted as in use and returned. */
  lemma GetEnds(s: Pool, i: nat, r: Resource)
    requires !s.panicked && i < |s.clients| && s.clients[i] == Counted(r)
    ensures Run(s, [Session(i, TakeAvailable), Session(i, AddInUse)])
         == Some(s.(available := s.available - 1, inUse := s.inUse + 1, clients := s.clients[i := Holding(r)]))
  {
    hide Apply, Run;
    var t := s.(available := s.available - 1, clients := s.clients[i := Claimed(r)]);
    SessionStep(s, i, TakeAvailable, Claimed(r), Nothing.(available := -1), s.chan);
    SessionStep(t, i, AddInUse, Holding(r), Nothing.(inUse := 1), s.chan);
    TwoSteps(s, Session(i, TakeAvailable), Session(i, AddInUse), t);
    assert t.clients[i := Holding(r)] == s.clients[i := Holding(r)];
  }

  /** Get with a resource at the front of the channel returns that resource; nothing is made. */
  lemma GetReuses(s: Pool, i: nat, r: Resource, rest: seq<Wrapper>)
    requires !s.panicked && i < |s.clients| && s.clients[i].Idle? && s.chan == [Some(r)] + rest
    ensures Run(s, [Session(i, Fetch)] + [Session(i, TakeAvailable), Session(i, AddInUse)])
         == Some(s.(chan := rest, available := s.available - 1, inUse := s.inUse + 1,
                    clients := s.clients[i := Holding(r)]))
  {
    hide Apply, Run;
    var t := s.(chan := rest, clients := s.clients[i := Counted(r)]);
    assert s.chan[1..] == rest;
    SessionStep(s, i, Fetch, Counted(r), Nothing.(op := Receive), rest);
    RunOne(s, Session(i, Fetch));
    RunAppend(s, [Session(i, Fetch)], [Session(i, TakeAvailable), Session(i, AddInUse)]);
    GetEnds(t, i, r);
    assert t.clients[i := Holding(r)] == s.clients[i := Holding(r)];
  }

  /** Get with an empty slot at the front asks the factory for a new resource and returns that. */
  lemma GetMakes(s: Pool, i: nat, rest: seq<Wrapper>)
    requires !s.panicked && i < |s.clients| && s.clients[i].Idle? && s.chan == [None] + rest
    ensures Run(s, [Session(i, Fetch), Session(i, FactoryOk)]
                   + ([Session(i, AddActive)] + [Session(i, TakeAvailable), Session(i, AddInUse)]))
         == Some(s.(chan := rest, available := s.available - 1, inUse := s.inUse + 1, active := s.active + 1,
                    made := s.made + 1, clients := s.clients[i := Holding(s.made)]))
  {
    hide Apply, Run;
    var ending := [Session(i, TakeAvailable), Session(i, AddInUse)];
    var t := s.(chan := rest, clients := s.clients[i := Creating]);
    var u := t.(made := s.made + 1, clients := s.clients[i := Made(s.made)]);
    var v := u.(active := s.active + 1, clients := s.clients[i := Counted(s.made)]);
    assert s.chan[1..] == rest;
    SessionStep(s, i, Fetch, Creating, Nothing.(op := Receive), rest);
    SessionStep(t, i, FactoryOk, Made(s.made), Nothing.(makes := true), rest);
    SessionStep(u, i, AddActive, Counted(s.made), Nothing.(active := 1), rest);
    assert t.clients[i := Made(s.made)] == u.clients && u.clients[i := Counted(s.made)] == v.clients;
    TwoSteps(s, Session(i, Fetch), Session(i, FactoryOk), t);
    RunOne(u, Session(i, AddActive));
    GetEnds(v, i, s.made);
    assert v.clients[i := Holding(s.made)] == s.clients[i := Holding(s.made)];
    RunAppend(u, [Session(i, AddActive)], ending);
    RunAppend(s, [Session(i, Fetch), Session(i, FactoryOk)], [Session(i, AddActive)] + ending);
  }

  /** Get whose factory call fails puts the empty slot back, behind the others, and changes nothing else. */
  lemma GetFails(s: Pool, i: nat, rest: seq<Wrapper>)
    requires !s.panicked && !s.closed && i < |s.clients| && s.clients[i].Idle?
    requires s.chan == [None] + rest && |rest| < s.maxCap
    ensures Run(s, [Session(i, Fetch), Session(i, FactoryErr)] + [Session(i, GiveBack)])
         == Some(s.(chan := rest + [None]))
  {
    hide Apply, Run;
    var t := s.(chan := rest, clients := s.clients[i := Creating]);
    var u := t.(clients := s.clients[i := FactoryFailed]);
    assert s.chan[1..] == rest;
    SessionStep(s, i, Fetch, Creating, Nothing.(op := Receive), rest);
    SessionStep(t, i, FactoryErr, FactoryFailed, Nothing, rest);
    SessionStep(u, i, GiveBack, Idle, Nothing.(op := Give(None)), rest + [None]);
    assert t.clients[i := FactoryFailed] == u.clients && u.clients[i := Idle] == s.clients;
    TwoSteps(s, Session(i, Fetch), Session(i, FactoryErr), t);
    RunOne(u, Session(i, GiveBack));
    RunAppend(s, [Session(i, Fetch), Session(i, FactoryErr)], [Session(i, GiveBack)]);
  }

  /** The end of a Put: one resource less is in use, one slot more available. */
  lemma PutEnds(s: Pool, i: nat)
    requires !s.panicked && i < |s.clients| && s.clients[i] == Returned
    ensures Run(s, [Session(i, DropInUse), Session(i, GiveAvailable)])
         == Some(s.(inUse := s.inUse - 1, available := s.available + 1, clients := s.clients[i := Idle]))
  {
    hide Apply, Run;
    var t := s.(inUse := s.inUse - 1, clients := s.clients[i := Released]);
    SessionStep(s, i, DropInUse, Released, Nothing.(inUse := -1), s.chan);
    SessionStep(t, i, GiveAvailable, Idle, Nothing.(available := 1), s.chan);
    TwoSteps(s, Session(i, DropInUse), Session(i, GiveAvailable), t);
    assert t.clients[i := Idle] == s.clients[i := Idle];
  }

  /** Put of a resource queues it behind all others, alive. */
  lemma PutQueues(s: Pool, i: nat, r: Resource)
    requires !s.panicked && !s.closed && |s.chan| < s.maxCap && i < |s.clients| && s.clients[i] == Holding(r)
    ensures Run(s, [Session(i, Send)] + [Session(i, DropInUse), Session(i, GiveAvailable)])
         == Some(s.(chan := s.chan + [Some(r)], inUse := s.inUse - 1, available := s.available + 1,
                    clients := s.clients[i := Idle]))
  {
    hide Apply, Run;
    var t := s.(chan := s.chan + [Some(r)], clients := s.clients[i := Returned]);
    SessionStep(s, i, Send, Returned, Nothing.(op := PutBack(Some(r))), s.chan + [Some(r)]);
    RunOne(s, Session(i, Send));
    PutEnds(t, i);
    assert t.clients[i := Idle] == s.clients[i := Idle];
    RunAppend(s, [Session(i, Send)], [Session(i, DropInUse), Session(i, GiveAvailable)]);
  }

  /** Put(nil) gives the held resource up: its slot is queued empty, and it no longer counts as active. */
  lemma PutNilQueues(s: Pool, i: nat, r: Resource)
    requires !s.panicked && !s.closed && |s.chan| < s.maxCap && i < |s.clients| && s.clients[i] == Holding(r)
    ensures Run(s, [Session(i, PutNil), Session(i, Send)] + [Session(i, DropInUse), Session(i, GiveAvailable)])
         == Some(s.(chan := s.chan + [None], inUse := s.inUse - 1, available := s.available + 1, active := s.active - 1,
                    discarded := s.discarded + multiset{r}, clients := s.clients[i := Idle]))
  {
    hide Apply, Run;
    var t := s.(active := s.active - 1, discarded := s.discarded + multiset{r}, clients := s.clients[i := Discarding]);
    var u := t.(chan := s.chan + [None], clients := s.clients[i := Returned]);
    PutNilStep(s, i, r);
    SessionStep(t, i, Send, Returned, Nothing.(op := PutBack(None)), s.chan + [None]);
    assert t.clients[i := Returned] == u.clients;
    TwoSteps(s, Session(i, PutNil), Session(i, Send), t);
    PutEnds(u, i);
    assert u.clients[i := Idle] == s.clients[i := Idle];
    RunAppend(s, [Session(i, PutNil), Session(i, Send)], [Session(i, DropInUse), Session(i, GiveAvailable)]);
  }

  lemma PutNilStep(s: Pool, i: nat, r: Resource)
    requires !s.panicked && i < |s.clients| && s.clients[i] == Holding(r)
    ensures Apply(s, Session(i, PutNil))
         == Some(s.(active := s.active - 1, discarded := s.discarded + multiset{r},
                    clients := s.clients[i := Discarding]))
  {
    assert s.shut + multiset{} == s.shut;
  }

  /** A step of SetCapacity that is neither blocked nor panics. */
  lemma ResizeStep(s: Pool, k: nat, a: ResizerAction, c: Resizer, e: Effect, chan: seq<Wrapper>)
    requires !s.panicked && k < |s.resizers| && ResizerMove(s.resizers[k], a, Head(s)) == Some((c, e))
    requires !e.makes && e.discarded.None? && Leaves(s, e.op, chan)
    ensures Apply(s, Resize(k, a))
         == Some(s.(chan := chan, available := s.available + e.available, active := s.active + e.active,
                    inUse := s.inUse + e.inUse, shut := s.shut + AsSet(e.shut), resizers := s.resizers[k := c]))
  {
    assert s.discarded + AsSet(None) == s.discarded;
    hide ResizerMove, AsSet, Head;
    assert Perform(s, e).Some?;
    CallStep(s, k, a, c, e);
  }

  function Nones(n: nat): seq<Wrapper> { if n == 0 then [] else [None] + Nones(n - 1) }

  function FillSteps(k: nat, n: nat): seq<Step> {
    if n == 0 then [] else [Resize(k, Fill), Resize(k, RaiseAvailable)] + FillSteps(k, n - 1)
  }

  lemma FillOne(s: Pool, k: nat, left: nat, target: nat)
    requires !s.panicked && !s.closed && k < |s.resizers| && s.resizers[k] == Filling(left + 1, target)
    requires |s.chan| < s.maxCap
    ensures Run(s, [Resize(k, Fill), Resize(k, RaiseAvailable)])
         == Some(s.(chan := s.chan + [None], available := s.available + 1,
                    resizers := s.resizers[k := Filling(left, target)]))
  {
    hide Apply, Run, AsSet;
    var t := s.(chan := s.chan + [None], resizers := s.resizers[k := FillAvailable(left, target)]);
    NoneIsEmpty(s.shut);
    ResizeStep(s, k, Fill, FillAvailable(left, target), Nothing.(op := Give(None)), s.chan + [None]);
    ResizeStep(t, k, RaiseAvailable, Filling(left, target), Nothing.(available := 1), t.chan);
    TwoSteps(s, Resize(k, Fill), Resize(k, RaiseAvailable), t);
    assert t.resizers[k := Filling(left, target)] == s.resizers[k := Filling(left, target)];
  }

  lemma {:induction false} FillAll(s: Pool, k: nat, n: nat, target: nat)
    requires !s.panicked && !s.closed && k < |s.resizers| && s.resizers[k] == Filling(n, target)
    requires |s.chan| + n <= s.maxCap
    ensures Run(s, FillSteps(k, n))
         == Some(s.(chan := s.chan + Nones(n), available := s.available + n,
                    resizers := s.resizers[k := Filling(0, target)]))
    decreases n
  {
    hide Apply;
    if n == 0 {
      EmptyParts(s.chan);
      assert s.resizers[k := Filling(0, target)] == s.resizers;
    } else {
      hide Run;
      var t := s.(chan := s.chan + [None], available := s.available + 1,
                  resizers := s.resizers[k := Filling(n - 1, target)]);
      FillOne(s, k, n - 1, target);
      FillAll(t, k, n - 1, target);
      RunAppend(s, [Resize(k, Fill), Resize(k, RaiseAvailable)], FillSteps(k, n - 1));
      Associative(s.chan, [None], Nones(n - 1));
      assert t.resizers[k := Filling(0, target)] == s.resizers[k := Filling(0, target)];
    }
  }

  /** SetCapacity reads the capacity and installs the new one. */
  lemma CallStarts(s: Pool, k: nat, target: nat, c: Resizer)
    requires !s.panicked && k < |s.resizers| && s.resizers[k].Ready? && target <= s.maxCap && 0 < s.capacity != target
    requires c == if target < s.capacity then Draining(s.capacity - target, target)
                  else Filling(target - s.capacity, target)
    ensures Run(s, [Resize(k, SetCapacity(target)), Resize(k, Swap)])
         == Some(s.(capacity := target, resizers := s.resizers[k := c]))
  {
    var read, swapped := CallBegins(s, k, target);
    hide Apply, Run;
    TwoSteps(s, Resize(k, SetCapacity(target)), Resize(k, Swap), read);
  }

  lemma CallStops(s: Pool, k: nat, target: nat)
    requires !s.panicked && k < |s.resizers| && s.resizers[k] in {Draining(0, target), Filling(0, target)}
    requires s.resizers[k] == Filling(0, target) ==> target > 0
    ensures Run(s, [Resize(k, Finish)])
         == Some(s.(closed := s.closed || target == 0, resizers := s.resizers[k := Ready]))
  {
    RunOne(s, Resize(k, Finish));
    hide Run;
  }

  /** SetCapacity to a larger capacity queues as many empty slots as it adds, behind what is there. */
  lemma SetCapacityGrows(s: Pool, k: nat, target: nat)
    requires !s.panicked && !s.closed && k < |s.resizers| && s.resizers[k].Ready?
    requires 0 < s.capacity < target <= s.maxCap && |s.chan| + target - s.capacity <= s.maxCap
    ensures Run(s, [Resize(k, SetCapacity(target)), Resize(k, Swap)]
                   + (FillSteps(k, target - s.capacity) + [Resize(k, Finish)]))
         == Some(s.(chan := s.chan + Nones(target - s.capacity), capacity := target,
                    available := s.available + target - s.capacity))
  {
    hide *;
    var n := target - s.capacity;
    var t := s.(capacity := target, resizers := s.resizers[k := Filling(n, target)]);
    var u := t.(chan := s.chan + Nones(n), available := s.available + n,
                resizers := s.resizers[k := Filling(0, target)]);
    CallStarts(s, k, target, Filling(n, target));
    FillAll(t, k, n, target);
    assert t.resizers[k := Filling(0, target)] == u.resizers && u.resizers[k := Ready] == s.resizers;
    CallStops(u, k, target);
    RunAppend(t, FillSteps(k, n), [Resize(k, Finish)]);
    RunAppend(s, [Resize(k, SetCapacity(target)), Resize(k, Swap)], FillSteps(k, n) + [Resize(k, Finish)]);
  }

  /** The steps that remove one slot: a resource in it is closed. */
  function DrainOneSteps(k: nat, w: Wrapper): seq<Step> {
    if w.Some? then [Resize(k, Drain), Resize(k, Close)] + [Resize(k, LowerActive), Resize(k, LowerAvailable)]
    else [Resize(k, Drain), Resize(k, LowerAvailable)]
  }

  function DrainSteps(k: nat, front: seq<Wrapper>): seq<Step> {
    if front == [] then [] else DrainOneSteps(k, front[0]) + DrainSteps(k, front[1..])
  }

  /** The resources in a piece of the channel. */
  ghost function ResourcesIn(slots: seq<Wrapper>): multiset<Resource> {
    if slots == [] then multiset{} else AsSet(slots[0]) + ResourcesIn(slots[1..])
  }

  lemma DrainEmpty(s: Pool, k: nat, left: nat, target: nat, rest: seq<Wrapper>)
    requires !s.panicked && k < |s.resizers| && s.resizers[k] == Draining(left + 1, target) && s.chan == [None] + rest
    ensures Run(s, DrainOneSteps(k, None))
         == Some(s.(chan := rest, available := s.available - 1, resizers := s.resizers[k := Draining(left, target)]))
  {
    hide Apply, Run, AsSet;
    var t := s.(chan := rest, resizers := s.resizers[k := DrainAvailable(left, target)]);
    NoneIsEmpty(s.shut);
    assert s.chan[1..] == rest;
    ResizeStep(s, k, Drain, DrainAvailable(left, target), Nothing.(op := Receive), rest);
    ResizeStep(t, k, LowerAvailable, Draining(left, target), Nothing.(available := -1), rest);
    TwoSteps(s, Resize(k, Drain), Resize(k, LowerAvailable), t);
    assert t.resizers[k := Draining(left, target)] == s.resizers[k := Draining(left, target)];
  }

  lemma DrainFull(s: Pool, k: nat, left: nat, target: nat, r: Resource, rest: seq<Wrapper>)
    requires !s.panicked && k < |s.resizers| && s.resizers[k] == Draining(left + 1, target)
    requires s.chan == [Some(r)] + rest
    ensures Run(s, DrainOneSteps(k, Some(r)))
         == Some(s.(chan := rest, available := s.available - 1, active := s.active - 1,
                    shut := s.shut + AsSet(Some(r)), resizers := s.resizers[k := Draining(left, target)]))
  {
    hide Apply, Run, AsSet;
    var t := s.(chan := rest, resizers := s.resizers[k := DrainClose(r, left, target)]);
    var u := t.(shut := s.shut + AsSet(Some(r)), resizers := s.resizers[k := DrainActive(left, target)]);
    var v := u.(active := s.active - 1, resizers := s.resizers[k := DrainAvailable(left, target)]);
    NoneIsEmpty(s.shut);
    NoneIsEmpty(u.shut);
    assert s.chan[1..] == rest;
    ResizeStep(s, k, Drain, DrainClose(r, left, target), Nothing.(op := Receive), rest);
    ResizeStep(t, k, Close, DrainActive(left, target), Nothing.(shut := Some(r)), rest);
    ResizeStep(u, k, LowerActive, DrainAvailable(left, target), Nothing.(active := -1), rest);
    ResizeStep(v, k, LowerAvailable, Draining(left, target), Nothing.(available := -1), rest);
    assert t.resizers[k := DrainActive(left, target)] == u.resizers;
    assert u.resizers[k := DrainAvailable(left, target)] == v.resizers;
    assert v.resizers[k := Draining(left, target)] == s.resizers[k := Draining(left, target)];
    TwoSteps(s, Resize(k, Drain), Resize(k, Close), t);
    TwoSteps(u, Resize(k, LowerActive), Resize(k, LowerAvailable), v);
    RunAppend(s, [Resize(k, Drain), Resize(k, Close)], [Resize(k, LowerActive), Resize(k, LowerAvailable)]);
  }

  lemma DrainOne(s: Pool, k: nat, left: nat, target: nat, w: Wrapper, rest: seq<Wrapper>)
    requires !s.panicked && k < |s.resizers| && s.resizers[k] == Draining(left + 1, target) && s.chan == [w] + rest
    ensures Run(s, DrainOneSteps(k, w))
         == Some(s.(chan := rest, available := s.available - 1, active := s.active - WrapperActive(w),
                    shut := s.shut + AsSet(w), resizers := s.resizers[k := Draining(left, target)]))
  {
    hide Apply, Run, AsSet, DrainOneSteps;
    if w.Some? {
      DrainFull(s, k, left, target, w.value, rest);
    } else {
      NoneIsEmpty(s.shut);
      DrainEmpty(s, k, left, target, rest);
    }
  }

  lemma {:induction false} DrainAll(s: Pool, k: nat, target: nat, front: seq<Wrapper>, rest: seq<Wrapper>)
    requires !s.panicked && k < |s.resizers| && s.resizers[k] == Draining(|front|, target) && s.chan == front + rest
    ensures Run(s, DrainSteps(k, front))
         == Some(s.(chan := rest, available := s.available - |front|, active := s.active - Sum(WrapperActive, front),
                    shut := s.shut + ResourcesIn(front), resizers := s.resizers[k := Draining(0, target)]))
    decreases |front|
  {
    hide Apply, AsSet, DrainOneSteps;
    if front == [] {
      EmptyParts(rest);
      assert s.shut + multiset{} == s.shut && s.resizers[k := Draining(0, target)] == s.resizers;
    } else {
      hide Run;
      var w, more := front[0], front[1..];
      assert s.chan == [w] + (more + rest);
      var t := s.(chan := more + rest, available := s.available - 1, active := s.active - WrapperActive(w),
                  shut := s.shut + AsSet(w), resizers := s.resizers[k := Draining(|more|, target)]);
      DrainOne(s, k, |more|, target, w, more + rest);
      DrainAll(t, k, target, more, rest);
      RunAppend(s, DrainOneSteps(k, w), DrainSteps(k, more));
      assert s.shut + AsSet(w) + ResourcesIn(more) == s.shut + ResourcesIn(front);
      assert t.resizers[k := Draining(0, target)] == s.resizers[k := Draining(0, target)];
    }
  }

  lemma DrainsAndStops(t: Pool, k: nat, target: nat, front: seq<Wrapper>, rest: seq<Wrapper>)
    requires !t.panicked && k < |t.resizers| && t.resizers[k] == Draining(|front|, target) && t.chan == front + rest
    ensures Run(t, DrainSteps(k, front) + [Resize(k, Finish)])
         == Some(t.(chan := rest, available := t.available - |front|, active := t.active - Sum(WrapperActive, front),
                    shut := t.shut + ResourcesIn(front), closed := t.closed || target == 0,
                    resizers := t.resizers[k := Ready]))
  {
    hide *;
    DrainAll(t, k, target, front, rest);
    var u := Run(t, DrainSteps(k, front)).value;
    CallStops(u, k, target);
    RunAppend(t, DrainSteps(k, front), [Resize(k, Finish)]);
    assert u.resizers[k := Ready] == t.resizers[k := Ready];
  }

  /** SetCapacity to a smaller capacity takes as many slots off the front, closes exactly the resources in them, and
      closes the channel at capacity zero. */
  lemma SetCapacityShrinks(s: Pool, k: nat, target: nat, front: seq<Wrapper>, rest: seq<Wrapper>)
    requires !s.panicked && k < |s.resizers| && s.resizers[k].Ready? && target < s.capacity && target <= s.maxCap
    requires s.chan == front + rest && |front| == s.capacity - target
    ensures Run(s, [Resize(k, SetCapacity(target)), Resize(k, Swap)] + (DrainSteps(k, front) + [Resize(k, Finish)]))
         == Some(s.(chan := rest, capacity := target, available := s.available - |front|,
                    active := s.active - Sum(WrapperActive, front), shut := s.shut + ResourcesIn(front),
                    closed := s.closed || target == 0))
  {
    hide *;
    CallStarts(s, k, target, Draining(|front|, target));
    var t := s.(capacity := target, resizers := s.resizers[k := Draining(|front|, target)]);
    DrainsAndStops(t, k, target, front, rest);
    assert t.resizers[k := Ready] == s.resizers;
    RunAppend(s, [Resize(k, SetCapacity(target)), Resize(k, Swap)], DrainSteps(k, front) + [Resize(k, Finish)]);
  }

  /** A step of the sweep on an open channel that is not blocked. */
  lemma SweepDoes(s: Pool, a: SweeperAction, w: Sweeper, e: Effect, chan: seq<Wrapper>)
    requires !s.panicked && a != StopTimer && a != SweepStart && !e.makes && e.discarded.None? && Leaves(s, e.op, chan)
    requires SweeperMove(s.sweeper, a, Head(s), s.chan == [], s.closed, s.available) == Some((w, e))
    ensures Apply(s, Sweep(a))
         == Some(s.(chan := chan, available := s.available + e.available, active := s.active + e.active,
                    inUse := s.inUse + e.inUse, shut := s.shut + AsSet(e.shut), sweeper := w))
  {
    NoneIsEmpty(s.discarded);
    hide SweeperMove, AsSet, Head;
    assert Perform(s, e).Some?;
    SweepStep(s, a, w, e);
  }

  /** The steps of the sweep at one slot, which closes the resource in it or leaves it. */
  function SweepSlotSteps(w: Wrapper, close: bool): seq<Step> {
    if close && w.Some? then [Sweep(SweepFetch), Sweep(SweepClose)] + [Sweep(SweepCount), Sweep(SweepReturn)]
    else [Sweep(SweepFetch), Sweep(SweepReturn)]
  }

  function Swept(w: Wrapper, close: bool): Wrapper { if close then None else w }

  lemma SweepLeaves(s: Pool, w: Wrapper, rest: seq<Wrapper>, left: nat)
    requires !s.panicked && !s.closed && s.sweeper == Sweeping(left + 1) && s.chan == [w] + rest && |rest| < s.maxCap
    ensures Run(s, [Sweep(SweepFetch), Sweep(SweepReturn)])
         == Some(s.(chan := rest + [w], sweeper := Sweeping(left)))
  {
    hide Apply, Run, AsSet;
    NoneIsEmpty(s.shut);
    assert s.chan[1..] == rest;
    var t := s.(chan := rest, sweeper := SweepHas(w, left));
    SweepDoes(s, SweepFetch, SweepHas(w, left), Nothing.(op := Receive), rest);
    SweepDoes(t, SweepReturn, Sweeping(left), Nothing.(op := Give(w)), rest + [w]);
    TwoSteps(s, Sweep(SweepFetch), Sweep(SweepReturn), t);
  }

  lemma SweepCloses(s: Pool, r: Resource, rest: seq<Wrapper>, left: nat)
    requires !s.panicked && !s.closed && s.sweeper == Sweeping(left + 1) && s.chan == [Some(r)] + rest
    requires |rest| < s.maxCap
    ensures Run(s, SweepSlotSteps(Some(r), true))
         == Some(s.(chan := rest + [None], active := s.active - 1, shut := s.shut + AsSet(Some(r)),
                    sweeper := Sweeping(left)))
  {
    hide Apply, Run, AsSet;
    assert s.chan[1..] == rest;
    var t := s.(chan := rest, sweeper := SweepHas(Some(r), left));
    var u := t.(shut := s.shut + AsSet(Some(r)), sweeper := SweepActive(left));
    var v := u.(active := s.active - 1, sweeper := SweepHas(None, left));
    NoneIsEmpty(s.shut);
    NoneIsEmpty(u.shut);
    SweepDoes(s, SweepFetch, SweepHas(Some(r), left), Nothing.(op := Receive), rest);
    SweepDoes(t, SweepClose, SweepActive(left), Nothing.(shut := Some(r)), rest);
    SweepDoes(u, SweepCount, SweepHas(None, left), Nothing.(active := -1), rest);
    SweepDoes(v, SweepReturn, Sweeping(left), Nothing.(op := Give(None)), rest + [None]);
    TwoSteps(s, Sweep(SweepFetch), Sweep(SweepClose), t);
    TwoSteps(u, Sweep(SweepCount), Sweep(SweepReturn), v);
    RunAppend(s, [Sweep(SweepFetch), Sweep(SweepClose)], [Sweep(SweepCount), Sweep(SweepReturn)]);
  }

  // What a sweep that closes as told does to the slots it looks at.

  function SweepSteps(slots: seq<Wrapper>, closes: seq<bool>): seq<Step>
    requires |closes| == |slots|
  {
    if slots == [] then [] else SweepSlotSteps(slots[0], closes[0]) + SweepSteps(slots[1..], closes[1..])
  }

  function SweptSlots(slots: seq<Wrapper>, closes: seq<bool>): seq<Wrapper>
    requires |closes| == |slots|
  {
    if slots == [] then [] else [Swept(slots[0], closes[0])] + SweptSlots(slots[1..], closes[1..])
  }

  /** The resources it closes. */
  function ClosedSlots(slots: seq<Wrapper>, closes: seq<bool>): seq<Wrapper>
    requires |closes| == |slots|
  {
    if slots == [] then []
    else (if closes[0] then [slots[0]] else []) + ClosedSlots(slots[1..], closes[1..])
  }

  lemma SweepSlot(s: Pool, w: Wrapper, close: bool, rest: seq<Wrapper>, left: nat)
    requires !s.panicked && !s.closed && s.sweeper == Sweeping(left + 1) && s.chan == [w] + rest && |rest| < s.maxCap
    ensures var gone := if close then w else None;
            Run(s, SweepSlotSteps(w, close)) ==
            Some(s.(chan := rest + [Swept(w, close)], active := s.active - WrapperActive(gone),
                    shut := s.shut + AsSet(gone), sweeper := Sweeping(left)))
  {
    NoneIsEmpty(s.shut);
    hide Apply, Run, AsSet;
    if close && w.Some? {
      SweepCloses(s, w.value, rest, left);
    } else {
      SweepLeaves(s, w, rest, left);
    }
  }

  lemma {:induction false} SweepSlots(s: Pool, slots: seq<Wrapper>, closes: seq<bool>, rest: seq<Wrapper>)
    requires !s.panicked && !s.closed && |closes| == |slots| && s.sweeper == Sweeping(|slots|)
    requires s.chan == slots + rest && |s.chan| <= s.maxCap
    ensures Run(s, SweepSteps(slots, closes))
         == Some(s.(chan := rest + SweptSlots(slots, closes),
                    active := s.active - Sum(WrapperActive, ClosedSlots(slots, closes)),
                    shut := s.shut + ResourcesIn(ClosedSlots(slots, closes)), sweeper := Sweeping(0)))
    decreases |slots|
  {
    hide Apply, AsSet, SweepSlotSteps, WrapperActive;
    if slots == [] {
      EmptyParts(rest);
      assert s.shut + multiset{} == s.shut;
    } else {
      hide Run;
      var w, more, close, then' := slots[0], slots[1..], closes[0], closes[1..];
      assert s.chan == [w] + (more + rest);
      SweepSlot(s, w, close, more + rest, |more|);
      var t := Run(s, SweepSlotSteps(w, close)).value;
      Associative(more, rest, [Swept(w, close)]);
      SweepSlots(t, more, then', rest + [Swept(w, close)]);
      RunAppend(s, SweepSlotSteps(w, close), SweepSteps(more, then'));
      Associative(rest, [Swept(w, close)], SweptSlots(more, then'));
      ClosedFirst(s.shut, w, close, more, then');
      assert slots == [w] + more && closes == [close] + then';
    }
  }

  lemma ClosedFirst(shut: multiset<Resource>, w: Wrapper, close: bool, more: seq<Wrapper>, closes: seq<bool>)
    requires |closes| == |more|
    ensures var gone, all, rest := if close then w else None, ClosedSlots([w] + more, [close] + closes),
              ClosedSlots(more, closes);
            && Sum(WrapperActive, all) == WrapperActive(gone) + Sum(WrapperActive, rest)
            && shut + ResourcesIn(all) == shut + AsSet(gone) + ResourcesIn(rest)
  {
    var all, rest := ClosedSlots([w] + more, [close] + closes), ClosedSlots(more, closes);
    assert ([w] + more)[1..] == more && ([close] + closes)[1..] == closes;
    NoneIsEmpty(shut);
    if close {
      assert all == [w] + rest && all[1..] == rest;
    } else {
      EmptyParts(rest);
    }
  }

  lemma SweepsAndStops(t: Pool, slots: seq<Wrapper>, closes: seq<bool>, rest: seq<Wrapper>)
    requires !t.panicked && !t.closed && |closes| == |slots| && t.sweeper == Sweeping(|slots|)
    requires t.chan == slots + rest && |t.chan| <= t.maxCap
    ensures Run(t, SweepSteps(slots, closes) + [Sweep(SweepFetch)])
         == Some(t.(chan := rest + SweptSlots(slots, closes),
                    active := t.active - Sum(WrapperActive, ClosedSlots(slots, closes)),
                    shut := t.shut + ResourcesIn(ClosedSlots(slots, closes)), sweeper := Resting))
  {
    hide *;
    SweepSlots(t, slots, closes, rest);
    var u := Run(t, SweepSteps(slots, closes)).value;
    SweepEnds(u);
    RunOne(u, Sweep(SweepFetch));
    RunAppend(t, SweepSteps(slots, closes), [Sweep(SweepFetch)]);
  }

  /** A sweep that is not interrupted looks at as many slots as are available, from the front, and puts each behind the
      others: as it was, or empty if the sweep closes the resource in it. */
  lemma SweepPass(s: Pool, slots: seq<Wrapper>, closes: seq<bool>, rest: seq<Wrapper>)
    requires !s.panicked && !s.closed && s.timerOn && s.sweeper == Resting && |closes| == |slots| == s.available
    requires s.chan == slots + rest && |s.chan| <= s.maxCap
    ensures Run(s, [Sweep(SweepStart)] + (SweepSteps(slots, closes) + [Sweep(SweepFetch)]))
         == Some(s.(chan := rest + SweptSlots(slots, closes),
                    active := s.active - Sum(WrapperActive, ClosedSlots(slots, closes)),
                    shut := s.shut + ResourcesIn(ClosedSlots(slots, closes))))
  {
    hide *;
    SweepBegins(s);
    RunOne(s, Sweep(SweepStart));
    SweepsAndStops(s.(sweeper := Sweeping(s.available)), slots, closes, rest);
    RunAppend(s, [Sweep(SweepStart)], SweepSteps(slots, closes) + [Sweep(SweepFetch)]);
  }

  lemma SweepBegins(s: Pool)
    requires !s.panicked && s.timerOn && s.sweeper == Resting && s.available >= 0
    ensures Apply(s, Sweep(SweepStart)) == Some(s.(sweeper := Sweeping(s.available)))
  {
    NoneIsEmpty(s.shut);
    NoneIsEmpty(s.discarded);
    SweepStep(s, SweepStart, Sweeping(s.available), Nothing);
  }

  lemma SweepEnds(s: Pool)
    requires !s.panicked && s.sweeper == Sweeping(0)
    ensures Apply(s, Sweep(SweepFetch)) == Some(s.(sweeper := Resting))
  {
    NoneIsEmpty(s.shut);
    SweepDoes(s, SweepFetch, Resting, Nothing, s.chan);
  }

  // ------------------------------------------------------------------- order and fate

  /** What a step sends into the channel: Put its resource, or nothing after Put(nil); a failed Get and a growing
      SetCapacity an empty slot; the sweep what it has. */
  ghost function SentBy(s: Pool, step: Step): seq<Wrapper> {
    match step
    case Session(i, a) =>
      if i >= |s.clients| then []
      else if a == Send then [HeldBy(s.clients[i])]
      else if a == GiveBack then [None]
      else []
    case Resize(_, a) => if a == Fill then [None] else []
    case Sweep(a) => if a == SweepReturn && s.sweeper.SweepHas? then [s.sweeper.w] else []
  }

  /** What a step received, seen by what it then has in hand: a Get, a shrinking SetCapacity or the sweep. */
  ghost function ReceivedBy(t: Pool, step: Step): seq<Wrapper> {
    match step
    case Session(i, a) => if a == Fetch && i < |t.clients| then [HeldBy(t.clients[i])] else []
    case Resize(k, a) => if a == Drain && k < |t.resizers| then [HeldByResizer(t.resizers[k])] else []
    case Sweep(a) => if a == SweepFetch && t.sweeper.SweepHas? then [t.sweeper.w] else []
  }

  function Into(op: ChanOp): seq<Wrapper> {
    match op
    case Give(w) => [w]
    case PutBack(w) => [w]
    case _ => []
  }

  function OutOf(op: ChanOp, head: Wrapper): seq<Wrapper> { if op.Receive? then [head] else [] }

  lemma QueueMoves(s: Pool, e: Effect)
    requires Perform(s, e).Some? && !Perform(s, e).value.panicked
    ensures OutOf(e.op, Head(s)) + Perform(s, e).value.chan == s.chan + Into(e.op)
  {
    if e.op.NoOp? {
      EmptyParts(s.chan);
    }
  }

  lemma ClientMoveQueues(c: Client, a: ClientAction, head: Wrapper, made: Resource)
    requires ClientMove(c, a, head, made).Some?
    ensures var (d, e) := ClientMove(c, a, head, made).value;
            && Into(e.op) == (if a == Send then [HeldBy(c)] else if a == GiveBack then [None] else [])
            && OutOf(e.op, head) == if a == Fetch then [HeldBy(d)] else []
  {
  }

  lemma ClientFifo(s: Pool, i: nat, a: ClientAction)
    requires i < |s.clients| && ClientStep(s, i, a).Some? && !ClientStep(s, i, a).value.panicked
    ensures var t := ClientStep(s, i, a).value;
            ReceivedBy(t, Session(i, a)) + t.chan == s.chan + SentBy(s, Session(i, a))
  {
    hide ClientMove, Perform, HeldBy, Into, OutOf;
    ClientMoveQueues(s.clients[i], a, Head(s), s.made);
    QueueMoves(s, ClientMove(s.clients[i], a, Head(s), s.made).value.1);
  }

  lemma ResizerMoveQueues(c: Resizer, a: ResizerAction, head: Wrapper)
    requires ResizerMove(c, a, head).Some?
    ensures var (d, e) := ResizerMove(c, a, head).value;
            && Into(e.op) == (if a == Fill then [None] else [])
            && OutOf(e.op, head) == if a == Drain then [HeldByResizer(d)] else []
  {
  }

  lemma ResizerFifo(s: Pool, k: nat, a: ResizerAction)
    requires k < |s.resizers| && ResizerStep(s, k, a).Some? && !ResizerStep(s, k, a).value.panicked
    ensures var t := ResizerStep(s, k, a).value;
            ReceivedBy(t, Resize(k, a)) + t.chan == s.chan + SentBy(s, Resize(k, a))
  {
    hide ResizerMove, Perform, HeldByResizer, Into, OutOf;
    if s.resizers[k].Ready? || s.resizers[k].Read? || a == Finish {
      EmptyParts(s.chan);
    } else {
      ResizerMoveQueues(s.resizers[k], a, Head(s));
      QueueMoves(s, ResizerMove(s.resizers[k], a, Head(s)).value.1);
    }
  }

  lemma SweeperMoveQueues(w: Sweeper, a: SweeperAction, head: Wrapper, empty: bool, available: int)
    requires SweeperMove(w, a, head, empty, false, available).Some?
    ensures var (d, e) := SweeperMove(w, a, head, empty, false, available).value;
            && Into(e.op) == (if a == SweepReturn && w.SweepHas? then [w.w] else [])
            && OutOf(e.op, head) == if a == SweepFetch && d.SweepHas? then [d.w] else []
  {
  }

  lemma SweeperFifo(s: Pool, a: SweeperAction)
    requires SweeperStep(s, a).Some? && !SweeperStep(s, a).value.panicked && (s.closed ==> s.sweeper.Resting?)
    ensures var t := SweeperStep(s, a).value;
            ReceivedBy(t, Sweep(a)) + t.chan == s.chan + SentBy(s, Sweep(a))
  {
    EmptyParts(s.chan);
    if a != StopTimer && !s.closed {
      hide SweeperMove, Perform, Into, OutOf;
      SweeperMoveQueues(s.sweeper, a, Head(s), s.chan == [], s.available);
      QueueMoves(s, SweeperMove(s.sweeper, a, Head(s), s.chan == [], s.closed, s.available).value.1);
    }
  }

  /** The channel is a queue: what is received comes off its front, what is sent goes behind its end. */
  lemma StepFifo(s: Pool, step: Step)
    requires Inv(s) && Apply(s, step).Some? && !Apply(s, step).value.panicked
    ensures var t := Apply(s, step).value; ReceivedBy(t, step) + t.chan == s.chan + SentBy(s, step)
  {
    assert s.closed ==> s.sweeper.Resting?;
    hide Inv, ClientStep, ResizerStep, SweeperStep, SentBy, ReceivedBy;
    match step
    case Session(i, a) => ClientFifo(s, i, a);
    case Resize(k, a) => ResizerFifo(s, k, a);
    case Sweep(a) => SweeperFifo(s, a);
  }

  /** All that a run sends, and all that it receives. */
  ghost function AllSent(s: Pool, steps: seq<Step>): seq<Wrapper>
    decreases |steps|
  {
    if steps == [] || Apply(s, steps[0]).None? then []
    else SentBy(s, steps[0]) + AllSent(Apply(s, steps[0]).value, steps[1..])
  }

  ghost function AllReceived(s: Pool, steps: seq<Step>): seq<Wrapper>
    decreases |steps|
  {
    if steps == [] || Apply(s, steps[0]).None? then []
    else
      var t := Apply(s, steps[0]).value;
      ReceivedBy(t, steps[0]) + AllReceived(t, steps[1..])
  }

  lemma KeptDoesNotPanic(s: Pool)
    requires Inv(s)
    ensures !s.panicked
  {
  }

  /** First in, first out, over any run: what was received, followed by what is in the channel, is what was in it,
      followed by what was sent. So a resource that is put back is the next one taken after those before it. */
  lemma {:induction false} Fifo(s: Pool, steps: seq<Step>)
    requires Inv(s) && DisciplinedRun(s, steps) && Run(s, steps).Some?
    ensures AllReceived(s, steps) + Run(s, steps).value.chan == s.chan + AllSent(s, steps)
    decreases |steps|
  {
    hide Inv, Apply, Disciplined, SentBy, ReceivedBy;
    if steps == [] {
      EmptyParts(s.chan);
    } else {
      var t := Apply(s, steps[0]).value;
      StepKeeps(s, steps[0]);
      KeptDoesNotPanic(t);
      StepFifo(s, steps[0]);
      Fifo(t, steps[1..]);
      var r, rs := ReceivedBy(t, steps[0]), AllReceived(t, steps[1..]);
      var a, as' := SentBy(s, steps[0]), AllSent(t, steps[1..]);
      Associative(r, rs, Run(s, steps).value.chan);
      Associative(r, t.chan, as');
      Associative(s.chan, a, as');
    }
  }

  /** A send waits for room, or panics: no run, disciplined or not, puts more into the channel than it can hold. */
  lemma {:induction false} NeverOverfull(s: Pool, steps: seq<Step>)
    requires |s.chan| <= s.maxCap && Run(s, steps).Some?
    ensures |Run(s, steps).value.chan| <= Run(s, steps).value.maxCap == s.maxCap
    decreases |steps|
  {
    hide Apply;
    if steps != [] {
      StepBounded(s, steps[0]);
      NeverOverfull(Apply(s, steps[0]).value, steps[1..]);
    }
  }

  lemma StepBounded(s: Pool, step: Step)
    requires |s.chan| <= s.maxCap && Apply(s, step).Some?
    ensures |Apply(s, step).value.chan| <= Apply(s, step).value.maxCap == s.maxCap
  {
    hide ClientMove, ResizerMove, SweeperMove, Perform, Head;
    match step
    case Session(i, a) => PerformBounded(s, ClientMove(s.clients[i], a, Head(s), s.made).value.1);
    case Resize(k, a) =>
      if !(s.resizers[k].Ready? || s.resizers[k].Read? || a == Finish) {
        PerformBounded(s, ResizerMove(s.resizers[k], a, Head(s)).value.1);
      }
    case Sweep(a) =>
      if a != StopTimer {
        PerformBounded(s, SweeperMove(s.sweeper, a, Head(s), s.chan == [], s.closed, s.available).value.1);
      }
  }

  lemma PerformBounded(s: Pool, e: Effect)
    requires |s.chan| <= s.maxCap && Perform(s, e).Some?
    ensures |Perform(s, e).value.chan| <= Perform(s, e).value.maxCap == s.maxCap
  {
    hide AsSet;
  }

  /** The resource a step closes: only one drained by SetCapacity, or one the sweep took out. */
  ghost function ClosedBy(s: Pool, step: Step): Wrapper {
    match step
    case Session(_, _) => None
    case Resize(k, a) =>
      if a == Close && k < |s.resizers| && s.resizers[k].DrainClose? then Some(s.resizers[k].r) else None
    case Sweep(a) => if a == SweepClose && s.sweeper.SweepHas? then s.sweeper.w else None
  }

  /** The resource a step gives up: only the held one, by Put(nil). */
  ghost function GivenUpBy(s: Pool, step: Step): Wrapper {
    match step
    case Session(i, a) =>
      if a == PutNil && i < |s.clients| && s.clients[i].Holding? then Some(s.clients[i].r) else None
    case _ => None
  }

  lemma FateOf(s: Pool, e: Effect)
    requires Perform(s, e).Some? && !Perform(s, e).value.panicked
    ensures var t := Perform(s, e).value;
            && t.shut == s.shut + AsSet(e.shut) && t.discarded == s.discarded + AsSet(e.discarded)
            && t.made == s.made + if e.makes then 1 else 0
  {
    hide AsSet;
  }

  lemma ClientMoveFate(s: Pool, i: nat, a: ClientAction)
    requires i < |s.clients| && ClientMove(s.clients[i], a, Head(s), s.made).Some?
    ensures var (c, e) := ClientMove(s.clients[i], a, Head(s), s.made).value;
            && e.shut == None && e.discarded == GivenUpBy(s, Session(i, a)) && e.makes == (a == FactoryOk)
            && (a == FactoryOk ==> c == Made(s.made))
  {
    hide Head;
  }

  /** No session closes a resource, and none leaves the pool through a session but by Put(nil); new ones come only
      from the factory, to the session that asked. */
  lemma ClientFate(s: Pool, i: nat, a: ClientAction)
    requires i < |s.clients| && ClientStep(s, i, a).Some? && !ClientStep(s, i, a).value.panicked
    ensures var t := ClientStep(s, i, a).value;
            && t.shut == s.shut && t.discarded == s.discarded + AsSet(GivenUpBy(s, Session(i, a)))
            && t.made == s.made + (if a == FactoryOk then 1 else 0)
            && (a == FactoryOk ==> t.clients == s.clients[i := Made(s.made)])
  {
    hide ClientMove, Perform, AsSet, GivenUpBy, Head;
    ClientMoveFate(s, i, a);
    FateOf(s, ClientMove(s.clients[i], a, Head(s), s.made).value.1);
    NoneIsEmpty(s.shut);
  }

  lemma ResizerMoveFate(s: Pool, k: nat, a: ResizerAction)
    requires k < |s.resizers| && ResizerMove(s.resizers[k], a, Head(s)).Some?
    ensures var e := ResizerMove(s.resizers[k], a, Head(s)).value.1;
            e.shut == ClosedBy(s, Resize(k, a)) && e.discarded == None && !e.makes
  {
    hide Head;
  }

  lemma ResizerFate(s: Pool, k: nat, a: ResizerAction)
    requires k < |s.resizers| && ResizerStep(s, k, a).Some? && !ResizerStep(s, k, a).value.panicked
    ensures var t := ResizerStep(s, k, a).value;
            && t.shut == s.shut + AsSet(ClosedBy(s, Resize(k, a))) && t.discarded == s.discarded && t.made == s.made
  {
    hide ResizerMove, Perform, AsSet, Head;
    NoneIsEmpty(s.discarded);
    if s.resizers[k].Ready? || s.resizers[k].Read? || a == Finish {
      NoneIsEmpty(s.shut);
    } else {
      hide ClosedBy;
      ResizerMoveFate(s, k, a);
      FateOf(s, ResizerMove(s.resizers[k], a, Head(s)).value.1);
    }
  }

  lemma SweeperMoveFate(s: Pool, a: SweeperAction)
    requires SweeperMove(s.sweeper, a, Head(s), s.chan == [], s.closed, s.available).Some?
    ensures var e := SweeperMove(s.sweeper, a, Head(s), s.chan == [], s.closed, s.available).value.1;
            e.shut == ClosedBy(s, Sweep(a)) && e.discarded == None && !e.makes
  {
    hide Head;
  }

  lemma SweeperFate(s: Pool, a: SweeperAction)
    requires SweeperStep(s, a).Some? && !SweeperStep(s, a).value.panicked
    ensures var t := SweeperStep(s, a).value;
            && t.shut == s.shut + AsSet(ClosedBy(s, Sweep(a))) && t.discarded == s.discarded && t.made == s.made
  {
    hide SweeperMove, Perform, AsSet, Head;
    NoneIsEmpty(s.discarded);
    if a == StopTimer {
      NoneIsEmpty(s.shut);
    } else {
      hide ClosedBy;
      SweeperMoveFate(s, a);
      FateOf(s, SweeperMove(s.sweeper, a, Head(s), s.chan == [], s.closed, s.available).value.1);
    }
  }

  lemma StepFate(s: Pool, step: Step)
    requires Apply(s, step).Some? && !Apply(s, step).value.panicked
    ensures var t := Apply(s, step).value;
            && t.shut == s.shut + AsSet(ClosedBy(s, step)) && t.discarded == s.discarded + AsSet(GivenUpBy(s, step))
            && t.made == s.made + (if step.Session? && step.action == FactoryOk then 1 else 0)
  {
    hide ClientStep, ResizerStep, SweeperStep, AsSet;
    NoneIsEmpty(s.shut);
    NoneIsEmpty(s.discarded);
    match step
    case Session(i, a) => ClientFate(s, i, a);
    case Resize(k, a) => ResizerFate(s, k, a);
    case Sweep(a) => SweeperFate(s, a);
  }

  /** The resources a run closes, those it gives up, and how many it makes. */
  ghost function AllClosed(s: Pool, steps: seq<Step>): multiset<Resource>
    decreases |steps|
  {
    if steps == [] || Apply(s, steps[0]).None? then multiset{}
    else AsSet(ClosedBy(s, steps[0])) + AllClosed(Apply(s, steps[0]).value, steps[1..])
  }

  ghost function AllGivenUp(s: Pool, steps: seq<Step>): multiset<Resource>
    decreases |steps|
  {
    if steps == [] || Apply(s, steps[0]).None? then multiset{}
    else AsSet(GivenUpBy(s, steps[0])) + AllGivenUp(Apply(s, steps[0]).value, steps[1..])
  }

  function Makes(step: Step): int { if step.Session? && step.action == FactoryOk then 1 else 0 }

  /** Over any run, the resources closed are exactly those that drains and the sweep took out and closed, those given
      up exactly the ones held at a Put(nil), and one is made at every successful factory call. */
  lemma {:induction false} RunFate(s: Pool, steps: seq<Step>)
    requires Inv(s) && DisciplinedRun(s, steps) && Run(s, steps).Some?
    ensures var t := Run(s, steps).value;
            && t.shut == s.shut + AllClosed(s, steps) && t.discarded == s.discarded + AllGivenUp(s, steps)
            && t.made == s.made + Sum(Makes, steps)
    decreases |steps|
  {
    hide Inv, Apply, Disciplined, ClosedBy, GivenUpBy, AsSet;
    if steps != [] {
      StepKeeps(s, steps[0]);
      KeptDoesNotPanic(Apply(s, steps[0]).value);
      StepFate(s, steps[0]);
      RunFate(Apply(s, steps[0]).value, steps[1..]);
    }
  }

  /** Session i has resource r on its way to the caller, or in the caller's hands. */
  predicate KeepsFor(s: Pool, i: nat, r: Resource) {
    i < |s.clients| && s.clients[i] in {Made(r), Counted(r), Claimed(r), Holding(r)}
  }

  /** The steps of a Put. */
  predicate PutsBack(step: Step, i: nat) { step in {Session(i, Send), Session(i, PutNil)} }

  /** Whatever others do, a session keeps the resource it received or made until it puts it back. */
  lemma {:induction false} KeepsHold(s: Pool, steps: seq<Step>, i: nat, r: Resource)
    requires KeepsFor(s, i, r) && Run(s, steps).Some? && forall j :: 0 <= j < |steps| ==> !PutsBack(steps[j], i)
    ensures KeepsFor(Run(s, steps).value, i, r)
    decreases |steps|
  {
    hide Apply;
    if steps != [] {
      HoldStep(s, steps[0], i, r);
      KeepsHold(Apply(s, steps[0]).value, steps[1..], i, r);
    }
  }

  lemma HoldStep(s: Pool, step: Step, i: nat, r: Resource)
    requires KeepsFor(s, i, r) && Apply(s, step).Some? && !PutsBack(step, i)
    ensures KeepsFor(Apply(s, step).value, i, r)
  {
  }
}
