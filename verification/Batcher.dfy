/** The batcher (sync2/batcher.go) as a state machine: each atomic operation on a counter, and each hand-over
    on the unbuffered queue, is one step; any number of callers and batch goroutines interleave. */
module Batcher {
  import opened Prelude
  import opened Sums

  /** Where one caller stands; it may call Wait again and again. */
  datatype Caller =
    | Idle
    | Spawning   // was first to register, about to start a batch
    | Waiting    // receiving from the queue

  /** Where one batch goroutine stands. */
  datatype Batch =
    | Timing                        // waits for the interval
    | Fired(id: nat)                // has its id, about to read the number of waiters
    | Comparing(id: nat, seen: nat) // about to swap the number it saw for zero
    | Sending(id: nat, left: nat)

  datatype State = State(waiters: nat, nextId: nat, callers: seq<Caller>, batches: seq<Batch>, served: seq<(nat, nat)>)

  datatype Step =
    | Register(i: nat)              // Wait: waiters.Add(1)
    | Spawn(i: nat)                 // newBatch
    | Fire(j: nat)                  // the interval is over: nextID.Add(1)
    | Look(j: nat)                  // waiters.Get()
    | Take(j: nat)                  // waiters.CompareAndSwap(seen, 0)
    | HandOver(j: nat, i: nat)      // the queue: batch j sends, caller i receives

  function NewBatcher(callers: nat): State { State(0, 0, seq(callers, _ => Idle), [], []) }

  /** One step, if it is possible now. */
  function Apply(s: State, step: Step): Option<State> {
    match step
    case Register(i) =>
      if i < |s.callers| && s.callers[i].Idle? then
        Some(s.(waiters := s.waiters + 1, callers := s.callers[i := if s.waiters == 0 then Spawning else Waiting]))
      else None
    case Spawn(i) =>
      if i < |s.callers| && s.callers[i].Spawning?
        then Some(s.(callers := s.callers[i := Waiting], batches := s.batches + [Timing])) else None
    case Fire(j) =>
      if j < |s.batches| && s.batches[j].Timing? then
        Some(s.(nextId := s.nextId + 1, batches := s.batches[j := Fired(s.nextId + 1)]))
      else None
    case Look(j) =>
      if j < |s.batches| && s.batches[j].Fired?
        then Some(s.(batches := s.batches[j := Comparing(s.batches[j].id, s.waiters)])) else None
    case Take(j) =>
      if j < |s.batches| && s.batches[j].Comparing? then
        var b := s.batches[j];
        if s.waiters == b.seen then Some(s.(waiters := 0, batches := s.batches[j := Sending(b.id, b.seen)]))
        else Some(s.(batches := s.batches[j := Fired(b.id)]))
      else None
    case HandOver(j, i) =>
      if j < |s.batches| && s.batches[j].Sending? && s.batches[j].left > 0 && i < |s.callers|
        && s.callers[i].Waiting? then
        var b := s.batches[j];
        Some(s.(callers := s.callers[i := Idle], batches := s.batches[j := Sending(b.id, b.left - 1)],
          served := s.served + [(i, b.id)]))
      else None
  }

  function Run(s: State, steps: seq<Step>): Option<State>
    decreases |steps|
  {
    if steps == [] then Some(s)
    else
      match Apply(s, steps[0])
      case None => None
      case Some(t) => Run(t, steps[1..])
  }

  // ------------------------------------------------------------------------- invariants

  function Unserved(c: Caller): int { if c.Idle? then 0 else 1 }
  function IsSpawning(c: Caller): int { if c.Spawning? then 1 else 0 }
  function Owed(b: Batch): int { if b.Sending? then b.left else 0 }
  function Untaken(b: Batch): int { if b.Sending? then 0 else 1 }

  /** Callers registered and not yet served are counted, or owed an id by a batch. */
  ghost predicate Accounted(s: State) { Sum(Unserved, s.callers) == s.waiters + Sum(Owed, s.batches) }

  /** A positive counter has exactly one batch that has not taken it yet, counting one about to be started. */
  ghost predicate OneBatch(s: State) {
    Sum(Untaken, s.batches) + Sum(IsSpawning, s.callers) == if s.waiters > 0 then 1 else 0
  }

  /** The id of a batch, zero before it has fired. */
  function IdOf(b: Batch): nat { if b.Timing? then 0 else b.id }

  predicate DistinctIds(bs: seq<Batch>) {
    forall i, j :: 0 <= i < j < |bs| && IdOf(bs[i]) != 0 ==> IdOf(bs[i]) != IdOf(bs[j])
  }

  /** Every batch has its own id, and callers only get ids of batches that have fired. */
  ghost predicate Numbered(s: State) {
    && DistinctIds(s.batches)
    && (forall j :: 0 <= j < |s.batches| ==> IdOf(s.batches[j]) <= s.nextId)
    && (forall j :: 0 <= j < |s.batches| && !s.batches[j].Timing? ==> s.batches[j].id >= 1)
    && (forall k :: 0 <= k < |s.served| ==> 1 <= s.served[k].1 <= s.nextId)
  }

  ghost predicate Inv(s: State) { Accounted(s) && OneBatch(s) && Numbered(s) }

  lemma BooksKept(s: State, step: Step)
    requires Accounted(s) && OneBatch(s) && Apply(s, step).Some?
    ensures Accounted(Apply(s, step).value) && OneBatch(Apply(s, step).value)
  {
    var t := Apply(s, step).value;
    match step
    case Register(i) =>
      SumUpdate(Unserved, s.callers, i, t.callers[i]);
      SumUpdate(IsSpawning, s.callers, i, t.callers[i]);
    case Spawn(i) =>
      SumUpdate(Unserved, s.callers, i, Waiting);
      SumUpdate(IsSpawning, s.callers, i, Waiting);
      SumAppend(Owed, s.batches, Timing);
      SumAppend(Untaken, s.batches, Timing);
    case Fire(j) =>
      SumUpdate(Owed, s.batches, j, t.batches[j]);
      SumUpdate(Untaken, s.batches, j, t.batches[j]);
    case Look(j) =>
      SumUpdate(Owed, s.batches, j, t.batches[j]);
      SumUpdate(Untaken, s.batches, j, t.batches[j]);
    case Take(j) =>
      SumUpdate(Owed, s.batches, j, t.batches[j]);
      SumUpdate(Untaken, s.batches, j, t.batches[j]);
      SumAtLeast(Untaken, s.batches, j);
      SumAtLeast(IsSpawning, s.callers, |s.callers|);
    case HandOver(j, i) =>
      SumUpdate(Unserved, s.callers, i, Idle);
      SumUpdate(IsSpawning, s.callers, i, Idle);
      SumUpdate(Owed, s.batches, j, t.batches[j]);
      SumUpdate(Untaken, s.batches, j, t.batches[j]);
  }

  lemma SameId(bs: seq<Batch>, j: nat, b: Batch)
    requires DistinctIds(bs) && j < |bs| && IdOf(b) == IdOf(bs[j])
    ensures DistinctIds(bs[j := b])
  {
  }

  lemma NewId(bs: seq<Batch>, j: nat, b: Batch)
    requires DistinctIds(bs) && j < |bs| && forall i :: 0 <= i < |bs| ==> IdOf(bs[i]) < IdOf(b)
    ensures DistinctIds(bs[j := b])
  {
  }

  lemma NumbersKept(s: State, step: Step)
    requires Numbered(s) && Apply(s, step).Some?
    ensures Numbered(Apply(s, step).value)
  {
    hide DistinctIds;
    var t := Apply(s, step).value;
    match step
    case Register(i) =>
    case Spawn(i) => OneMore(s.batches);
    case Fire(j) => NewId(s.batches, j, t.batches[j]);
    case Look(j) => SameId(s.batches, j, t.batches[j]);
    case Take(j) => SameId(s.batches, j, t.batches[j]);
    case HandOver(j, i) => SameId(s.batches, j, t.batches[j]);
  }

  lemma OneMore(bs: seq<Batch>)
    requires DistinctIds(bs)
    ensures DistinctIds(bs + [Timing])
  {
  }

  lemma {:induction false} RunKeeps(s: State, steps: seq<Step>)
    requires Inv(s) && Run(s, steps).Some?
    ensures Inv(Run(s, steps).value)
    decreases |steps|
  {
    if steps != [] {
      BooksKept(s, steps[0]);
      NumbersKept(s, steps[0]);
      hide Apply, Accounted, OneBatch, Numbered;
      RunKeeps(Apply(s, steps[0]).value, steps[1..]);
    }
  }

  /** After any interleaving the books balance. */
  lemma Reached(callers: nat, steps: seq<Step>)
    requires Run(NewBatcher(callers), steps).Some?
    ensures Inv(Run(NewBatcher(callers), steps).value)
  {
    var s := NewBatcher(callers);
    SumOfZeros(Unserved, s.callers);
    SumOfZeros(IsSpawning, s.callers);
    RunKeeps(s, steps);
  }

  /** No wake-up is lost: once no batch is pending, being started or sending, no caller waits. */
  lemma NobodyForgotten(callers: nat, steps: seq<Step>)
    requires Run(NewBatcher(callers), steps).Some?
    ensures var s := Run(NewBatcher(callers), steps).value;
            (forall j :: 0 <= j < |s.batches| ==> s.batches[j].Sending? && s.batches[j].left == 0)
              && (forall i :: 0 <= i < |s.callers| ==> !s.callers[i].Spawning?)
            ==> forall i :: 0 <= i < |s.callers| ==> s.callers[i].Idle?
  {
    Reached(callers, steps);
    var s := Run(NewBatcher(callers), steps).value;
    hide Run, NewBatcher;
    if (forall j :: 0 <= j < |s.batches| ==> s.batches[j].Sending? && s.batches[j].left == 0)
      && (forall i :: 0 <= i < |s.callers| ==> !s.callers[i].Spawning?) {
      SumOfZeros(Untaken, s.batches);
      SumOfZeros(IsSpawning, s.callers);
      SumOfZeros(Owed, s.batches);
      forall i | 0 <= i < |s.callers| ensures s.callers[i].Idle? {
        SumAtLeast(Unserved, s.callers, i);
      }
    }
  }

  /** A batch never sends without a receiver to come: it owes at most as many ids as callers are unserved. */
  lemma NeverOwesTooMuch(callers: nat, steps: seq<Step>, j: nat)
    requires Run(NewBatcher(callers), steps).Some? && j < |Run(NewBatcher(callers), steps).value.batches|
    ensures var s := Run(NewBatcher(callers), steps).value; Owed(s.batches[j]) <= Sum(Unserved, s.callers)
  {
    Reached(callers, steps);
    var s := Run(NewBatcher(callers), steps).value;
    hide Run, NewBatcher;
    SumAtLeast(Owed, s.batches, j);
  }

  // ------------------------------------------------------------- who is answered, by which batch

  function ToCaller(i: nat): ((nat, nat)) -> int { (answer: (nat, nat)) => if answer.0 == i then 1 else 0 }
  function FromBatch(id: nat): ((nat, nat)) -> int { (answer: (nat, nat)) => if answer.1 == id then 1 else 0 }
  function OwedUnder(id: nat): Batch -> int { (b: Batch) => if b.Sending? && b.id == id then b.left else 0 }

  function CallsWait(i: nat): Step -> int { (step: Step) => if step == Register(i) then 1 else 0 }

  function InsideWait(s: State, i: nat): int { if i < |s.callers| && !s.callers[i].Idle? then 1 else 0 }

  lemma StepReturns(s: State, step: Step, i: nat)
    requires Apply(s, step).Some?
    ensures var t := Apply(s, step).value;
            Sum(ToCaller(i), t.served) + InsideWait(t, i)
            == Sum(ToCaller(i), s.served) + InsideWait(s, i) + CallsWait(i)(step)
  {
    if step.HandOver? {
      SumAppend(ToCaller(i), s.served, (step.i, s.batches[step.j].id));
    }
  }

  /** Over every run, every call of Wait returns exactly once, or the caller is still in it. */
  lemma {:induction false} WaitsReturn(s: State, steps: seq<Step>, i: nat)
    requires Run(s, steps).Some?
    ensures var t := Run(s, steps).value;
            Sum(ToCaller(i), t.served) + InsideWait(t, i)
            == Sum(ToCaller(i), s.served) + InsideWait(s, i) + Sum(CallsWait(i), steps)
    decreases |steps|
  {
    hide Apply, InsideWait;
    if steps != [] {
      StepReturns(s, steps[0], i);
      WaitsReturn(Apply(s, steps[0]).value, steps[1..], i);
    }
  }

  /** How many callers the batch with this id takes in a step: all that wait when it empties the counter. */
  function TakenIn(s: State, step: Step, id: nat): nat {
    if step.Take? && step.j < |s.batches| && s.batches[step.j] == Comparing(id, s.waiters) then s.waiters else 0
  }

  function TakenBy(s: State, steps: seq<Step>, id: nat): nat
    decreases |steps|
  {
    if steps == [] || Apply(s, steps[0]).None? then 0
    else TakenIn(s, steps[0], id) + TakenBy(Apply(s, steps[0]).value, steps[1..], id)
  }

  lemma StepServes(s: State, step: Step, id: nat)
    requires Apply(s, step).Some?
    ensures var t := Apply(s, step).value;
            Sum(FromBatch(id), t.served) + Sum(OwedUnder(id), t.batches)
            == Sum(FromBatch(id), s.served) + Sum(OwedUnder(id), s.batches) + TakenIn(s, step, id)
  {
    var t := Apply(s, step).value;
    match step
    case Register(_) =>
    case Spawn(_) => SumAppend(OwedUnder(id), s.batches, Timing);
    case Fire(j) => SumUpdate(OwedUnder(id), s.batches, j, t.batches[j]);
    case Look(j) => SumUpdate(OwedUnder(id), s.batches, j, t.batches[j]);
    case Take(j) => SumUpdate(OwedUnder(id), s.batches, j, t.batches[j]);
    case HandOver(j, i) =>
      SumUpdate(OwedUnder(id), s.batches, j, t.batches[j]);
      SumAppend(FromBatch(id), s.served, (i, s.batches[j].id));
  }

  /** Over every run, a batch answers with its own id exactly as many callers as waited when it took the counter, but
      for those it still owes. */
  lemma {:induction false} BatchServes(s: State, steps: seq<Step>, id: nat)
    requires Run(s, steps).Some?
    ensures var t := Run(s, steps).value;
            Sum(FromBatch(id), t.served) + Sum(OwedUnder(id), t.batches)
            == Sum(FromBatch(id), s.served) + Sum(OwedUnder(id), s.batches) + TakenBy(s, steps, id)
    decreases |steps|
  {
    hide Apply, TakenIn;
    if steps != [] {
      StepServes(s, steps[0], id);
      BatchServes(Apply(s, steps[0]).value, steps[1..], id);
    }
  }

  function IsFire(step: Step): int { if step.Fire? then 1 else 0 }
  function HasFired(b: Batch): int { if b.Timing? then 0 else 1 }

  lemma StepNumbers(s: State, step: Step)
    requires Apply(s, step).Some?
    ensures var t := Apply(s, step).value;
            && t.nextId == s.nextId + IsFire(step)
            && Sum(HasFired, t.batches) == Sum(HasFired, s.batches) + IsFire(step)
            && (step.Fire? ==> step.j < |t.batches| && t.batches[step.j] == Fired(t.nextId))
  {
    var t := Apply(s, step).value;
    match step
    case Register(_) =>
    case Spawn(_) => SumAppend(HasFired, s.batches, Timing);
    case Fire(j) => SumUpdate(HasFired, s.batches, j, t.batches[j]);
    case Look(j) => SumUpdate(HasFired, s.batches, j, t.batches[j]);
    case Take(j) => SumUpdate(HasFired, s.batches, j, t.batches[j]);
    case HandOver(j, _) => SumUpdate(HasFired, s.batches, j, t.batches[j]);
  }

  /** Batches are numbered one, two, three and so on in the order their intervals end: the ids given are as many as the
      batches that fired, and each has its own between one and that number. */
  lemma {:induction false} ConsecutiveIds(s: State, steps: seq<Step>)
    requires Run(s, steps).Some?
    ensures var t := Run(s, steps).value;
            && t.nextId == s.nextId + Sum(IsFire, steps)
            && Sum(HasFired, t.batches) == Sum(HasFired, s.batches) + Sum(IsFire, steps)
    decreases |steps|
  {
    hide Apply;
    if steps != [] {
      StepNumbers(s, steps[0]);
      ConsecutiveIds(Apply(s, steps[0]).value, steps[1..]);
    }
  }
}
