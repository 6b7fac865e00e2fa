/** What every interleaving of the pool's steps keeps, and why the rules for its callers are needed. */
module ResourcePoolProperties {
  import opened Prelude
  import opened Sums
  import opened ResourcePool

  // --------------------------------------------------------------- ghost accounting

  /** Slots a session has taken out of the channel. */
  function Tokens(c: Client): int {
    match c
    case Idle => 0
    case Returned => 0
    case Released => 0
    case _ => 1
  }

  /** How far `available` is from counting the channel, because of a half-finished session. */
  function AvailableDelta(c: Client): int {
    match c
    case Creating => 1
    case FactoryFailed => 1
    case Made(_) => 1
    case Counted(_) => 1
    case Returned => -1
    case Released => -1
    case _ => 0
  }

  function InUse(c: Client): int {
    match c
    case Holding(_) => 1
    case Discarding => 1
    case Returned => 1
    case _ => 0
  }

  /** Live resources of a session that `active` counts. */
  function ActiveOf(c: Client): int {
    match c
    case Counted(_) => 1
    case Claimed(_) => 1
    case Holding(_) => 1
    case _ => 0
  }

  /** The resource a session has in its hands. */
  function HeldBy(c: Client): Wrapper {
    match c
    case Made(r) => Some(r)
    case Counted(r) => Some(r)
    case Claimed(r) => Some(r)
    case Holding(r) => Some(r)
    case _ => None
  }

  /** Slots a SetCapacity call still has to remove, less those it still has to add. */
  function Owes(r: Resizer): int {
    match r
    case Ready => 0
    case Read(_, _) => 0
    case Draining(left, _) => left
    case DrainClose(_, left, _) => left
    case DrainActive(left, _) => left
    case DrainAvailable(left, _) => left
    case Filling(left, _) => 0 - left
    case FillAvailable(left, _) => 0 - left
  }

  function ResizerAvailable(r: Resizer): int {
    match r
    case DrainClose(_, _, _) => 1
    case DrainActive(_, _) => 1
    case DrainAvailable(_, _) => 1
    case FillAvailable(_, _) => -1
    case _ => 0
  }

  function ResizerActive(r: Resizer): int {
    if r.DrainClose? || r.DrainActive? then 1 else 0
  }

  function HeldByResizer(r: Resizer): Wrapper { if r.DrainClose? then Some(r.r) else None }

  function SweeperTokens(w: Sweeper): int {
    if w.SweepHas? || w.SweepActive? then 1 else 0
  }

  function SweeperActive(w: Sweeper): int {
    if w.SweepActive? || (w.SweepHas? && w.w.Some?) then 1 else 0
  }

  function HeldBySweeper(w: Sweeper): Wrapper { if w.SweepHas? then w.w else None }

  function WrapperActive(w: Wrapper): int { if w.Some? then 1 else 0 }

  function Has(w: Wrapper, r: Resource): int { if w == Some(r) then 1 else 0 }

  // Who has resource r, as counting functions for the sums below.
  function InSlot(r: Resource): Wrapper -> int { w => Has(w, r) }
  function InSession(r: Resource): Client -> int { c => Has(HeldBy(c), r) }
  function InCall(r: Resource): Resizer -> int { c => Has(HeldByResizer(c), r) }

  /** The number of places resource r is in: the channel, a session, the sweep, a SetCapacity
      call, closed by the pool, or given up by a client. */
  ghost function Places(s: Pool, r: Resource): int {
    Sum(InSlot(r), s.chan) + Sum(InSession(r), s.clients) + Has(HeldBySweeper(s.sweeper), r)
      + Sum(InCall(r), s.resizers)
      + s.shut[r] + s.discarded[r]
  }

  // --------------------------------------------------------------------- invariants

  /** Channel slots and slots in hand add up to the capacity, corrected by what a SetCapacity call still owes. */
  ghost predicate Conserved(s: Pool) {
    |s.chan| + Sum(Tokens, s.clients) + SweeperTokens(s.sweeper) == s.capacity + Sum(Owes, s.resizers)
  }

  ghost predicate CallOk(s: Pool, r: Resizer) {
    match r
    case Ready => true
    case Read(from, target) => from == s.capacity && 0 < from && target != from && target <= s.maxCap
    case Draining(left, target) => s.capacity == target && target + left <= s.maxCap
    case DrainClose(_, left, target) => s.capacity == target && target + left <= s.maxCap
    case DrainActive(left, target) => s.capacity == target && target + left <= s.maxCap
    case DrainAvailable(left, target) => s.capacity == target && target + left <= s.maxCap
    case Filling(left, target) => s.capacity == target && left < target <= s.maxCap
    case FillAvailable(left, target) => s.capacity == target && left < target <= s.maxCap
  }

  /** At most one SetCapacity call is under way. */
  ghost predicate Serial(s: Pool) {
    forall i, j :: 0 <= i < j < |s.resizers| ==> s.resizers[i].Ready? || s.resizers[j].Ready?
  }

  /** The pool is shutting down only when the idle sweep can no longer run. */
  ghost predicate Quiet(s: Pool) { !s.timerOn && s.sweeper.Resting? }

  ghost predicate Orderly(s: Pool) {
    && !s.panicked && 0 <= s.capacity <= s.maxCap
    && Serial(s) && (forall k :: 0 <= k < |s.resizers| ==> CallOk(s, s.resizers[k]))
    && (s.capacity == 0 ==> Quiet(s))
    && (forall k :: 0 <= k < |s.resizers| && s.resizers[k].Read? && s.resizers[k].target == 0 ==> Quiet(s))
    && (s.closed ==> s.capacity == 0 && s.chan == [] && forall k :: 0 <= k < |s.resizers| ==> s.resizers[k].Ready?)
  }

  ghost predicate Counted3(s: Pool) {
    && s.available == |s.chan| + Sum(AvailableDelta, s.clients) + SweeperTokens(s.sweeper)
      + Sum(ResizerAvailable, s.resizers)
    && s.inUse == Sum(InUse, s.clients)
    && s.active == Sum(WrapperActive, s.chan) + Sum(ActiveOf, s.clients) + SweeperActive(s.sweeper)
      + Sum(ResizerActive, s.resizers)
  }

  /** Every resource the factory made is in exactly one place, and no other is anywhere. */
  ghost predicate Owned(s: Pool) {
    forall r: Resource :: Places(s, r) == if r < s.made then 1 else 0
  }

  ghost predicate Inv(s: Pool) { Conserved(s) && Orderly(s) && Counted3(s) && Owned(s) }

  /** What the pool asks of its callers: SetCapacity calls do not overlap, and the capacity is
      set to zero only when the idle timer is stopped, as Close does. */
  predicate Disciplined(s: Pool, step: Step) {
    step.Resize? && step.call.SetCapacity? ==>
      && (forall k :: 0 <= k < |s.resizers| ==> s.resizers[k].Ready?)
      && (step.call.target == 0 ==> !s.timerOn && s.sweeper.Resting?)
  }

  // ---------------------------------------------------------------------- bounds

  lemma OwedAtMost(s: Pool)
    requires Orderly(s)
    ensures s.capacity + Sum(Owes, s.resizers) <= s.maxCap
  {
    if k :| 0 <= k < |s.resizers| && !s.resizers[k].Ready? {
      SumOfOne(Owes, s.resizers, k);
      assert CallOk(s, s.resizers[k]);
    } else {
      SumOfZeros(Owes, s.resizers);
    }
  }

  /** A session with a slot in hand finds room in the channel, and the channel open. */
  lemma RoomForClient(s: Pool, i: nat)
    requires Conserved(s) && Orderly(s) && i < |s.clients| && Tokens(s.clients[i]) == 1
    ensures |s.chan| < s.maxCap && !s.closed
  {
    OwedAtMost(s);
    SumAtLeast(Tokens, s.clients, i);
    if s.closed {
      SumOfZeros(Owes, s.resizers);
    }
  }

  lemma RoomForSweeper(s: Pool)
    requires Conserved(s) && Orderly(s) && SweeperTokens(s.sweeper) == 1
    ensures |s.chan| < s.maxCap && !s.closed
  {
    OwedAtMost(s);
    SumAtLeast(Tokens, s.clients, |s.clients|);
  }

  lemma RoomForFill(s: Pool, k: nat)
    requires Conserved(s) && Orderly(s) && k < |s.resizers| && s.resizers[k].Filling? && s.resizers[k].left > 0
    ensures |s.chan| < s.maxCap && !s.closed
  {
    SumOfOne(Owes, s.resizers, k);
    SumAtLeast(Tokens, s.clients, |s.clients|);
    assert CallOk(s, s.resizers[k]);
  }

  // ------------------------------------------------------------ every step keeps them

  /** By how much a channel operation changes the length of the channel. */
  function Slots(op: ChanOp): int {
    match op
    case NoOp => 0
    case Receive => -1
    case _ => 1
  }

  /** The slot a channel operation moves. */
  function Moved(op: ChanOp, head: Wrapper): Wrapper {
    match op
    case NoOp => None
    case Receive => head
    case Give(w) => w
    case PutBack(w) => w
  }

  /** A move that keeps the books: what the mover accounts for changes by what the effect does to the rest. */
  ghost predicate Balanced(e: Effect, head: Wrapper, tokens: int, available: int, inUse: int, active: int) {
    && tokens + Slots(e.op) == 0
    && available + Slots(e.op) == e.available
    && inUse == e.inUse
    && active + Slots(e.op) * WrapperActive(Moved(e.op, head)) == e.active
  }

  /** A move that neither loses nor copies a resource: each one it had, received or made is
      still in its hands, sent, closed or given up. */
  ghost predicate Transfers(e: Effect, head: Wrapper, made: Resource, before: Wrapper, after: Wrapper) {
    forall r ::
      Has(after, r) + Has(e.shut, r) + Has(e.discarded, r) + (if Slots(e.op) == 1 then Has(Moved(e.op, head), r) else 0)
      == Has(before, r) + (if Slots(e.op) == -1 then Has(head, r) else 0) + (if e.makes && r == made then 1 else 0)
  }

  lemma ClientBalanced(c: Client, a: ClientAction, head: Wrapper, made: Resource)
    requires ClientMove(c, a, head, made).Some?
    ensures var (d, e) := ClientMove(c, a, head, made).value;
            && Balanced(e, head, Tokens(d) - Tokens(c), AvailableDelta(d) - AvailableDelta(c), InUse(d) - InUse(c),
              ActiveOf(d) - ActiveOf(c))
            && (Slots(e.op) == 1 ==> Tokens(c) == 1)
  {
  }

  lemma ClientTransfers(c: Client, a: ClientAction, head: Wrapper, made: Resource)
    requires ClientMove(c, a, head, made).Some?
    ensures var (d, e) := ClientMove(c, a, head, made).value;
            Transfers(e, head, made, HeldBy(c), HeldBy(d))
  {
  }

  lemma ResizerBalanced(c: Resizer, a: ResizerAction, head: Wrapper)
    requires ResizerMove(c, a, head).Some?
    ensures var (d, e) := ResizerMove(c, a, head).value;
            && Balanced(e, head, Owes(c) - Owes(d), ResizerAvailable(d) - ResizerAvailable(c), 0,
              ResizerActive(d) - ResizerActive(c))
            && (Slots(e.op) == 1 ==> c.Filling? && c.left > 0)
  {
  }

  lemma ResizerTransfers(c: Resizer, a: ResizerAction, head: Wrapper, made: Resource)
    requires ResizerMove(c, a, head).Some?
    ensures var (d, e) := ResizerMove(c, a, head).value;
            Transfers(e, head, made, HeldByResizer(c), HeldByResizer(d))
  {
  }

  lemma SweeperBalanced(w: Sweeper, a: SweeperAction, head: Wrapper, empty: bool, available: int)
    requires SweeperMove(w, a, head, empty, false, available).Some?
    ensures var (v, e) := SweeperMove(w, a, head, empty, false, available).value;
            && Balanced(e, head, SweeperTokens(v) - SweeperTokens(w), SweeperTokens(v) - SweeperTokens(w), 0,
              SweeperActive(v) - SweeperActive(w))
            && (Slots(e.op) == 1 ==> SweeperTokens(w) == 1)
  {
  }

  lemma SweeperTransfers(w: Sweeper, a: SweeperAction, head: Wrapper, empty: bool, available: int, made: Resource)
    requires SweeperMove(w, a, head, empty, false, available).Some?
    ensures var (v, e) := SweeperMove(w, a, head, empty, false, available).value;
            Transfers(e, head, made, HeldBySweeper(w), HeldBySweeper(v))
  {
  }

  /** The channel part of the books after an effect that did not panic. */
  lemma PerformBooks(s: Pool, e: Effect)
    requires Perform(s, e).Some? && (Slots(e.op) == 1 ==> !s.closed && |s.chan| < s.maxCap)
    ensures var t := Perform(s, e).value;
            && t == Account(s, e, t.chan)
            && |t.chan| == |s.chan| + Slots(e.op)
            && Sum(WrapperActive, t.chan) == Sum(WrapperActive, s.chan)
              + Slots(e.op) * WrapperActive(Moved(e.op, Head(s)))
            && (s.closed && s.chan == [] ==> t.chan == [])
  {
    if e.op.Give? || e.op.PutBack? {
      SumAppend(WrapperActive, s.chan, e.op.w);
    }
  }

  lemma PerformPlaces(s: Pool, e: Effect, r: Resource)
    requires Perform(s, e).Some? && (Slots(e.op) == 1 ==> !s.closed && |s.chan| < s.maxCap)
    ensures var t := Perform(s, e).value;
            && Sum(InSlot(r), t.chan) == Sum(InSlot(r), s.chan) + Slots(e.op) * Has(Moved(e.op, Head(s)), r)
            && t.shut[r] == s.shut[r] + Has(e.shut, r)
            && t.discarded[r] == s.discarded[r] + Has(e.discarded, r)
            && t.made == s.made + if e.makes then 1 else 0
  {
    if e.op.Give? || e.op.PutBack? {
      SumAppend(InSlot(r), s.chan, e.op.w);
    }
  }

  // Sessions.

  ghost predicate ClientMoves(s: Pool, i: nat, c: Client, e: Effect, t: Pool) {
    && i < |s.clients|
    && Perform(s, e).Some? && t == Perform(s, e).value.(clients := s.clients[i := c])
    && Balanced(e, Head(s), Tokens(c) - Tokens(s.clients[i]), AvailableDelta(c) - AvailableDelta(s.clients[i]),
                InUse(c) - InUse(s.clients[i]), ActiveOf(c) - ActiveOf(s.clients[i]))
    && Transfers(e, Head(s), s.made, HeldBy(s.clients[i]), HeldBy(c))
    && (Slots(e.op) == 1 ==> !s.closed && |s.chan| < s.maxCap)
  }

  lemma ClientMovesTo(s: Pool, i: nat, a: ClientAction) returns (c: Client, e: Effect, t: Pool)
    requires Inv(s) && i < |s.clients| && ClientStep(s, i, a).Some?
    ensures t == ClientStep(s, i, a).value && ClientMoves(s, i, c, e, t)
  {
    t := ClientStep(s, i, a).value;
    c, e := ClientMove(s.clients[i], a, Head(s), s.made).value.0, ClientMove(s.clients[i], a, Head(s), s.made).value.1;
    ClientBalanced(s.clients[i], a, Head(s), s.made);
    ClientTransfers(s.clients[i], a, Head(s), s.made);
    if Slots(e.op) == 1 {
      RoomForClient(s, i);
    }
    hide Tokens, AvailableDelta, InUse, ActiveOf, HeldBy, Slots, Moved, Transfers, Balanced, ClientMove, Inv;
  }

  lemma ClientFlow(s: Pool, i: nat, c: Client, e: Effect, t: Pool)
    requires Conserved(s) && Orderly(s) && ClientMoves(s, i, c, e, t)
    ensures Conserved(t) && Orderly(t)
  {
    PerformBooks(s, e);
    SumUpdate(Tokens, s.clients, i, c);
    SameCalls(s, t);
    hide Sum, CallOk, Serial, Tokens, AvailableDelta, InUse, ActiveOf, HeldBy, Slots, Moved, Transfers, Perform;
  }

  lemma ClientCounts(s: Pool, i: nat, c: Client, e: Effect, t: Pool)
    requires Counted3(s) && ClientMoves(s, i, c, e, t)
    ensures Counted3(t)
  {
    PerformBooks(s, e);
    SumUpdate(AvailableDelta, s.clients, i, c);
    SumUpdate(InUse, s.clients, i, c);
    SumUpdate(ActiveOf, s.clients, i, c);
    hide Sum, Tokens, AvailableDelta, InUse, ActiveOf, HeldBy, Slots, Moved, Transfers, Perform;
  }

  /** One resource's books: what leaves one place enters another. */
  lemma PlacesBalance(e: Effect, head: Wrapper, made: nat, before: Wrapper, after: Wrapper, r: Resource)
    requires Transfers(e, head, made, before, after)
    ensures Slots(e.op) * Has(Moved(e.op, head), r) + Has(after, r) + Has(e.shut, r) + Has(e.discarded, r)
            == Has(before, r) + if e.makes && r == made then 1 else 0
  {
  }

  lemma ClientOwned(s: Pool, i: nat, c: Client, e: Effect, t: Pool)
    requires Owned(s) && ClientMoves(s, i, c, e, t)
    ensures Owned(t)
  {
    PerformMade(s, e);
    hide Places, Perform, Balanced, Transfers, Slots, Moved, Head;
    forall r: Resource ensures Places(t, r) == if r < t.made then 1 else 0 {
      ClientPlaces(s, i, c, e, t, r);
    }
  }

  lemma PerformMade(s: Pool, e: Effect)
    requires Perform(s, e).Some? && (Slots(e.op) == 1 ==> !s.closed && |s.chan| < s.maxCap)
    ensures Perform(s, e).value.made == s.made + if e.makes then 1 else 0
  {
  }

  lemma ClientPlaces(s: Pool, i: nat, c: Client, e: Effect, t: Pool, r: Resource)
    requires ClientMoves(s, i, c, e, t)
    ensures Places(t, r) == Places(s, r) + if e.makes && r == s.made then 1 else 0
  {
    PerformPlaces(s, e, r);
    SumUpdate(InSession(r), s.clients, i, c);
    PlacesBalance(e, Head(s), s.made, HeldBy(s.clients[i]), HeldBy(c), r);
    assert t.resizers == s.resizers && t.sweeper == s.sweeper by { PerformBooks(s, e); }
    hide Sum, Slots, Moved, Perform, HeldBy, HeldBySweeper, Balanced, Has, Transfers, Tokens, AvailableDelta, InUse,
      ActiveOf, Head;
  }

  lemma ClientKeeps(s: Pool, i: nat, a: ClientAction)
    requires Inv(s) && i < |s.clients| && ClientStep(s, i, a).Some?
    ensures Inv(ClientStep(s, i, a).value)
  {
    hide Conserved, Orderly, Counted3, Owned, ClientMoves, ClientStep;
    var c, e, t := ClientMovesTo(s, i, a);
    ClientFlow(s, i, c, e, t);
    ClientCounts(s, i, c, e, t);
    ClientOwned(s, i, c, e, t);
  }

  /** The calls are judged by the capacity alone. */
  lemma SameCalls(s: Pool, t: Pool)
    requires s.resizers == t.resizers && s.capacity == t.capacity && s.maxCap == t.maxCap
    ensures Serial(s) <==> Serial(t)
    ensures forall r :: CallOk(s, r) <==> CallOk(t, r)
  {
  }

  // SetCapacity calls.

  ghost predicate ResizerMoves(s: Pool, k: nat, r: Resizer, e: Effect, t: Pool) {
    && k < |s.resizers|
    && Perform(s, e).Some? && t == Perform(s, e).value.(resizers := s.resizers[k := r])
    && Balanced(e, Head(s), Owes(s.resizers[k]) - Owes(r), ResizerAvailable(r) - ResizerAvailable(s.resizers[k]),
                0, ResizerActive(r) - ResizerActive(s.resizers[k]))
    && Transfers(e, Head(s), s.made, HeldByResizer(s.resizers[k]), HeldByResizer(r))
    && (Slots(e.op) == 1 ==> !s.closed && |s.chan| < s.maxCap)
    && !s.resizers[k].Ready? && !r.Read? && (CallOk(s, s.resizers[k]) ==> CallOk(s, r))
  }

  lemma ResizerCallKept(s: Pool, c: Resizer, a: ResizerAction, head: Wrapper)
    requires ResizerMove(c, a, head).Some?
    ensures a != Finish && !c.Ready? && !c.Read? && !ResizerMove(c, a, head).value.0.Read?
    ensures CallOk(s, c) ==> CallOk(s, ResizerMove(c, a, head).value.0)
  {
  }

  lemma ResizerMovesTo(s: Pool, k: nat, a: ResizerAction) returns (r: Resizer, e: Effect, t: Pool)
    requires Conserved(s) && Orderly(s) && k < |s.resizers| && ResizerMove(s.resizers[k], a, Head(s)).Some?
        && ResizerStep(s, k, a).Some?
    ensures t == ResizerStep(s, k, a).value && ResizerMoves(s, k, r, e, t)
  {
    t := ResizerStep(s, k, a).value;
    r, e := ResizerMove(s.resizers[k], a, Head(s)).value.0, ResizerMove(s.resizers[k], a, Head(s)).value.1;
    ResizerBalanced(s.resizers[k], a, Head(s));
    ResizerTransfers(s.resizers[k], a, Head(s), s.made);
    ResizerCallKept(s, s.resizers[k], a, Head(s));
    if Slots(e.op) == 1 {
      RoomForFill(s, k);
    }
    hide Owes, ResizerAvailable, ResizerActive, HeldByResizer, Slots, Moved, Transfers, Balanced, Orderly, Conserved,
      CallOk, ResizerMove, Head, Perform, Finished;
  }

  lemma ResizerFlow(s: Pool, k: nat, r: Resizer, e: Effect, t: Pool)
    requires Conserved(s) && Orderly(s) && ResizerMoves(s, k, r, e, t)
    ensures Conserved(t) && Orderly(t)
  {
    PerformBooks(s, e);
    SumUpdate(Owes, s.resizers, k, r);
    hide Sum, Tokens, Owes, ResizerAvailable, ResizerActive, HeldByResizer, Slots, Moved, Transfers, Perform;
    assert CallOk(s, s.resizers[k]);
    CallsAfter(s, t, k);
  }

  /** Only call k moved: the others stay ready, and calls are judged by the capacity alone. */
  lemma CallsAfter(s: Pool, t: Pool, k: nat)
    requires k < |s.resizers| && Serial(s) && !s.resizers[k].Ready?
    requires |t.resizers| == |s.resizers| && forall j :: 0 <= j < |s.resizers| && j != k ==>
               t.resizers[j] == s.resizers[j]
    ensures Serial(t)
    ensures forall j :: 0 <= j < |t.resizers| && j != k ==> t.resizers[j].Ready?
  {
  }

  lemma ResizerCounts(s: Pool, k: nat, r: Resizer, e: Effect, t: Pool)
    requires Counted3(s) && ResizerMoves(s, k, r, e, t)
    ensures Counted3(t)
  {
    PerformBooks(s, e);
    SumUpdate(ResizerAvailable, s.resizers, k, r);
    SumUpdate(ResizerActive, s.resizers, k, r);
    hide Sum, Owes, ResizerAvailable, ResizerActive, HeldByResizer, Slots, Moved, Transfers, Perform, CallOk;
  }

  lemma ResizerOwned(s: Pool, k: nat, c: Resizer, e: Effect, t: Pool)
    requires Owned(s) && ResizerMoves(s, k, c, e, t)
    ensures Owned(t)
  {
    PerformMade(s, e);
    hide Places, Perform, Balanced, Transfers, Slots, Moved, Head, CallOk;
    forall r: Resource ensures Places(t, r) == if r < t.made then 1 else 0 {
      ResizerPlaces(s, k, c, e, t, r);
    }
  }

  lemma ResizerPlaces(s: Pool, k: nat, c: Resizer, e: Effect, t: Pool, r: Resource)
    requires ResizerMoves(s, k, c, e, t)
    ensures Places(t, r) == Places(s, r) + if e.makes && r == s.made then 1 else 0
  {
    PerformPlaces(s, e, r);
    SumUpdate(InCall(r), s.resizers, k, c);
    PlacesBalance(e, Head(s), s.made, HeldByResizer(s.resizers[k]), HeldByResizer(c), r);
    assert t.clients == s.clients && t.sweeper == s.sweeper by { PerformBooks(s, e); }
    hide Sum, Slots, Moved, Perform, HeldByResizer, HeldBySweeper, Balanced, Has, Transfers, CallOk, Owes,
      ResizerAvailable, ResizerActive, Head;
  }

  lemma ResizerMoveKeeps(s: Pool, k: nat, a: ResizerAction)
    requires Inv(s) && k < |s.resizers| && ResizerMove(s.resizers[k], a, Head(s)).Some? && ResizerStep(s, k, a).Some?
    ensures Inv(ResizerStep(s, k, a).value)
  {
    hide Conserved, Orderly, Counted3, Owned, ResizerMoves, ResizerStep;
    var c, e, t := ResizerMovesTo(s, k, a);
    ResizerFlow(s, k, c, e, t);
    ResizerCounts(s, k, c, e, t);
    ResizerOwned(s, k, c, e, t);
  }

  /** A step that changes only what call k is about to do, the capacity, or whether the channel is closed. */
  ghost predicate Plans(s: Pool, k: nat, c: Resizer, t: Pool) {
    && k < |s.resizers|
    && t == s.(resizers := s.resizers[k := c], capacity := t.capacity, closed := t.closed)
    && t.capacity + Owes(c) == s.capacity + Owes(s.resizers[k])
    && ResizerAvailable(c) == ResizerAvailable(s.resizers[k]) == 0
    && ResizerActive(c) == ResizerActive(s.resizers[k]) == 0
    && HeldByResizer(c) == HeldByResizer(s.resizers[k]) == None
  }

  lemma PlansKeep(s: Pool, k: nat, c: Resizer, t: Pool)
    requires Conserved(s) && Counted3(s) && Owned(s) && Plans(s, k, c, t)
    ensures Conserved(t) && Counted3(t) && Owned(t)
  {
    SumUpdate(Owes, s.resizers, k, c);
    SumUpdate(ResizerAvailable, s.resizers, k, c);
    SumUpdate(ResizerActive, s.resizers, k, c);
    hide Sum, Owes, ResizerAvailable, ResizerActive, HeldByResizer;
    forall r: Resource ensures Places(t, r) == Places(s, r) {
      SumUpdate(InCall(r), s.resizers, k, c);
    }
  }

  lemma SetCapacityOrderly(s: Pool, k: nat, target: nat)
    requires Orderly(s) && k < |s.resizers| && s.resizers[k].Ready? && target <= s.maxCap
    requires Disciplined(s, Resize(k, SetCapacity(target)))
    ensures Orderly(s.(resizers := s.resizers[k := ReadCapacity(s, target)]))
  {
  }

  lemma SwapOrderly(s: Pool, k: nat)
    requires Orderly(s) && k < |s.resizers| && s.resizers[k].Read? && ResizerStep(s, k, Swap).Some?
    ensures Orderly(ResizerStep(s, k, Swap).value) && s.capacity == s.resizers[k].from
  {
    var t := ResizerStep(s, k, Swap).value;
    assert CallOk(s, s.resizers[k]);
    CallsAfter(s, t, k);
  }

  lemma FinishOrderly(s: Pool, k: nat)
    requires Conserved(s) && Orderly(s) && k < |s.resizers| && Finished(s, k).Some?
    ensures Orderly(Finished(s, k).value)
  {
    var t := Finished(s, k).value;
    assert CallOk(s, s.resizers[k]);
    CallsAfter(s, t, k);
    SumOfOne(Owes, s.resizers, k);
    SumAtLeast(Tokens, s.clients, |s.clients|);
  }

  lemma ResizerKeeps(s: Pool, k: nat, a: ResizerAction)
    requires Inv(s) && k < |s.resizers| && ResizerStep(s, k, a).Some? && Disciplined(s, Resize(k, a))
    ensures Inv(ResizerStep(s, k, a).value)
  {
    hide Conserved, Orderly, Counted3, Owned, Disciplined;
    var t := ResizerStep(s, k, a).value;
    if s.resizers[k].Ready? {
      SetCapacityOrderly(s, k, a.target);
      PlansKeep(s, k, t.resizers[k], t);
    } else if s.resizers[k].Read? {
      SwapOrderly(s, k);
      PlansKeep(s, k, t.resizers[k], t);
    } else if a == Finish {
      FinishOrderly(s, k);
      PlansKeep(s, k, t.resizers[k], t);
    } else {
      ResizerMoveKeeps(s, k, a);
    }
  }

  // The idle sweep.

  ghost predicate SweeperMoves(s: Pool, w: Sweeper, e: Effect, t: Pool) {
    && Perform(s, e).Some? && t == Perform(s, e).value.(sweeper := w)
    && Balanced(e, Head(s), SweeperTokens(w) - SweeperTokens(s.sweeper), SweeperTokens(w) - SweeperTokens(s.sweeper),
                0, SweeperActive(w) - SweeperActive(s.sweeper))
    && Transfers(e, Head(s), s.made, HeldBySweeper(s.sweeper), HeldBySweeper(w))
    && (Slots(e.op) == 1 ==> !s.closed && |s.chan| < s.maxCap)
    && (Quiet(s) ==> w.Resting?)
  }

  lemma SweeperMovesTo(s: Pool, a: SweeperAction) returns (w: Sweeper, e: Effect, t: Pool)
    requires Conserved(s) && Orderly(s) && a != StopTimer && SweeperStep(s, a).Some?
    ensures t == SweeperStep(s, a).value && SweeperMoves(s, w, e, t)
  {
    SweepOpen(s, a);
    w, e := SweeperStepIs(s, a);
    t := SweeperStep(s, a).value;
    SweeperBalanced(s.sweeper, a, Head(s), s.chan == [], s.available);
    SweeperTransfers(s.sweeper, a, Head(s), s.chan == [], s.available, s.made);
    hide SweeperTokens, SweeperActive, HeldBySweeper, Moved, Transfers, Balanced, Orderly, Conserved, SweeperMove,
      Perform, Head, Quiet, SweeperStep;
    if Slots(e.op) == 1 {
      RoomForSweeper(s);
    }
  }

  lemma SweeperStepIs(s: Pool, a: SweeperAction) returns (w: Sweeper, e: Effect)
    requires a != StopTimer && SweeperStep(s, a).Some?
    ensures SweeperMove(s.sweeper, a, Head(s), s.chan == [], s.closed, s.available) == Some((w, e))
    ensures Perform(s, e).Some? && SweeperStep(s, a).value == Perform(s, e).value.(sweeper := w)
  {
    hide SweeperMove, Perform, Head;
    var m := SweeperMove(s.sweeper, a, Head(s), s.chan == [], s.closed, s.available).value;
    w, e := m.0, m.1;
  }

  /** The sweep runs only while the channel is open, and a quiet pool does not start one. */
  lemma SweepOpen(s: Pool, a: SweeperAction)
    requires Orderly(s) && a != StopTimer && SweeperStep(s, a).Some?
    ensures !s.closed && !Quiet(s)
  {
    hide Perform, Head, Serial, CallOk;
  }

  lemma SweeperFlow(s: Pool, w: Sweeper, e: Effect, t: Pool)
    requires Conserved(s) && Orderly(s) && SweeperMoves(s, w, e, t)
    ensures Conserved(t) && Orderly(t)
  {
    PerformBooks(s, e);
    SameCalls(s, t);
    hide Sum, CallOk, Serial, Tokens, SweeperTokens, SweeperActive, HeldBySweeper, Slots, Moved, Transfers, Perform;
  }

  lemma SweeperCounts(s: Pool, w: Sweeper, e: Effect, t: Pool)
    requires Counted3(s) && SweeperMoves(s, w, e, t)
    ensures Counted3(t)
  {
    hide Sum, SweeperTokens, SweeperActive, HeldBySweeper, Slots, Moved, Transfers, Perform, WrapperActive, Head, Quiet;
    PerformBooks(s, e);
  }

  lemma SweeperOwned(s: Pool, w: Sweeper, e: Effect, t: Pool)
    requires Owned(s) && SweeperMoves(s, w, e, t)
    ensures Owned(t)
  {
    PerformMade(s, e);
    hide Places, Perform, Balanced, Transfers, Slots, Moved, Head;
    forall r: Resource ensures Places(t, r) == if r < t.made then 1 else 0 {
      SweeperPlaces(s, w, e, t, r);
    }
  }

  lemma SweeperPlaces(s: Pool, w: Sweeper, e: Effect, t: Pool, r: Resource)
    requires SweeperMoves(s, w, e, t)
    ensures Places(t, r) == Places(s, r) + if e.makes && r == s.made then 1 else 0
  {
    PerformPlaces(s, e, r);
    PlacesBalance(e, Head(s), s.made, HeldBySweeper(s.sweeper), HeldBySweeper(w), r);
    assert t.clients == s.clients && t.resizers == s.resizers by { PerformBooks(s, e); }
    hide Sum, Slots, Moved, Perform, HeldBySweeper, Balanced, Has, Transfers, SweeperTokens, SweeperActive, Head, Quiet;
  }

  lemma SweeperKeeps(s: Pool, a: SweeperAction)
    requires Inv(s) && SweeperStep(s, a).Some?
    ensures Inv(SweeperStep(s, a).value)
  {
    if a == StopTimer {
      assert forall r: Resource :: Places(SweeperStep(s, a).value, r) == Places(s, r);
      SameCalls(s, SweeperStep(s, a).value);
    } else {
      hide Conserved, Orderly, Counted3, Owned, SweeperMoves, SweeperStep;
      var w, e, t := SweeperMovesTo(s, a);
      SweeperFlow(s, w, e, t);
      SweeperCounts(s, w, e, t);
      SweeperOwned(s, w, e, t);
    }
  }

  // ------------------------------------------------------------------------ whole runs

  lemma StepKeeps(s: Pool, step: Step)
    requires Inv(s) && Disciplined(s, step) && Apply(s, step).Some?
    ensures Inv(Apply(s, step).value)
  {
    hide Inv, Disciplined, ClientStep, ResizerStep, SweeperStep;
    match step
    case Session(i, a) => ClientKeeps(s, i, a);
    case Resize(k, a) => ResizerKeeps(s, k, a);
    case Sweep(a) => SweeperKeeps(s, a);
  }

  lemma NewPoolInv(capacity: nat, maxCap: nat, sessions: nat, calls: nat, timerOn: bool)
    requires 0 < capacity <= maxCap
    ensures Inv(NewPool(capacity, maxCap, sessions, calls, timerOn))
  {
    var s := NewPool(capacity, maxCap, sessions, calls, timerOn);
    SumOfZeros(Tokens, s.clients);
    SumOfZeros(AvailableDelta, s.clients);
    SumOfZeros(InUse, s.clients);
    SumOfZeros(ActiveOf, s.clients);
    SumOfZeros(Owes, s.resizers);
    SumOfZeros(ResizerAvailable, s.resizers);
    SumOfZeros(ResizerActive, s.resizers);
    SumOfZeros(WrapperActive, s.chan);
    forall r: Resource ensures Places(s, r) == 0 {
      SumOfZeros(InSlot(r), s.chan);
      SumOfZeros(InSession(r), s.clients);
      SumOfZeros(InCall(r), s.resizers);
    }
  }

  /** Every step of the run keeps to the rules for callers. */
  ghost predicate DisciplinedRun(s: Pool, steps: seq<Step>)
    decreases |steps|
  {
    steps != [] ==>
      && Disciplined(s, steps[0])
      && (Apply(s, steps[0]).Some? ==> DisciplinedRun(Apply(s, steps[0]).value, steps[1..]))
  }

  lemma {:induction false} RunKeeps(s: Pool, steps: seq<Step>)
    requires Inv(s) && DisciplinedRun(s, steps) && Run(s, steps).Some?
    ensures Inv(Run(s, steps).value)
    decreases |steps|
  {
    hide Inv, Disciplined, Apply;
    if steps != [] {
      StepKeeps(s, steps[0]);
      RunKeeps(Apply(s, steps[0]).value, steps[1..]);
    }
  }

  /** A pool that some disciplined run of a new pool reaches. */
  ghost predicate ReachedBy(capacity: nat, maxCap: nat, sessions: nat, calls: nat, timerOn: bool, steps: seq<Step>,
      t: Pool) {
    && 0 < capacity <= maxCap
    && DisciplinedRun(NewPool(capacity, maxCap, sessions, calls, timerOn), steps)
    && Run(NewPool(capacity, maxCap, sessions, calls, timerOn), steps) == Some(t)
  }

  lemma ReachedInv(capacity: nat, maxCap: nat, sessions: nat, calls: nat, timerOn: bool, steps: seq<Step>, t: Pool)
    requires ReachedBy(capacity, maxCap, sessions, calls, timerOn, steps, t)
    ensures Inv(t)
  {
    NewPoolInv(capacity, maxCap, sessions, calls, timerOn);
    RunKeeps(NewPool(capacity, maxCap, sessions, calls, timerOn), steps);
  }

  /** No disciplined run panics, and whoever has a slot in hand can always give it back at once:
      a send by Put, by a failed Get, by the sweep or by a growing SetCapacity neither panics nor waits. */
  lemma NeverPanics(capacity: nat, maxCap: nat, sessions: nat, calls: nat, timerOn: bool, steps: seq<Step>, t: Pool)
    requires ReachedBy(capacity, maxCap, sessions, calls, timerOn, steps, t)
    ensures !t.panicked
    ensures forall i, a ::
              && 0 <= i < |t.clients| && a in {GiveBack, Send}
              && ClientMove(t.clients[i], a, Head(t), t.made).Some?
              ==> Apply(t, Session(i, a)).Some? && !Apply(t, Session(i, a)).value.panicked
    ensures forall k :: 0 <= k < |t.resizers| && t.resizers[k].Filling? && t.resizers[k].left > 0
                   ==> Apply(t, Resize(k, Fill)).Some? && !Apply(t, Resize(k, Fill)).value.panicked
    ensures t.sweeper.SweepHas? ==> Apply(t, Sweep(SweepReturn)).Some? && !Apply(t, Sweep(SweepReturn)).value.panicked
  {
    ReachedInv(capacity, maxCap, sessions, calls, timerOn, steps, t);
    hide ReachedBy, Owned, Counted3;
    forall i, a | 0 <= i < |t.clients| && a in {GiveBack, Send} && ClientMove(t.clients[i], a, Head(t), t.made).Some?
      ensures Apply(t, Session(i, a)).Some? && !Apply(t, Session(i, a)).value.panicked
    {
      RoomForClient(t, i);
    }
    forall k | 0 <= k < |t.resizers| && t.resizers[k].Filling? && t.resizers[k].left > 0
      ensures Apply(t, Resize(k, Fill)).Some? && !Apply(t, Resize(k, Fill)).value.panicked
    {
      RoomForFill(t, k);
    }
    if t.sweeper.SweepHas? {
      RoomForSweeper(t);
    }
  }

  /** The channel closes only when every slot is gone: no session holds one, none is queued. */
  lemma ClosedMeansEmpty(capacity: nat, maxCap: nat, sessions: nat, calls: nat, timerOn: bool, steps: seq<Step>,
      t: Pool)
    requires ReachedBy(capacity, maxCap, sessions, calls, timerOn, steps, t) && t.closed
    ensures t.capacity == 0 && t.chan == [] && t.sweeper.Resting? && forall i :: 0 <= i < |t.clients| ==>
              Tokens(t.clients[i]) == 0
  {
    ReachedInv(capacity, maxCap, sessions, calls, timerOn, steps, t);
    SumOfZeros(Owes, t.resizers);
    forall i | 0 <= i < |t.clients| ensures Tokens(t.clients[i]) == 0 {
      SumAtLeast(Tokens, t.clients, i);
    }
  }

  /** No call is half-way through: sessions are idle or hold a resource, nothing else is under way. */
  ghost predicate AtRest(s: Pool) {
    && (forall i :: 0 <= i < |s.clients| ==> s.clients[i].Idle? || s.clients[i].Holding?)
    && (forall k :: 0 <= k < |s.resizers| ==> s.resizers[k].Ready?)
    && s.sweeper.Resting?
  }

  function IsHolding(c: Client): int { if c.Holding? then 1 else 0 }

  lemma {:induction false} SameSum<T>(f: T -> int, g: T -> int, xs: seq<T>)
    requires forall i :: 0 <= i < |xs| ==> f(xs[i]) == g(xs[i])
    ensures Sum(f, xs) == Sum(g, xs)
  {
    if xs != [] {
      SameSum(f, g, xs[1..]);
    }
  }

  /** Between calls the published counters are exact: `inUse` is the number of sessions that hold a
      resource, `available` what is left of the capacity, and `active` never exceeds the capacity. */
  lemma CountersAtRest(capacity: nat, maxCap: nat, sessions: nat, calls: nat, timerOn: bool, steps: seq<Step>, t: Pool)
    requires ReachedBy(capacity, maxCap, sessions, calls, timerOn, steps, t) && AtRest(t)
    ensures t.inUse == Sum(IsHolding, t.clients) && t.available == |t.chan|
    ensures t.available + t.inUse == t.capacity && t.active == t.inUse + Sum(WrapperActive, t.chan) <= t.capacity
  {
    ReachedInv(capacity, maxCap, sessions, calls, timerOn, steps, t);
    SameSum(IsHolding, Tokens, t.clients);
    SameSum(IsHolding, InUse, t.clients);
    SameSum(IsHolding, ActiveOf, t.clients);
    SumOfZeros(AvailableDelta, t.clients);
    SumOfZeros(Owes, t.resizers);
    SumOfZeros(ResizerAvailable, t.resizers);
    SumOfZeros(ResizerActive, t.resizers);
    ActiveAtMost(t.chan);
  }

  lemma {:induction false} ActiveAtMost(chan: seq<Wrapper>)
    ensures Sum(WrapperActive, chan) <= |chan|
  {
    if chan != [] {
      ActiveAtMost(chan[1..]);
    }
  }

  /** Two sessions never hold the same resource, and a held resource is not in the channel and not closed. */
  lemma HoldersAreExclusive(capacity: nat, maxCap: nat, sessions: nat, calls: nat, timerOn: bool, steps: seq<Step>,
      t: Pool, i: nat)
    requires ReachedBy(capacity, maxCap, sessions, calls, timerOn, steps, t)
    requires i < |t.clients| && t.clients[i].Holding?
    ensures var r := t.clients[i].r;
            && r !in t.shut && r !in t.discarded && Some(r) !in t.chan
            && (forall j :: 0 <= j < |t.clients| && j != i ==> HeldBy(t.clients[j]) != Some(r))
  {
    ReachedInv(capacity, maxCap, sessions, calls, timerOn, steps, t);
    var r := t.clients[i].r;
    hide ReachedBy, Conserved, Orderly, Counted3;
    assert Places(t, r) <= 1;
    SumAtLeast(InSession(r), t.clients, i);
    SumAtLeast(InSlot(r), t.chan, |t.chan|);
    SumAtLeast(InCall(r), t.resizers, |t.resizers|);
    forall j | 0 <= j < |t.chan| ensures t.chan[j] != Some(r) {
      SumAtLeast(InSlot(r), t.chan, j);
    }
    forall j | 0 <= j < |t.clients| && j != i ensures HeldBy(t.clients[j]) != Some(r) {
      SumAtLeastTwo(InSession(r), t.clients, if i < j then i else j, if i < j then j else i);
    }
  }

  // ----------------------------------------------- why the rules for callers are needed

  lemma {:induction false} RunOf(states: seq<Pool>, steps: seq<Step>)
    requires |states| == |steps| + 1 && forall i :: 0 <= i < |steps| ==>
               Apply(states[i], steps[i]) == Some(states[i + 1])
    ensures Run(states[0], steps) == Some(states[|steps|])
    decreases |steps|
  {
    hide Apply;
    if steps != [] {
      assert Apply(states[0], steps[0]) == Some(states[0 + 1]);
      RunOf(states[1..], steps[1..]);
    }
  }

  /** One step of the only session, spelled out. */
  lemma SessionStep(s: Pool, a: ClientAction, c: Client, e: Effect)
    requires !s.panicked && |s.clients| == 1 && ClientMove(s.clients[0], a, Head(s), s.made) == Some((c, e))
        && Perform(s, e).Some?
    ensures Apply(s, Session(0, a)) == Some(Perform(s, e).value.(clients := [c]))
  {
    hide ClientMove, Perform;
    assert s.clients[0 := c] == [c];
  }

  /** Get on an empty slot, when the factory succeeds. */
  lemma GetMakes(s: Pool) returns (states: seq<Pool>, steps: seq<Step>)
    requires !s.panicked && s.chan != [] && s.chan[0].None? && s.clients == [Idle]
    ensures |states| == |steps| + 1 && states[0] == s && forall i :: 0 <= i < |steps| ==>
              Apply(states[i], steps[i]) == Some(states[i + 1])
    ensures var t := states[|steps|];
            && t.chan == s.chan[1..] && t.clients == [Holding(s.made)]
            && t == s.(chan := t.chan, clients := t.clients, available := s.available - 1, active := s.active + 1,
              inUse := s.inUse + 1,
                       made := s.made + 1, shut := t.shut, discarded := t.discarded)
  {
    hide Apply, AsSet;
    var r := s.made;
    SessionStep(s, Fetch, Creating, Nothing.(op := Receive));
    var a := Apply(s, Session(0, Fetch)).value;
    SessionStep(a, FactoryOk, Made(r), Nothing.(makes := true));
    var b := Apply(a, Session(0, FactoryOk)).value;
    SessionStep(b, AddActive, Counted(r), Nothing.(active := 1));
    var c := Apply(b, Session(0, AddActive)).value;
    SessionStep(c, TakeAvailable, Claimed(r), Nothing.(available := -1));
    var d := Apply(c, Session(0, TakeAvailable)).value;
    SessionStep(d, AddInUse, Holding(r), Nothing.(inUse := 1));
    var e := Apply(d, Session(0, AddInUse)).value;
    steps := [Session(0, Fetch), Session(0, FactoryOk), Session(0, AddActive), Session(0, TakeAvailable),
      Session(0, AddInUse)];
    states := [s, a, b, c, d, e];
  }

  lemma {:induction false} RunAppend(s: Pool, first: seq<Step>, next: seq<Step>)
    requires Run(s, first).Some?
    ensures Run(s, first + next) == Run(Run(s, first).value, next)
    decreases |first|
  {
    hide Apply;
    if first == [] {
      assert first + next == next;
    } else {
      assert (first + next)[1..] == first[1..] + next;
      RunAppend(Apply(s, first[0]).value, first[1..], next);
    }
  }

  /** One draining or filling step, spelled out. */
  lemma CallStep(s: Pool, k: nat, a: ResizerAction, c: Resizer, e: Effect)
    requires !s.panicked && k < |s.resizers| && ResizerMove(s.resizers[k], a, Head(s)) == Some((c, e))
        && Perform(s, e).Some?
    ensures Apply(s, Resize(k, a)) == Some(Perform(s, e).value.(resizers := s.resizers[k := c]))
  {
    ResizerCallKept(s, s.resizers[k], a, Head(s));
    hide ResizerMove, Perform;
  }

  /** A call that reads the capacity and installs its target, spelled out. */
  lemma CallBegins(s: Pool, k: nat, target: nat) returns (read: Pool, swapped: Pool)
    requires !s.panicked && k < |s.resizers| && s.resizers[k].Ready? && target <= s.maxCap && 0 < s.capacity != target
    ensures Apply(s, Resize(k, SetCapacity(target))) == Some(read) && Apply(read, Resize(k, Swap)) == Some(swapped)
    ensures swapped == s.(capacity := target, resizers := swapped.resizers)
    ensures swapped.resizers
         == s.resizers[k := if target < s.capacity then Draining(s.capacity - target, target)
           else Filling(target - s.capacity, target)]
  {
    read := s.(resizers := s.resizers[k := Read(s.capacity, target)]);
    swapped := Apply(read, Resize(k, Swap)).value;
  }

  lemma CallEnds(s: Pool, k: nat)
    requires !s.panicked && k < |s.resizers| && s.resizers[k] == Draining(0, 0)
    ensures Apply(s, Resize(k, Finish)) == Some(s.(resizers := s.resizers[k := Ready], closed := true))
  {
  }

  /** One step of the idle sweep, spelled out. */
  lemma SweepStep(s: Pool, a: SweeperAction, w: Sweeper, e: Effect)
    requires !s.panicked && a != StopTimer && (a == SweepStart ==> s.timerOn) && Perform(s, e).Some?
    requires SweeperMove(s.sweeper, a, Head(s), s.chan == [], s.closed, s.available) == Some((w, e))
    ensures Apply(s, Sweep(a)) == Some(Perform(s, e).value.(sweeper := w))
  {
    hide SweeperMove, Perform;
  }

  /** A shrinking call that has not drained yet and a growing call that fills: the channel
      is full while a session still holds a resource, and its Put panics. */
  lemma OverlapPanics(s: Pool) returns (states: seq<Pool>, steps: seq<Step>)
    requires !s.panicked && !s.closed && s.maxCap == 2 && s.capacity == 2 && |s.chan| == 1
    requires s.clients == [Holding(0)] && s.resizers == [Ready, Ready]
    ensures |states| == |steps| + 1 && states[0] == s && forall i :: 0 <= i < |steps| ==>
              Apply(states[i], steps[i]) == Some(states[i + 1])
    ensures states[|steps|].panicked
  {
    hide AsSet, Apply, Head;
    steps := [Resize(0, SetCapacity(1)), Resize(0, Swap), Resize(1, SetCapacity(2)), Resize(1, Swap), Resize(1, Fill),
      Session(0, Send)];
    var a, b := CallBegins(s, 0, 1);
    var c, d := CallBegins(b, 1, 2);
    CallStep(d, 1, Fill, FillAvailable(0, 2), Nothing.(op := Give(None)));
    var e := Apply(d, steps[4]).value;
    SessionStep(e, Send, Returned, Nothing.(op := PutBack(Some(0))));
    states := [s, a, b, c, d, e, Apply(e, steps[5]).value];
  }

  /** Without the first rule for callers, a Put can panic. */
  lemma OverlappingSetCapacityPanics()
    ensures exists steps :: var end := Run(NewPool(2, 2, 1, 2, false), steps); end.Some? && end.value.panicked
  {
    var s := NewPool(2, 2, 1, 2, false);
    var states, first := GetMakes(s);
    RunOf(states, first);
    var t := states[|first|];
    var rest, next := OverlapPanics(t);
    RunOf(rest, next);
    RunAppend(s, first, next);
  }

  /** A call takes the only slot out of the channel and closes it. */
  lemma CloseEmpties(s: Pool) returns (states: seq<Pool>, steps: seq<Step>)
    requires !s.panicked && !s.closed && s.capacity == 1 <= s.maxCap && s.chan == [None] && s.resizers == [Ready]
    ensures |states| == |steps| + 1 && states[0] == s && forall i :: 0 <= i < |steps| ==>
              Apply(states[i], steps[i]) == Some(states[i + 1])
    ensures var t := states[|steps|]; !t.panicked && t.closed && t.chan == [] && t.sweeper == s.sweeper
  {
    hide AsSet, Apply;
    steps := [Resize(0, SetCapacity(0)), Resize(0, Swap), Resize(0, Drain), Resize(0, LowerAvailable),
      Resize(0, Finish)];
    var b, c := CallBegins(s, 0, 0);
    CallStep(c, 0, Drain, DrainAvailable(0, 0), Nothing.(op := Receive));
    var d := Apply(c, steps[2]).value;
    CallStep(d, 0, LowerAvailable, Draining(0, 0), Nothing.(available := -1));
    var e := Apply(d, steps[3]).value;
    CallEnds(e, 0);
    states := [s, b, c, d, e, Apply(e, steps[4]).value];
  }

  /** Setting the capacity to zero while a sweep runs: the sweep receives from the closed
      channel and panics when it sends the slot back. */
  lemma ClosingUnderSweepPanics()
    ensures exists steps :: var end := Run(NewPool(1, 1, 0, 1, true), steps); end.Some? && end.value.panicked
  {
    var s := NewPool(1, 1, 0, 1, true);
    SweepStep(s, SweepStart, Sweeping(1), Nothing);
    var a := Apply(s, Sweep(SweepStart)).value;
    RunOf([s, a], [Sweep(SweepStart)]);
    var states, close := CloseEmpties(a);
    RunOf(states, close);
    var f := states[|close|];
    SweepStep(f, SweepFetch, SweepHas(None, 0), Nothing);
    var g := Apply(f, Sweep(SweepFetch)).value;
    SweepStep(g, SweepReturn, Sweeping(0), Nothing.(op := Give(None)));
    var h := Apply(g, Sweep(SweepReturn)).value;
    hide *;
    RunOf([f, g, h], [Sweep(SweepFetch), Sweep(SweepReturn)]);
    RunAppend(s, [Sweep(SweepStart)], close);
    RunAppend(s, [Sweep(SweepStart)] + close, [Sweep(SweepFetch), Sweep(SweepReturn)]);
  }
}
