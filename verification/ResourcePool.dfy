/** The resource pool (pools/resource_pool.go) as a state machine: every channel operation,
    atomic counter update, factory call and resource Close is one step, and the steps of
    any number of Get/Put sessions, SetCapacity calls and the idle sweep interleave freely. */
module ResourcePool {
  import opened Prelude

  type Resource = nat

  /** What the channel carries: a resource, or an empty slot. */
  type Wrapper = Option<Resource>

  /** Where one Get ... Put session stands. */
  datatype Client =
    | Idle
    | Creating                 // received an empty slot, about to call the factory
    | FactoryFailed            // about to put the empty slot back
    | Made(r: Resource)        // the factory returned r, not yet in `active`
    | Counted(r: Resource)     // about to take one from `available`
    | Claimed(r: Resource)     // about to add one to `inUse`
    | Holding(r: Resource)     // Get has returned r
    | Discarding               // Put(nil) has lowered `active`, about to send an empty slot
    | Returned                 // the slot is back in the channel, `inUse` not yet lowered
    | Released                 // `inUse` lowered, `available` not yet raised

  /** Where one SetCapacity call stands; `left` counts the slots still to remove or add. */
  datatype Resizer =
    | Ready
    | Read(from: nat, target: nat)
    | Draining(left: nat, target: nat)
    | DrainClose(r: Resource, left: nat, target: nat)
    | DrainActive(left: nat, target: nat)
    | DrainAvailable(left: nat, target: nat)
    | Filling(left: nat, target: nat)
    | FillAvailable(left: nat, target: nat)

  /** Where the idle sweep stands; `left` counts the slots it may still look at. */
  datatype Sweeper =
    | Resting
    | Sweeping(left: nat)
    | SweepHas(w: Wrapper, left: nat)
    | SweepActive(left: nat)

  datatype Pool = Pool(
    maxCap: nat,
    chan: seq<Wrapper>, closed: bool,
    capacity: int, available: int, active: int, inUse: int,
    clients: seq<Client>, resizers: seq<Resizer>, sweeper: Sweeper, timerOn: bool,
    made: nat, shut: multiset<Resource>, discarded: multiset<Resource>,
    panicked: bool)

  /** `NewResourcePool`, with room for any number of sessions and SetCapacity calls. */
  function NewPool(capacity: nat, maxCap: nat, sessions: nat, calls: nat, timerOn: bool): Pool
    requires 0 < capacity <= maxCap
  {
    Pool(maxCap, seq(capacity, _ => None), false, capacity, capacity, 0, 0,
         seq(sessions, _ => Idle), seq(calls, _ => Ready), Resting, timerOn, 0, multiset{}, multiset{}, false)
  }

  datatype ClientAction =
    | Fetch | FactoryOk | FactoryErr | GiveBack | AddActive | TakeAvailable | AddInUse | PutNil | Send | DropInUse
    | GiveAvailable

  datatype ResizerAction =
    SetCapacity(target: nat) | Swap | Drain | Close | LowerActive | LowerAvailable | Fill | RaiseAvailable | Finish

  datatype SweeperAction = SweepStart | SweepFetch | SweepClose | SweepCount | SweepReturn | StopTimer

  datatype Step =
    | Session(i: nat, action: ClientAction)
    | Resize(k: nat, call: ResizerAction)
    | Sweep(sweep: SweeperAction)

  /** A channel operation: a receive, a send that waits while the channel is full, or the send of
      Put, which panics on a full channel. */
  datatype ChanOp = NoOp | Receive | Give(w: Wrapper) | PutBack(w: Wrapper)

  /** What one step does to the shared state: at most one channel operation, changes of the
      counters, a factory call, a resource closed, a resource the client gave up. */
  datatype Effect = Effect(op: ChanOp, available: int, active: int, inUse: int, makes: bool, shut: Wrapper,
      discarded: Wrapper)

  const Nothing := Effect(NoOp, 0, 0, 0, false, None, None)

  /** The move of a session that does action `a`; `head` is what a receive would return. */
  function ClientMove(c: Client, a: ClientAction, head: Wrapper, made: Resource): Option<(Client, Effect)> {
    match c
    case Idle => if a == Fetch
      then Some((if head.None? then Creating else Counted(head.value), Nothing.(op := Receive))) else None
    case Creating =>
      if a == FactoryOk then Some((Made(made), Nothing.(makes := true)))
      else if a == FactoryErr then Some((FactoryFailed, Nothing))
      else None
    case FactoryFailed => if a == GiveBack then Some((Idle, Nothing.(op := Give(None)))) else None
    case Made(r) => if a == AddActive then Some((Counted(r), Nothing.(active := 1))) else None
    case Counted(r) => if a == TakeAvailable then Some((Claimed(r), Nothing.(available := -1))) else None
    case Claimed(r) => if a == AddInUse then Some((Holding(r), Nothing.(inUse := 1))) else None
    case Holding(r) =>
      if a == PutNil then Some((Discarding, Nothing.(active := -1, discarded := Some(r))))
      else if a == Send then Some((Returned, Nothing.(op := PutBack(Some(r)))))
      else None
    case Discarding => if a == Send then Some((Returned, Nothing.(op := PutBack(None)))) else None
    case Returned => if a == DropInUse then Some((Released, Nothing.(inUse := -1))) else None
    case Released => if a == GiveAvailable then Some((Idle, Nothing.(available := 1))) else None
  }

  /** The move of a SetCapacity call that drains or fills the channel. */
  function ResizerMove(c: Resizer, a: ResizerAction, head: Wrapper): Option<(Resizer, Effect)> {
    match c
    case Draining(left, target) =>
      if a == Drain && left > 0 then
        Some((if head.None? then DrainAvailable(left - 1, target)
          else DrainClose(head.value, left - 1, target), Nothing.(op := Receive)))
      else None
    case DrainClose(r, left, target) => if a == Close then Some((DrainActive(left, target), Nothing.(shut := Some(r))))
      else None
    case DrainActive(left, target) => if a == LowerActive
      then Some((DrainAvailable(left, target), Nothing.(active := -1))) else None
    case DrainAvailable(left, target) => if a == LowerAvailable
      then Some((Draining(left, target), Nothing.(available := -1))) else None
    case Filling(left, target) =>
      if a == Fill && left > 0 then Some((FillAvailable(left - 1, target), Nothing.(op := Give(None)))) else None
    case FillAvailable(left, target) => if a == RaiseAvailable
      then Some((Filling(left, target), Nothing.(available := 1))) else None
    case _ => None
  }

  /** The move of the idle sweep; `empty` and `closed` describe the channel. */
  function SweeperMove(w: Sweeper, a: SweeperAction, head: Wrapper, empty: bool, closed: bool,
      available: int): Option<(Sweeper, Effect)> {
    match w
    case Resting => if a == SweepStart then Some((Sweeping(if available < 0 then 0 else available), Nothing)) else None
    case Sweeping(left) =>
      if a != SweepFetch then None
      else if left == 0 || (empty && !closed) then Some((Resting, Nothing))
      else if empty then Some((SweepHas(None, left - 1), Nothing))
      else Some((SweepHas(head, left - 1), Nothing.(op := Receive)))
    case SweepHas(x, left) =>
      if a == SweepClose && x.Some? then Some((SweepActive(left), Nothing.(shut := x)))
      else if a == SweepReturn then Some((Sweeping(left), Nothing.(op := Give(x))))
      else None
    case SweepActive(left) => if a == SweepCount then Some((SweepHas(None, left), Nothing.(active := -1))) else None
  }

  function AsSet(w: Wrapper): multiset<Resource> { if w.Some? then multiset{w.value} else multiset{} }

  /** The shared state after an effect, with the channel operation done. */
  function Account(s: Pool, e: Effect, chan: seq<Wrapper>): Pool {
    s.(chan := chan, available := s.available + e.available, active := s.active + e.active, inUse := s.inUse + e.inUse,
       made := s.made + if e.makes then 1 else 0, shut := s.shut + AsSet(e.shut), discarded := s.discarded
         + AsSet(e.discarded))
  }

  /** An effect on the shared state; None means that the channel operation blocks. */
  function Perform(s: Pool, e: Effect): Option<Pool> {
    match e.op
    case NoOp => Some(Account(s, e, s.chan))
    case Receive => if s.chan == [] then None else Some(Account(s, e, s.chan[1..]))
    case Give(w) =>
      if s.closed then Some(s.(panicked := true))
      else if |s.chan| >= s.maxCap then None
      else Some(Account(s, e, s.chan + [w]))
    case PutBack(w) =>
      if s.closed || |s.chan| >= s.maxCap then Some(s.(panicked := true)) else Some(Account(s, e, s.chan + [w]))
  }

  function Head(s: Pool): Wrapper { if s.chan == [] then None else s.chan[0] }

  /** A step of session i; None means the step is not possible in this state. */
  function ClientStep(s: Pool, i: nat, a: ClientAction): Option<Pool>
    requires i < |s.clients|
  {
    match ClientMove(s.clients[i], a, Head(s), s.made)
    case None => None
    case Some((c, e)) =>
      match Perform(s, e)
      case None => None
      case Some(t) => Some(t.(clients := s.clients[i := c]))
  }

  /** Reading the capacity at the head of SetCapacity's loop. */
  function ReadCapacity(s: Pool, target: nat): Resizer {
    if s.capacity <= 0 || s.capacity == target then Ready else Read(s.capacity, target)
  }

  /** A step of the k-th SetCapacity call. */
  function ResizerStep(s: Pool, k: nat, a: ResizerAction): Option<Pool>
    requires k < |s.resizers|
  {
    match s.resizers[k]
    case Ready =>
      if a.SetCapacity? && a.target <= s.maxCap then Some(s.(resizers := s.resizers[k := ReadCapacity(s, a.target)]))
        else None
    case Read(from, target) =>
      if a != Swap then None
      else if s.capacity != from then Some(s.(resizers := s.resizers[k := ReadCapacity(s, target)]))
      else
        var call := if target < from then Draining(from - target, target) else Filling(target - from, target);
        Some(s.(resizers := s.resizers[k := call], capacity := target))
    case _ =>
      if a == Finish then Finished(s, k)
      else
        match ResizerMove(s.resizers[k], a, Head(s))
        case None => None
        case Some((r, e)) =>
          match Perform(s, e)
          case None => None
          case Some(t) => Some(t.(resizers := s.resizers[k := r]))
  }

  /** The end of SetCapacity: the channel is closed if the capacity is now zero. */
  function Finished(s: Pool, k: nat): Option<Pool>
    requires k < |s.resizers|
  {
    match s.resizers[k]
    case Draining(left, target) =>
      if left == 0 then Some(s.(resizers := s.resizers[k := Ready], closed := s.closed || target == 0)) else None
    case Filling(left, target) => if left == 0 then Some(s.(resizers := s.resizers[k := Ready])) else None
    case _ => None
  }

  /** A step of the idle sweep, or of stopping its timer, which waits for a running sweep. */
  function SweeperStep(s: Pool, a: SweeperAction): Option<Pool> {
    if a == StopTimer then (if s.sweeper.Resting? then Some(s.(timerOn := false)) else None)
    else if a == SweepStart && !s.timerOn then None
    else
      match SweeperMove(s.sweeper, a, Head(s), s.chan == [], s.closed, s.available)
      case None => None
      case Some((w, e)) =>
        match Perform(s, e)
        case None => None
        case Some(t) => Some(t.(sweeper := w))
  }

  /** One step of the whole pool; a pool that panicked takes no further step. */
  function Apply(s: Pool, step: Step): Option<Pool> {
    if s.panicked then None
    else match step
      case Session(i, a) => if i < |s.clients| then ClientStep(s, i, a) else None
      case Resize(k, a) => if k < |s.resizers| then ResizerStep(s, k, a) else None
      case Sweep(a) => SweeperStep(s, a)
  }

  function Run(s: Pool, steps: seq<Step>): Option<Pool>
    decreases |steps|
  {
    if steps == [] then Some(s)
    else
      match Apply(s, steps[0])
      case None => None
      case Some(t) => Run(t, steps[1..])
  }
}
