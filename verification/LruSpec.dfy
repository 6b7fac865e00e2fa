/** What an LRU cache does (cache/lru_cache.go), as operations on the list of its items, most recent first. */
module LruSpec {
  import opened Prelude

  /** A cached value and its size, which may be any integer. */
  datatype Value = Value(payload: nat, size: int)

  datatype Item = Item(key: string, value: Value, accessed: int)

  function Total(items: seq<Item>): int {
    if items == [] then 0 else items[0].value.size + Total(items[1..])
  }

  function Find(items: seq<Item>, key: string): Option<Item> {
    if items == [] then None else if items[0].key == key then Some(items[0]) else Find(items[1..], key)
  }

  function Without(items: seq<Item>, key: string): seq<Item> {
    if items == [] then [] else if items[0].key == key then items[1..] else [items[0]] + Without(items[1..], key)
  }

  /** Drops items from the back until the rest fits. */
  function Evict(items: seq<Item>, capacity: int): seq<Item>
    decreases |items|
  {
    if Total(items) <= capacity || items == [] then items else Evict(items[..|items| - 1], capacity)
  }

  datatype State = State(items: seq<Item>, capacity: int)

  datatype Op =
    | Get(key: string)
    | Peek(key: string)
    | Set(key: string, value: Value)
    | SetIfAbsent(key: string, value: Value)
    | Delete(key: string)
    | Clear
    | SetCapacity(capacity: int)

  /** An item used now: at the front, with the time of use. */
  function Touched(items: seq<Item>, item: Item, now: int): seq<Item> {
    [item.(accessed := now)] + Without(items, item.key)
  }

  /** The items after an operation at a given time. */
  function After(s: State, op: Op, now: int): State {
    match op
    case Get(key) =>
      (match Find(s.items, key)
       case None => s
       case Some(item) => s.(items := Touched(s.items, item, now)))
    case Peek(_) => s
    case Set(key, value) => s.(items := Evict([Item(key, value, now)] + Without(s.items, key), s.capacity))
    case SetIfAbsent(key, value) =>
      (match Find(s.items, key)
       case None => s.(items := Evict([Item(key, value, now)] + s.items, s.capacity))
       case Some(item) => s.(items := Touched(s.items, item, now)))
    case Delete(key) => s.(items := Without(s.items, key))
    case Clear => s.(items := [])
    case SetCapacity(capacity) => State(Evict(s.items, capacity), capacity)
  }

  // --------------------------------------------------------------------------- eviction

  lemma {:induction false} TotalAppend(a: seq<Item>, b: seq<Item>)
    ensures Total(a + b) == Total(a) + Total(b)
  {
    if a == [] {
      assert a + b == b;
    } else {
      assert (a + b)[1..] == a[1..] + b;
      TotalAppend(a[1..], b);
    }
  }

  /** Eviction keeps exactly the longest prefix of most recent items that fits, whatever the sizes. It finds one
      exactly when some prefix fits, and always if the capacity is not negative. */
  lemma {:induction false} EvictKeepsLongest(items: seq<Item>, capacity: int)
    ensures var kept := Evict(items, capacity);
            && kept <= items
            && (forall n :: |kept| < n <= |items| ==> Total(items[..n]) > capacity)
            && (Total(kept) <= capacity <==> exists n :: 0 <= n <= |items| && Total(items[..n]) <= capacity)
            && (capacity >= 0 ==> Total(kept) <= capacity)
    decreases |items|
  {
    assert items[..|items|] == items;
    if !(Total(items) <= capacity || items == []) {
      var shorter := items[..|items| - 1];
      EvictKeepsLongest(shorter, capacity);
      assert forall n :: 0 <= n <= |shorter| ==> shorter[..n] == items[..n];
    }
  }

  // ------------------------------------------------------------------------- invariants

  predicate Distinct(items: seq<Item>) { forall i, j :: 0 <= i < j < |items| ==> items[i].key != items[j].key }

  lemma {:induction false} FindIs(items: seq<Item>, key: string)
    ensures match Find(items, key)
            case None => forall i :: 0 <= i < |items| ==> items[i].key != key
            case Some(item) => item.key == key && item in items
  {
    if items != [] && items[0].key != key {
      FindIs(items[1..], key);
    }
  }

  lemma {:induction false} WithoutDistinct(items: seq<Item>, key: string)
    requires Distinct(items)
    ensures var rest := Without(items, key);
            Distinct(rest) && (forall i :: 0 <= i < |rest| ==> rest[i].key != key && rest[i] in items)
  {
    if items != [] && items[0].key != key {
      WithoutDistinct(items[1..], key);
    }
  }

  /** Removal of a key lowers the total by the size of its item, and removes no other item. */
  lemma {:induction false} WithoutOthers(items: seq<Item>, key: string)
    ensures Total(Without(items, key)) == Total(items) -
              match Find(items, key) case None => 0 case Some(item) => item.value.size
    ensures forall x :: x in items && x.key != key ==> x in Without(items, key)
  {
    if items != [] && items[0].key != key {
      WithoutOthers(items[1..], key);
    }
  }

  /** Used in strictly this order, most recent first, and before `now`. */
  predicate InOrder(items: seq<Item>, now: int) {
    && (forall i :: 0 <= i < |items| ==> items[i].accessed < now)
    && (forall i, j :: 0 <= i < j < |items| ==> items[i].accessed > items[j].accessed)
  }

  lemma {:induction false} WithoutInOrder(items: seq<Item>, key: string, now: int)
    requires InOrder(items, now)
    ensures InOrder(Without(items, key), now)
  {
    if items != [] && items[0].key != key {
      WithoutInOrder(items[1..], key, items[0].accessed);
    }
  }

  predicate NonNegative(items: seq<Item>) { forall i :: 0 <= i < |items| ==> items[i].value.size >= 0 }

  lemma {:induction false} WithoutNonNegative(items: seq<Item>, key: string)
    requires NonNegative(items)
    ensures NonNegative(Without(items, key))
  {
    if items != [] && items[0].key != key {
      WithoutNonNegative(items[1..], key);
    }
  }

  predicate Good(s: State, now: int) {
    Distinct(s.items) && InOrder(s.items, now) && NonNegative(s.items) && s.capacity >= 0
      && Total(s.items) <= s.capacity
  }

  lemma PrefixGood(items: seq<Item>, kept: seq<Item>, now: int)
    requires Distinct(items) && InOrder(items, now) && NonNegative(items) && kept <= items
    ensures Distinct(kept) && InOrder(kept, now) && NonNegative(kept)
  {
    assert forall i :: 0 <= i < |kept| ==> kept[i] == items[i];
  }

  /** An item put at the front, used now, before the items without its key. */
  lemma FrontGood(items: seq<Item>, item: Item, now: int)
    requires Distinct(items) && InOrder(items, now) && NonNegative(items) && item.value.size >= 0
    ensures var all := [item.(accessed := now)] + Without(items, item.key);
            && Distinct(all) && InOrder(all, now + 1) && NonNegative(all)
            && Total(all) == item.value.size + Total(items) -
                 match Find(items, item.key) case None => 0 case Some(x) => x.value.size
  {
    WithoutDistinct(items, item.key);
    WithoutInOrder(items, item.key, now);
    WithoutNonNegative(items, item.key);
    WithoutOthers(items, item.key);
    PutFront(item.(accessed := now), Without(items, item.key), now);
    hide *;
  }

  lemma PutFront(item: Item, rest: seq<Item>, now: int)
    requires Distinct(rest) && InOrder(rest, now) && NonNegative(rest) && item.value.size >= 0 && item.accessed == now
    requires forall i :: 0 <= i < |rest| ==> rest[i].key != item.key
    ensures Distinct([item] + rest) && InOrder([item] + rest, now + 1) && NonNegative([item] + rest)
    ensures Total([item] + rest) == item.value.size + Total(rest)
  {
    assert ([item] + rest)[1..] == rest;
  }

  /** Nothing to remove. */
  lemma {:induction false} WithoutAbsent(items: seq<Item>, key: string)
    requires Find(items, key).None?
    ensures Without(items, key) == items
  {
    if items != [] {
      WithoutAbsent(items[1..], key);
    }
  }

  /** The item found is one of the items. */
  lemma FoundGood(items: seq<Item>, key: string, now: int)
    requires Distinct(items) && InOrder(items, now) && NonNegative(items) && Find(items, key).Some?
    ensures var all := Touched(items, Find(items, key).value, now);
            Distinct(all) && InOrder(all, now + 1) && NonNegative(all) && Total(all) == Total(items)
  {
    FindIs(items, key);
    FrontGood(items, Find(items, key).value, now);
    hide Find, Without, Total;
  }

  lemma SetGood(items: seq<Item>, item: Item, capacity: int, now: int)
    requires Distinct(items) && InOrder(items, now) && NonNegative(items) && item.value.size >= 0
        && item.accessed == now && capacity >= 0
    ensures Good(State(Evict([item] + Without(items, item.key), capacity), capacity), now + 1)
  {
    var all := [item] + Without(items, item.key);
    assert item.(accessed := now) == item;
    FrontGood(items, item, now);
    EvictKeepsLongest(all, capacity);
    hide Find, Without, Total, Evict;
    PrefixGood(all, Evict(all, capacity), now + 1);
  }

  /** Every operation keeps keys distinct, the order of use and the total within the capacity. */
  lemma AfterGood(s: State, op: Op, now: int)
    requires Good(s, now) && SaneOp(op)
    ensures Good(After(s, op, now), now + 1)
  {
    hide Find, Without, Total, Evict, Distinct;
    match op
    case Get(key) =>
      if Find(s.items, key).Some? {
        FoundGood(s.items, key, now);
      }
    case Peek(_) =>
    case Set(key, value) => SetGood(s.items, Item(key, value, now), s.capacity, now);
    case SetIfAbsent(key, value) =>
      if Find(s.items, key).Some? {
        FoundGood(s.items, key, now);
      } else {
        WithoutAbsent(s.items, key);
        SetGood(s.items, Item(key, value, now), s.capacity, now);
      }
    case Delete(key) => DeleteGood(s, key, now);
    case Clear => EmptyGood();
    case SetCapacity(capacity) =>
      EvictKeepsLongest(s.items, capacity);
      PrefixGood(s.items, Evict(s.items, capacity), now);
  }

  /** Sizes and capacities are not negative. */
  predicate SaneOp(op: Op) {
    match op
    case Set(_, value) => value.size >= 0
    case SetIfAbsent(_, value) => value.size >= 0
    case SetCapacity(capacity) => capacity >= 0
    case _ => true
  }

  lemma DeleteGood(s: State, key: string, now: int)
    requires Good(s, now)
    ensures Good(s.(items := Without(s.items, key)), now)
  {
    WithoutDistinct(s.items, key);
    WithoutInOrder(s.items, key, now);
    WithoutNonNegative(s.items, key);
    WithoutOthers(s.items, key);
    FindIs(s.items, key);
    hide Without, Find, Total;
  }

  lemma EmptyGood()
    ensures Distinct([]) && Total([]) == 0
  {
  }

  // ------------------------------------------------------------------------- whole runs

  /** Operation i of a run happens at time i. */
  function Run(s: State, ops: seq<Op>): State {
    if ops == [] then s else After(Run(s, ops[..|ops| - 1]), ops[|ops| - 1], |ops| - 1)
  }

  /** The last operation that uses a key: a Get, Set or SetIfAbsent. */
  function LastUse(ops: seq<Op>, key: string): int {
    if ops == [] then -1
    else if Uses(ops[|ops| - 1], key) then |ops| - 1
    else LastUse(ops[..|ops| - 1], key)
  }

  predicate Uses(op: Op, key: string) { (op.Get? || op.Set? || op.SetIfAbsent?) && op.key == key }

  /** Every item carries the time of the last operation that used its key. */
  predicate Dated(items: seq<Item>, ops: seq<Op>) {
    forall i :: 0 <= i < |items| ==> items[i].accessed == LastUse(ops, items[i].key)
  }

  /** After any run of operations from the empty cache the keys are distinct, the total is within the capacity, and the
      items stand in the order of the last operation that used their key, most recent first. */
  lemma {:induction false} RunGood(capacity: int, ops: seq<Op>)
    requires capacity >= 0 && forall i :: 0 <= i < |ops| ==> SaneOp(ops[i])
    ensures Good(Run(State([], capacity), ops), |ops|)
    ensures Dated(Run(State([], capacity), ops).items, ops)
  {
    if ops == [] {
      EmptyGood();
    } else {
      var n := |ops| - 1;
      RunGood(capacity, ops[..n]);
      var s := Run(State([], capacity), ops[..n]);
      hide Good, SaneOp, After, LastUse;
      AfterGood(s, ops[n], n);
      AfterDated(s, ops, capacity);
    }
  }

  lemma AfterDated(s: State, ops: seq<Op>, capacity: int)
    requires ops != [] && Good(s, |ops| - 1) && Dated(s.items, ops[..|ops| - 1])
    ensures Dated(After(s, ops[|ops| - 1], |ops| - 1).items, ops)
  {
    var n := |ops| - 1;
    var op, t := ops[n], After(s, ops[n], n);
    forall i | 0 <= i < |t.items| ensures t.items[i].accessed == LastUse(ops, t.items[i].key) {
      FromBefore(s, op, n, t.items[i]);
    }
  }

  /** An item after an operation is either the one the operation used, dated now, or one from before that it did
      not use. */
  lemma FromBefore(s: State, op: Op, now: int, item: Item)
    requires Distinct(s.items) && item in After(s, op, now).items
    ensures if Uses(op, item.key) then item.accessed == now else item in s.items
  {
    match op
    case Get(key) =>
      FindIs(s.items, key);
      WithoutDistinct(s.items, key);
    case Peek(_) =>
    case Set(key, value) =>
      WithoutDistinct(s.items, key);
      EvictKeepsLongest([Item(key, value, now)] + Without(s.items, key), s.capacity);
    case SetIfAbsent(key, value) =>
      FindIs(s.items, key);
      WithoutDistinct(s.items, key);
      EvictKeepsLongest([Item(key, value, now)] + s.items, s.capacity);
    case Delete(key) => WithoutDistinct(s.items, key);
    case Clear =>
    case SetCapacity(capacity) => EvictKeepsLongest(s.items, capacity);
  }
}
