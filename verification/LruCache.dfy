/** The LRU cache itself (cache/lru_cache.go): a list and a table that point to the same entries, which are
    updated in place. An element of the list is an identity; `entries` says what each element holds. */
module LruCache {
  import opened Prelude
  import opened LruSpec

  datatype Entry = Entry(key: string, value: Value, size: int, timeAccessed: int)

  type Element = nat
  type Entries = map<Element, Entry>

  predicate Held(list: seq<Element>, entries: Entries) { forall e :: e in list ==> e in entries }

  predicate DistinctKeys(list: seq<Element>, entries: Entries)
    requires Held(list, entries)
  {
    forall i, j :: 0 <= i < j < |list| ==> entries[list[i]].key != entries[list[j]].key
  }

  /** The table finds exactly the elements of the list, by their keys. */
  predicate Indexed(list: seq<Element>, table: map<string, Element>, entries: Entries)
    requires Held(list, entries)
  {
    && (forall e :: e in list ==> entries[e].key in table && table[entries[e].key] == e)
    && (forall k :: k in table ==> table[k] in list && entries[table[k]].key == k)
  }

  /** Every entry carries the size of its value. */
  predicate Sized(list: seq<Element>, entries: Entries)
    requires Held(list, entries)
  {
    forall e :: e in list ==> entries[e].size == entries[e].value.size
  }

  /** List and table hold the same entries, under distinct keys. */
  predicate Linked(list: seq<Element>, table: map<string, Element>, entries: Entries) {
    Held(list, entries) && DistinctKeys(list, entries) && Indexed(list, table, entries) && Sized(list, entries)
  }

  function ItemOf(e: Entry): Item { Item(e.key, e.value, e.timeAccessed) }

  function View(list: seq<Element>, entries: Entries): (items: seq<Item>)
    requires Held(list, entries)
    ensures |items| == |list|
  {
    if list == [] then [] else [ItemOf(entries[list[0]])] + View(list[1..], entries)
  }

  lemma {:induction false} ViewAt(list: seq<Element>, entries: Entries, i: nat)
    requires Held(list, entries) && i < |list|
    ensures View(list, entries)[i] == ItemOf(entries[list[i]])
  {
    if i > 0 {
      ViewAt(list[1..], entries, i - 1);
    }
  }

  lemma {:induction false} ViewLast(list: seq<Element>, entries: Entries, e: Element)
    requires Held(list + [e], entries)
    ensures Held(list, entries) && View(list + [e], entries) == View(list, entries) + [ItemOf(entries[e])]
  {
    assert forall x :: x in list ==> x in list + [e];
    if list != [] {
      assert (list + [e])[1..] == list[1..] + [e];
      ViewLast(list[1..], entries, e);
    }
  }

  /** list.Remove: the list without one element. */
  function Removed(list: seq<Element>, e: Element): (r: seq<Element>)
    ensures forall x :: x in r ==> x in list
  {
    if list == [] then [] else if list[0] == e then list[1..] else [list[0]] + Removed(list[1..], e)
  }

  // ------------------------------------------------------------------------ the list

  lemma {:induction false} RemovedView(list: seq<Element>, e: Element, entries: Entries)
    requires Held(list, entries) && DistinctKeys(list, entries) && e in list && e in entries
    ensures Held(Removed(list, e), entries) && View(Removed(list, e), entries)
        == Without(View(list, entries), entries[e].key)
    ensures Find(View(list, entries), entries[e].key) == Some(ItemOf(entries[e]))
    ensures forall x :: x in Removed(list, e) <==> x in list && x != e
  {
    if list[0] == e {
      assert forall i :: 0 < i < |list| ==> entries[list[i]].key != entries[list[0]].key;
      assert list == [e] + list[1..];
    } else {
      assert list == [list[0]] + list[1..];
      RemovedView(list[1..], e, entries);
    }
  }

  lemma {:induction false} FindAbsent(list: seq<Element>, key: string, entries: Entries)
    requires Held(list, entries) && forall e :: e in list ==> entries[e].key != key
    ensures Find(View(list, entries), key).None? && Without(View(list, entries), key) == View(list, entries)
  {
    if list != [] {
      FindAbsent(list[1..], key, entries);
    }
  }

  lemma FoundIn(list: seq<Element>, table: map<string, Element>, entries: Entries, key: string)
    requires Linked(list, table, entries)
    ensures key in table ==>
              && table[key] in list && table[key] in entries && entries[table[key]].key == key
              && Find(View(list, entries), key) == Some(ItemOf(entries[table[key]]))
    ensures key !in table ==>
              Find(View(list, entries), key).None? && Without(View(list, entries), key) == View(list, entries)
  {
    if key in table {
      RemovedView(list, table[key], entries);
    } else {
      FindAbsent(list, key, entries);
    }
  }

  // Each operation on the elements keeps list and table linked, and does this to the items.

  lemma {:induction false} ViewSame(list: seq<Element>, a: Entries, b: Entries)
    requires Held(list, a) && Held(list, b) && forall e :: e in list ==> a[e] == b[e]
    ensures View(list, a) == View(list, b)
  {
    if list != [] {
      ViewSame(list[1..], a, b);
    }
  }

  lemma FrontLinked(list: seq<Element>, table: map<string, Element>, entries: Entries, e: Element, entry: Entry)
    requires Linked(list, table, entries) && e !in list && entry.size == entry.value.size
        && (forall k :: k in table ==> k != entry.key)
    ensures Held([e] + list, entries[e := entry]) && Linked([e] + list, table[entry.key := e], entries[e := entry])
    ensures View([e] + list, entries[e := entry]) == [ItemOf(entry)] + View(list, entries)
  {
    var all, now := [e] + list, entries[e := entry];
    assert Held(all, now);
    FrontView(list, entries, e, entry);
    FrontDistinct(list, table, entries, e, entry);
    FrontIndexed(list, table, entries, e, entry);
    hide View, DistinctKeys, Indexed, Held, Sized;
  }

  lemma FrontView(list: seq<Element>, entries: Entries, e: Element, entry: Entry)
    requires Held(list, entries) && e !in list
    ensures Held([e] + list, entries[e := entry])
        && View([e] + list, entries[e := entry]) == [ItemOf(entry)] + View(list, entries)
  {
    var all, now := [e] + list, entries[e := entry];
    assert all[1..] == list;
    ViewSame(list, entries, now);
  }

  lemma FrontDistinct(list: seq<Element>, table: map<string, Element>, entries: Entries, e: Element, entry: Entry)
    requires Linked(list, table, entries) && e !in list && (forall k :: k in table ==> k != entry.key)
    ensures Held([e] + list, entries[e := entry]) && DistinctKeys([e] + list, entries[e := entry])
  {
    var all, now := [e] + list, entries[e := entry];
    forall i, j | 0 <= i < j < |all| ensures now[all[i]].key != now[all[j]].key {
      assert all[j] == list[j - 1] && list[j - 1] in list && entries[list[j - 1]].key in table;
      if i > 0 {
        assert all[i] == list[i - 1] && list[i - 1] in list;
      }
    }
  }

  lemma FrontIndexed(list: seq<Element>, table: map<string, Element>, entries: Entries, e: Element, entry: Entry)
    requires Linked(list, table, entries) && e !in list && (forall k :: k in table ==> k != entry.key)
        && entry.size == entry.value.size
    ensures Held([e] + list, entries[e := entry]) && Indexed([e] + list, table[entry.key := e], entries[e := entry])
        && Sized([e] + list, entries[e := entry])
  {
    hide DistinctKeys;
    assert forall x :: x in [e] + list <==> x == e || x in list;
    assert forall x :: x in list ==> entries[x].key in table;
  }

  lemma DropLinked(list: seq<Element>, table: map<string, Element>, entries: Entries, rest: seq<Element>, e: Element)
    requires Linked(list, table, entries) && e in list && e in entries
    requires (forall x :: x in rest <==> x in list && x != e) && Held(rest, entries) && DistinctKeys(rest, entries)
    ensures Held(rest, entries) && Linked(rest, table - {entries[e].key}, entries)
  {
    forall x | x in rest ensures entries[x].key != entries[e].key {
      assert table[entries[x].key] == x && table[entries[e].key] == e;
    }
  }

  lemma {:induction false} RemovedDistinct(list: seq<Element>, e: Element, entries: Entries)
    requires Held(list, entries) && DistinctKeys(list, entries)
    ensures Held(Removed(list, e), entries) && DistinctKeys(Removed(list, e), entries)
  {
    if list != [] && list[0] != e {
      assert list == [list[0]] + list[1..];
      RemovedDistinct(list[1..], e, entries);
      var rest := Removed(list[1..], e);
      forall x | x in rest ensures entries[x].key != entries[list[0]].key {
        var a :| 0 <= a < |list[1..]| && list[1..][a] == x;
      }
    }
  }

  /** Taking an element out of list and table. */
  lemma Unlinked(list: seq<Element>, table: map<string, Element>, entries: Entries, e: Element)
    requires Linked(list, table, entries) && e in list && e in entries
    ensures var rest, key := Removed(list, e), entries[e].key;
            && Held(rest, entries) && Linked(rest, table - {key}, entries) && e !in rest
            && View(rest, entries) == Without(View(list, entries), key)
            && Total(View(list, entries)) == Total(View(rest, entries)) + entries[e].size
            && Find(View(list, entries), key) == Some(ItemOf(entries[e]))
  {
    RemovedView(list, e, entries);
    RemovedDistinct(list, e, entries);
    DropLinked(list, table, entries, Removed(list, e), e);
    WithoutOthers(View(list, entries), entries[e].key);
    SizeAt(list, entries, e);
  }

  lemma SizeAt(list: seq<Element>, entries: Entries, e: Element)
    requires Held(list, entries) && Sized(list, entries) && e in list && e in entries
    ensures entries[e].size == entries[e].value.size
  {
  }

  /** Rewriting an element's entry under the same key, and moving it to the front. */
  lemma Relinked(list: seq<Element>, table: map<string, Element>, entries: Entries, e: Element, entry: Entry)
    requires Linked(list, table, entries) && e in list && e in entries && entry.key == entries[e].key
        && entry.size == entry.value.size
    ensures var all, now := [e] + Removed(list, e), entries[e := entry];
            && Held(all, now) && Linked(all, table, now)
            && View(all, now) == [ItemOf(entry)] + Without(View(list, entries), entry.key)
            && Total(View(all, now)) == Total(View(list, entries)) - entries[e].size + entry.size
  {
    var rest, key := Removed(list, e), entry.key;
    Unlinked(list, table, entries, e);
    FrontLinked(rest, table - {key}, entries, e, entry);
    KeyKept(list, table, entries, e);
    hide *;
    assert (table - {key})[key := e] == table;
    FrontTotal(ItemOf(entry), View(rest, entries));
    ItemSize(entry);
  }

  lemma KeyKept(list: seq<Element>, table: map<string, Element>, entries: Entries, e: Element)
    requires Linked(list, table, entries) && e in list && e in entries
    ensures entries[e].key in table && table[entries[e].key] == e
  {
  }

  lemma ItemSize(e: Entry)
    ensures ItemOf(e).value.size == e.value.size
  {
  }

  lemma FrontTotal(item: Item, rest: seq<Item>)
    ensures Total([item] + rest) == item.value.size + Total(rest)
  {
    assert ([item] + rest)[1..] == rest;
  }

  /** Taking out the last element. */
  lemma LastUnlinked(list: seq<Element>, table: map<string, Element>, entries: Entries)
    requires Linked(list, table, entries) && list != []
    ensures var n := |list| - 1;
            && list[n] in entries && Held(list[..n], entries)
            && Linked(list[..n], table - {entries[list[n]].key}, entries)
            && View(list[..n], entries) == View(list, entries)[..n]
            && Total(View(list, entries)) == Total(View(list[..n], entries)) + entries[list[n]].size
  {
    var n := |list| - 1;
    var rest, e := list[..n], list[n];
    assert list == rest + [e];
    assert forall i :: 0 <= i < n ==> rest[i] == list[i] && entries[list[i]].key != entries[e].key;
    DropLinked(list, table, entries, rest, e);
    ViewLast(rest, entries, e);
    TotalAppend(View(rest, entries), [ItemOf(entries[e])]);
  }

  // --------------------------------------------------------------------------- the cache

  class LRUCache {
    var entries: Entries
    var list: seq<Element>
    var table: map<string, Element>
    var size: int
    var capacity: int
    var evictions: nat

    /** List and table are linked, and `size` is the sum of the sizes. */
    ghost predicate Valid()
      reads this
    {
      Held(list, entries) && Linked(list, table, entries) && size == Total(View(list, entries))
    }

    ghost function Contents(): State
      requires Valid()
      reads this
    {
      State(View(list, entries), capacity)
    }

    constructor (capacity: int)
      ensures Valid() && Contents() == State([], capacity) && evictions == 0
    {
      entries := map[];
      list := [];
      table := map[];
      size := 0;
      this.capacity := capacity;
      evictions := 0;
    }

    /** Moves an element to the front and dates it. */
    method MoveToFront(e: Element, now: int)
      requires Valid() && e in list && e in entries
      modifies this`list, this`entries
      ensures Valid() && View(list, entries) == Touched(old(View(list, entries)), ItemOf(old(entries)[e]), now)
    {
      var entry := entries[e].(timeAccessed := now);
      SizeAt(list, entries, e);
      Relinked(list, table, entries, e, entry);
      hide Held, Linked, View, Total, Without, Removed;
      list := [e] + Removed(list, e);
      entries := entries[e := entry];
    }

    /** Drops entries from the back while the size is over the capacity; false stands for the panic of
        looking at the back of an empty list. */
    method CheckCapacity() returns (ok: bool)
      requires Valid()
      modifies this`list, this`table, this`size, this`evictions
      ensures Valid() && View(list, entries) == Evict(old(View(list, entries)), capacity)
      ensures evictions == old(evictions) + |old(list)| - |list|
      ensures ok <==> Total(View(list, entries)) <= capacity
    {
      hide Held, Linked, Total, Evict;
      while size > capacity
        invariant Held(list, entries) && Linked(list, table, entries) && size == Total(View(list, entries))
        invariant Evict(View(list, entries), capacity) == Evict(old(View(list, entries)), capacity)
        invariant evictions == old(evictions) + |old(list)| - |list|
        decreases |list|
      {
        EvictStep(View(list, entries), capacity);
        if |list| == 0 {
          return false;
        }
        LastUnlinked(list, table, entries);
        var last := entries[list[|list| - 1]];
        list := list[..|list| - 1];
        table := table - {last.key};
        size := size - last.size;
        evictions := evictions + 1;
      }
      EvictStep(View(list, entries), capacity);
      ok := true;
    }

    method Get(key: string, now: int) returns (v: Option<Value>)
      requires Valid()
      modifies this`list, this`entries
      ensures Valid() && Contents() == After(old(Contents()), LruSpec.Get(key), now)
      ensures v == match Find(old(View(list, entries)), key) case None => None case Some(item) => Some(item.value)
    {
      FoundIn(list, table, entries, key);
      hide Held, Linked, Find, Without, Total;
      if key !in table {
        return None;
      }
      var e := table[key];
      v := Some(entries[e].value);
      MoveToFront(e, now);
    }

    method Peek(key: string) returns (v: Option<Value>)
      requires Valid()
      ensures v == match Find(View(list, entries), key) case None => None case Some(item) => Some(item.value)
    {
      FoundIn(list, table, entries, key);
      return if key in table then Some(entries[table[key]].value) else None;
    }

    method UpdateInplace(e: Element, value: Value, now: int) returns (ok: bool)
      requires Valid() && e in list && e in entries
      modifies this`list, this`entries, this`table, this`size, this`evictions
      ensures Valid() && View(list, entries) == Evict([Item(old(entries)[e].key, value, now)]
          + Without(old(View(list, entries)), old(entries)[e].key), capacity)
      ensures ok <==> Total(View(list, entries)) <= capacity
      ensures evictions == old(evictions) + 1 + |Without(old(View(list, entries)), old(entries)[e].key)| - |list|
    {
      var entry := entries[e].(value := value, size := value.size, timeAccessed := now);
      Relinked(list, table, entries, e, entry);
      hide Held, Linked, Total, Without, Removed, Evict;
      size := size + (value.size - entries[e].size);
      list := [e] + Removed(list, e);
      entries := entries[e := entry];
      ok := CheckCapacity();
    }

    method AddNew(key: string, value: Value, now: int) returns (ok: bool)
      requires Valid() && key !in table
      modifies this`list, this`entries, this`table, this`size, this`evictions
      ensures Valid() && View(list, entries) == Evict([Item(key, value, now)] + old(View(list, entries)), capacity)
      ensures ok <==> Total(View(list, entries)) <= capacity
      ensures evictions == old(evictions) + 1 + |old(list)| - |list|
    {
      var entry := Entry(key, value, value.size, now);
      var e := NewElement();
      FrontLinked(list, table, entries, e, entry);
      FrontTotal(ItemOf(entry), View(list, entries));
      hide Held, Linked, Total, Evict;
      list := [e] + list;
      table := table[key := e];
      entries := entries[e := entry];
      size := size + entry.size;
      ok := CheckCapacity();
    }

    /** An identity that no element of the list has. */
    method NewElement() returns (e: Element)
      ensures e !in list
    {
      e := 0;
      for i := 0 to |list|
        invariant forall k :: 0 <= k < i ==> list[k] < e
      {
        if e <= list[i] {
          e := list[i] + 1;
        }
      }
    }

    /** Set; false stands for the panic that a negative capacity can cause. */
    method Set(key: string, value: Value, now: int) returns (ok: bool)
      requires Valid()
      modifies this`list, this`entries, this`table, this`size, this`evictions
      ensures Valid() && Contents() == After(old(Contents()), LruSpec.Set(key, value), now)
      ensures (ok <==> Total(View(list, entries)) <= capacity) && (capacity >= 0 ==> ok)
      ensures evictions == old(evictions) + 1 + |Without(old(View(list, entries)), key)| - |list|
    {
      FoundIn(list, table, entries, key);
      EvictKeepsLongest([Item(key, value, now)] + Without(View(list, entries), key), capacity);
      hide Held, Linked, Find, Without, Total, Evict;
      if key in table {
        ok := UpdateInplace(table[key], value, now);
      } else {
        ok := AddNew(key, value, now);
      }
    }

    method SetIfAbsent(key: string, value: Value, now: int) returns (ok: bool)
      requires Valid()
      modifies this`list, this`entries, this`table, this`size, this`evictions
      ensures Valid() && Contents() == After(old(Contents()), LruSpec.SetIfAbsent(key, value), now)
      ensures (ok <==> Find(old(View(list, entries)), key).Some? || Total(View(list, entries)) <= capacity)
          && (capacity >= 0 ==> ok)
      ensures evictions == old(evictions) +
                if Find(old(View(list, entries)), key).Some? then 0 else 1 + |old(list)| - |list|
    {
      FoundIn(list, table, entries, key);
      EvictKeepsLongest([Item(key, value, now)] + View(list, entries), capacity);
      hide Held, Linked, Find, Without, Total, Evict;
      if key in table {
        MoveToFront(table[key], now);
        ok := true;
      } else {
        ok := AddNew(key, value, now);
      }
    }

    method Delete(key: string) returns (existed: bool)
      requires Valid()
      modifies this`list, this`table, this`size
      ensures Valid() && Contents() == After(old(Contents()), LruSpec.Delete(key), 0)
          && existed == Find(old(View(list, entries)), key).Some?
    {
      FoundIn(list, table, entries, key);
      hide Held, Linked, Find, Without, Total, View;
      if key !in table {
        return false;
      }
      Unlink(table[key]);
      return true;
    }

    /** Takes an element out of list and table. */
    method Unlink(e: Element)
      requires Valid() && e in list && e in entries
      modifies this`list, this`table, this`size
      ensures Valid() && View(list, entries) == Without(old(View(list, entries)), entries[e].key)
    {
      Unlinked(list, table, entries, e);
      hide Held, Linked, Find, Without, Total, Removed, View;
      size := size - entries[e].size;
      list := Removed(list, e);
      table := table - {entries[e].key};
    }

    method Clear()
      modifies this`list, this`table, this`size
      ensures Valid() && Contents() == State([], capacity)
    {
      list, table, size := [], map[], 0;
    }

    method SetCapacity(capacity: int) returns (ok: bool)
      requires Valid()
      modifies this`list, this`table, this`size, this`evictions, this`capacity
      ensures Valid() && Contents() == After(old(Contents()), LruSpec.SetCapacity(capacity), 0)
          && evictions == old(evictions) + |old(list)| - |list|
      ensures (ok <==> Total(View(list, entries)) <= capacity) && (capacity >= 0 ==> ok)
    {
      EvictKeepsLongest(View(list, entries), capacity);
      hide Held, Linked, Total, Evict;
      this.capacity := capacity;
      ok := CheckCapacity();
    }

    /** The keys, most recently used first. */
    method Keys() returns (keys: seq<string>)
      requires Valid()
      ensures |keys| == |list| && forall i :: 0 <= i < |keys| ==> keys[i] == View(list, entries)[i].key
    {
      hide View, DistinctKeys, Indexed, Sized, Total;
      keys := [];
      for i := 0 to |list|
        invariant |keys| == i && forall k :: 0 <= k < i ==> keys[k] == View(list, entries)[k].key
      {
        ViewAt(list, entries, i);
        keys := keys + [entries[list[i]].key];
      }
    }
  }

  lemma EvictStep(items: seq<Item>, capacity: int)
    ensures Total(items) <= capacity ==> Evict(items, capacity) == items
    ensures items == [] ==> Evict(items, capacity) == items
    ensures Total(items) > capacity && items != [] ==> Evict(items, capacity) == Evict(items[..|items| - 1], capacity)
  {
  }
}
