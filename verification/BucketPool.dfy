/** The bucket pool of byte buffers (bucketpool/bucketpool.go). */
module BucketPool {
  import opened Prelude

  /** A slice behind a reference: its capacity is fixed, its length is re-sliced in place. */
  class Buffer {
    const cap: nat
    var len: nat

    constructor (size: nat)
      ensures cap == size && len == size
    {
      cap := size;
      len := size;
    }
  }

  function Doubled(size: nat, i: nat): nat
    decreases i
  {
    if i == 0 then size else Doubled(2 * size, i - 1)
  }

  lemma {:induction false} DoubledStep(size: nat, i: nat)
    ensures Doubled(size, i + 1) == 2 * Doubled(size, i)
    decreases i
  {
    if i > 0 {
      DoubledStep(2 * size, i - 1);
    }
  }

  lemma {:induction false} DoubledGrows(size: nat, i: nat, j: nat)
    requires size >= 1 && i < j
    ensures Doubled(size, i) < Doubled(size, j)
    decreases j
  {
    DoubledPositive(size, j - 1);
    DoubledStep(size, j - 1);
    if i < j - 1 {
      DoubledGrows(size, i, j - 1);
    }
  }

  lemma {:induction false} DoubledPositive(size: nat, i: nat)
    requires size >= 1
    ensures Doubled(size, i) >= 1
    decreases i
  {
    if i > 0 {
      DoubledPositive(2 * size, i - 1);
    }
  }

  /** The least i with minSize * 2^i at least `size`. */
  function LeastIndex(minSize: nat, size: nat): (i: nat)
    requires minSize >= 1
    ensures Doubled(minSize, i) >= size && (i > 0 ==> Doubled(minSize, i - 1) < size)
    decreases if size > minSize then size - minSize else 0
  {
    if size <= minSize then 0 else 1 + LeastIndex(2 * minSize, size)
  }

  /** The sizes of the buckets: doubling from the smallest, the last one capped. */
  predicate BucketSizes(sizes: seq<nat>, minSize: nat, maxSize: nat) {
    && 1 <= minSize <= maxSize && |sizes| >= 1
    && (forall i :: 0 <= i < |sizes| - 1 ==> sizes[i] == Doubled(minSize, i) < maxSize)
    && sizes[|sizes| - 1] == maxSize <= Doubled(minSize, |sizes| - 1)
  }

  /** The bucket for a size: none above the maximum, otherwise the smallest bucket that holds it. */
  lemma IndexFits(sizes: seq<nat>, minSize: nat, maxSize: nat, size: nat)
    requires BucketSizes(sizes, minSize, maxSize)
    ensures size <= maxSize <==> LeastIndex(minSize, size) < |sizes| && size <= sizes[LeastIndex(minSize, size)]
    ensures size <= maxSize ==> forall j :: 0 <= j < LeastIndex(minSize, size) ==> sizes[j] < size
  {
    var n, i := |sizes| - 1, LeastIndex(minSize, size);
    if i > n {
      if n < i - 1 {
        DoubledGrows(minSize, n, i - 1);
      }
    }
    forall j | 0 <= j < i && j < |sizes| ensures size <= maxSize ==> sizes[j] < size {
      if j < i - 1 {
        DoubledGrows(minSize, j, i - 1);
      }
    }
  }

  /** A buffer of a bucket's size goes back to that bucket. */
  lemma IndexOfBucket(sizes: seq<nat>, minSize: nat, maxSize: nat, i: nat)
    requires BucketSizes(sizes, minSize, maxSize) && i < |sizes|
    ensures LeastIndex(minSize, sizes[i]) == i
  {
    var k := LeastIndex(minSize, sizes[i]);
    if k < i {
      DoubledGrows(minSize, k, i);
    } else if i < k - 1 {
      DoubledGrows(minSize, i, k - 1);
    }
  }

  /** A capacity between two bucket sizes leads to the larger bucket, whose buffers are expected to be larger. */
  lemma StrayCapacity()
    ensures BucketSizes([4, 8, 16], 4, 16) && LeastIndex(4, 5) == 1 && 5 !in [4, 8, 16]
  {
    assert Doubled(4, 0) == 4 && Doubled(4, 1) == 8;
    assert Doubled(8, 1) == Doubled(16, 0);
  }

  class Pool {
    const minSize: nat
    const maxSize: nat
    const sizes: seq<nat>
    var pools: seq<seq<Buffer>>

    /** Bucket i holds buffers of exactly its size, each at full length. */
    ghost predicate Valid()
      reads this, Pooled()
    {
      && BucketSizes(sizes, minSize, maxSize) && |pools| == |sizes|
      && (forall i, k :: 0 <= i < |pools| && 0 <= k < |pools[i]| ==>
            pools[i][k].cap == sizes[i] && pools[i][k].len == sizes[i])
      && (forall i, k, j, l ::
            0 <= i < |pools| && 0 <= k < |pools[i]| && 0 <= j < |pools| && 0 <= l < |pools[j]| && (i != j || k != l) ==>
              pools[i][k] != pools[j][l])
    }

    ghost function Pooled(): set<Buffer>
      reads this
    {
      set i, k | 0 <= i < |pools| && 0 <= k < |pools[i]| :: pools[i][k]
    }

    constructor (minSize: nat, maxSize: nat)
      requires 1 <= minSize <= maxSize
      ensures Valid() && Pooled() == {} && this.minSize == minSize && this.maxSize == maxSize
    {
      var curSize, ss: seq<nat> := minSize, [];
      while curSize < maxSize
        invariant curSize == Doubled(minSize, |ss|) && curSize >= 1
        invariant forall i :: 0 <= i < |ss| ==> ss[i] == Doubled(minSize, i) < maxSize
        decreases maxSize - curSize
      {
        DoubledStep(minSize, |ss|);
        ss := ss + [curSize];
        curSize := curSize * 2;
      }
      this.minSize, this.maxSize := minSize, maxSize;
      sizes := ss + [maxSize];
      pools := seq(|ss| + 1, _ => []);
    }

    /** findPool: the bucket for a size. */
    function FindPool(size: nat): (r: Option<nat>)
      requires BucketSizes(sizes, minSize, maxSize)
      ensures r.None? <==> size > maxSize
      ensures r.Some? ==> r.value < |sizes| && size <= sizes[r.value] && forall j :: 0 <= j < r.value ==>
                sizes[j] < size
    {
      IndexFits(sizes, minSize, maxSize, size);
      if size > maxSize then None
      else
        var i := LeastIndex(minSize, size);
        if i > |sizes| - 1 then None else Some(i)
    }

    /** Get: a buffer of the asked length, cut from one of its bucket. Which pooled buffer is taken, if any, is up
        to the pool of the bucket: `pick` says so. */
    method Get(size: nat, pick: nat) returns (buf: Buffer)
      requires Valid()
      modifies this, Pooled()
      ensures Valid() && buf.len == size <= buf.cap && buf !in Pooled()
      ensures buf.cap == match FindPool(size) case None => size case Some(i) => sizes[i]
      ensures Pooled() <= old(Pooled()) && (fresh(buf) || buf in old(Pooled()))
    {
      var i := FindPool(size);
      if i.None? {
        buf := new Buffer(size);
        return;
      }
      var bucket := pools[i.value];
      if pick < |bucket| {
        buf := bucket[pick];
        pools := pools[i.value := bucket[..pick] + bucket[pick + 1..]];
      } else {
        buf := new Buffer(sizes[i.value]);
      }
      buf.len := size;
    }

    /** Put: a buffer whose capacity is a bucket's size goes back to that bucket, at full length; one larger than
        any bucket is dropped. The pool stays valid unless the buffer has another capacity, which none that Get returned
        has and which puts it into a bucket of larger buffers, or is in the pool already. */
    method Put(b: Buffer)
      requires Valid()
      modifies this, b
      ensures FindPool(b.cap).None? ==> pools == old(pools) && b.len == old(b.len)
      ensures FindPool(b.cap).Some? ==>
                var i := FindPool(b.cap).value; b.len == b.cap && pools == old(pools)[i := old(pools)[i] + [b]]
      ensures Valid() <==> b.cap > maxSize || (b.cap in sizes && b !in old(Pooled()))
      ensures forall i :: 0 <= i < |sizes| && b.cap == sizes[i] ==> FindPool(b.cap) == Some(i)
    {
      forall i | 0 <= i < |sizes| && b.cap == sizes[i] ensures FindPool(b.cap) == Some(i) {
        IndexOfBucket(sizes, minSize, maxSize, i);
      }
      var i := FindPool(b.cap);
      if i.None? {
        return;
      }
      ghost var last, before := |pools[i.value]|, pools;
      b.len := b.cap;
      pools := pools[i.value := pools[i.value] + [b]];
      assert pools[i.value][last] == b;
      if b in old(Pooled()) {
        ghost var j, l :| 0 <= j < |before| && 0 <= l < |before[j]| && before[j][l] == b;
        assert pools[j][l] == b && (j != i.value || l != last);
      }
    }
  }
}
