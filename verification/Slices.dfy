/** Go slices of bytes. An index must lie within the length of a slice, but a slice expression may reach
    up to its capacity: the bytes behind the length, which stripping a checksum leaves there, are spare. */
module Slices {
  import opened Prelude

  datatype Slice = Slice(seen: seq<byte>, spare: seq<byte>) {
    function All(): seq<byte> { seen + spare }

    /** The slice from position n on. A position behind the length sees nothing more. */
    function Drop(n: nat): Slice
      requires n <= |All()|
    {
      if n <= |seen| then Slice(seen[n..], spare) else Slice([], spare[n - |seen|..])
    }
  }

  /** What is left of the data after n bytes; nothing when n runs past the end. */
  function After(data: seq<byte>, n: int): seq<byte>
    requires n >= 0
  {
    if n <= |data| then data[n..] else []
  }

  /** How many of `seen` bytes are left after n. */
  function Left(seen: nat, n: nat): nat { if n <= seen then seen - n else 0 }

  /** `bs` is taken from the front of `s`, and `rest` is what follows. */
  predicate Takes(s: Slice, bs: seq<byte>, rest: Slice) { bs <= s.All() && rest == s.Drop(|bs|) }

  lemma Dropped(s: Slice, n: nat)
    requires n <= |s.All()|
    ensures s.Drop(n).All() == s.All()[n..] && s.Drop(n).seen == After(s.seen, n)
        && |s.Drop(n).seen| == Left(|s.seen|, n)
  {
  }

  lemma DropDrop(s: Slice, m: nat, n: nat)
    requires m + n <= |s.All()|
    ensures |s.Drop(m).All()| == |s.All()| - m && s.Drop(m).Drop(n) == s.Drop(m + n)
  {
  }

  /** Taking two parts one after the other is taking both. */
  lemma TakesBoth(s: Slice, a: seq<byte>, b: seq<byte>, rest: Slice)
    ensures Takes(s, a + b, rest) <==> a <= s.All() && Takes(s.Drop(|a|), b, rest)
  {
    hide *;
    PrefixBoth(s.All(), a, b);
    if a <= s.All() {
      Dropped(s, |a|);
      TakesIs(s.Drop(|a|), b, rest);
      if |a + b| <= |s.All()| {
        DropDrop(s, |a|, |b|);
      }
    }
    TakesIs(s, a + b, rest);
  }

  lemma TakesIs(s: Slice, bs: seq<byte>, rest: Slice)
    ensures Takes(s, bs, rest) <==> bs <= s.All() && rest == s.Drop(|bs|)
  {
  }

  lemma PrefixBoth(all: seq<byte>, a: seq<byte>, b: seq<byte>)
    ensures a + b <= all <==> a <= all && b <= all[|a|..]
  {
    if a <= all {
      var tail := all[|a|..];
      assert all == a + tail;
      if b <= tail {
        assert all == a + b + tail[|b|..];
      }
      if a + b <= all {
        assert tail[..|b|] == all[|a|..|a + b|] == b;
      }
    }
  }

  lemma AfterAfter(data: seq<byte>, m: nat, n: nat)
    ensures After(After(data, m), n) == After(data, m + n)
  {
  }
}
