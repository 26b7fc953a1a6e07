/** FixedVec (src/fixed_vec.rs): a most-recently-used list of bounded
    length, kept newest first. */
module FixedVector {
  import opened Seqs

  /** The first n elements of s (all of s when it is shorter). */
  function Truncate<T>(s: seq<T>, n: nat): (r: seq<T>)
    ensures |r| <= n && r <= s
    ensures |s| <= n ==> r == s
    ensures |s| > n ==> |r| == n
  {
    if |s| <= n then s else s[..n]
  }

  /** The contents after push(v) at capacity c: v first, then the old entries
      without v's first occurrence, in their old order, cut to c entries. */
  function Pushed<T(==)>(d: seq<T>, v: T, c: nat): seq<T>
  {
    Truncate([v] + RemoveFirst(d, v), c)
  }

  /** After a push with room for at least one entry, the pushed value is the newest. */
  lemma PushedFront<T>(d: seq<T>, v: T, c: nat)
    requires c >= 1
    ensures |Pushed(d, v, c)| >= 1 && Pushed(d, v, c)[0] == v
  {
  }

  /** A push never leaves more than the capacity. */
  lemma PushedBounded<T>(d: seq<T>, v: T, c: nat)
    ensures |Pushed(d, v, c)| <= c
  {
  }

  /** A push keeps a duplicate-free list duplicate-free and loses no entry
      other than v except from the end. */
  lemma PushedDistinct<T>(d: seq<T>, v: T, c: nat)
    requires Distinct(d)
    ensures Distinct(Pushed(d, v, c))
    ensures |d| < c ==> forall x :: x in Pushed(d, v, c) <==> x in d || x == v
  {
    var rest := RemoveFirst(d, v);
    RemoveFirstDistinct(d, v);
    var full := [v] + rest;
    forall i, j | 0 <= i < j < |full| ensures full[i] != full[j] {
      if i == 0 {
        assert full[j] == rest[j - 1];
      } else {
        assert full[i] == rest[i - 1] && full[j] == rest[j - 1];
      }
    }
    if |d| < c {
      RemoveFirstMultiset(d, v);
      assert |full| <= c;
    }
  }

  /** Pushing the newest value again changes nothing. */
  lemma PushIdempotent<T>(d: seq<T>, v: T, c: nat)
    ensures Pushed(Pushed(d, v, c), v, c) == Pushed(d, v, c)
  {
    var t := Pushed(d, v, c);
    if c >= 1 {
      assert t[0] == v && v !in t[..0];
      FirstIndexAt(t, v, 0);
      assert [v] + RemoveFirst(t, v) == t;
    }
  }

  class FixedVec<T(==)> {
    var capacity: nat
    var data: seq<T>

    /** The bound push and resize establish (a deserialised list has
        capacity 0 and may break it until the next resize). */
    ghost predicate Valid()
      reads this
    {
      |data| <= capacity
    }

    /** FixedVec::new(capacity) */
    constructor (capacity: nat)
      ensures this.capacity == capacity && data == [] && Valid()
    {
      this.capacity := capacity;
      data := [];
    }

    method Clear()
      modifies this
      ensures data == [] && capacity == old(capacity) && Valid()
    {
      data := [];
    }

    function Len(): (n: nat)
      reads this
      ensures Valid() ==> n <= capacity
    {
      |data|
    }

    /** push: drop the earlier occurrence, push to the front, pop from the
        back while over capacity. */
    method Push(value: T)
      modifies this
      ensures data == Pushed(old(data), value, old(capacity))
      ensures capacity == old(capacity) && Valid()
    {
      var position := Position(data, value);
      if position.Some? {
        data := RemoveAt(data, position.value);
      }
      data := [value] + data;
      ghost var full := data;
      assert full == [value] + RemoveFirst(old(data), value);
      while |data| > capacity
        invariant capacity == old(capacity)
        invariant data == full[..|data|]
        invariant |full| <= capacity ==> data == full
        invariant |full| > capacity ==> |data| >= capacity
        decreases |data|
      {
        data := data[..|data| - 1];
      }
    }

    /** resize(size, value): the capacity becomes size; longer data is cut to
        size, shorter data is kept as it is. */
    method Resize(size: nat, value: T)
      modifies this
      ensures capacity == size
      ensures data == Truncate(old(data), size) && Valid()
    {
      capacity := size;
      if |data| > size {
        data := data[..size];
      }
    }
  }
}
