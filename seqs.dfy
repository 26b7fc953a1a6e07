/** Vec and VecDeque operations the editor relies on: Iterator::position
    (the first index of an element), Vec::remove, and duplicate-freedom. */
module Seqs {
  import opened Prelude

  /** Iterator::position(|v| *v == e): the index of the first occurrence. */
  function FirstIndex<T(==)>(s: seq<T>, e: T): (r: Option<nat>)
    ensures r.None? <==> e !in s
    ensures r.Some? ==> r.value < |s| && s[r.value] == e && e !in s[..r.value]
  {
    if s == [] then None
    else if s[0] == e then Some(0)
    else match FirstIndex(s[1..], e)
      case None => None
      case Some(i) => assert s[1..][..i] == s[1..i + 1]; Some(i + 1)
  }

  /** The first occurrence is unique: an index holding `e` with no earlier `e` is it. */
  lemma FirstIndexAt<T>(s: seq<T>, e: T, i: nat)
    requires i < |s| && s[i] == e && e !in s[..i]
    ensures FirstIndex(s, e) == Some(i)
  {
    forall j | 0 <= j < i ensures s[j] != e {
      assert s[..i][j] == s[j];
    }
    var k := FirstIndex(s, e).value;
    forall j | 0 <= j < k ensures s[j] != e {
      assert s[..k][j] == s[j];
    }
  }

  /** The loop behind Iterator::position. */
  method Position<T(==)>(s: seq<T>, e: T) returns (r: Option<nat>)
    ensures r == FirstIndex(s, e)
    ensures r.Some? ==> r.value < |s| && s[r.value] == e && forall j :: 0 <= j < r.value ==> s[j] != e
    ensures r.None? ==> forall j :: 0 <= j < |s| ==> s[j] != e
  {
    var i := 0;
    while i < |s|
      invariant 0 <= i <= |s|
      invariant forall j :: 0 <= j < i ==> s[j] != e
    {
      if s[i] == e {
        assert e !in s[..i];
        FirstIndexAt(s, e, i);
        return Some(i);
      }
      i := i + 1;
    }
    return None;
  }

  /** Vec::remove(i) */
  function RemoveAt<T>(s: seq<T>, i: nat): (r: seq<T>)
    requires i < |s|
    ensures |r| == |s| - 1
    ensures forall j :: 0 <= j < i ==> r[j] == s[j]
    ensures forall j :: i <= j < |r| ==> r[j] == s[j + 1]
  {
    s[..i] + s[i + 1..]
  }

  /** Removes the first occurrence of `e`, if there is one. */
  function RemoveFirst<T(==)>(s: seq<T>, e: T): seq<T>
  {
    match FirstIndex(s, e)
    case None => s
    case Some(i) => RemoveAt(s, i)
  }

  /** Removing the first occurrence takes exactly one `e` out of the multiset. */
  lemma RemoveFirstMultiset<T>(s: seq<T>, e: T)
    ensures multiset(RemoveFirst(s, e)) == multiset(s) - multiset{e}
    ensures e in s ==> |RemoveFirst(s, e)| == |s| - 1
    ensures e !in s ==> RemoveFirst(s, e) == s
  {
    match FirstIndex(s, e)
    case None =>
    case Some(i) =>
      assert s == s[..i] + [s[i]] + s[i + 1..];
      assert multiset(s) == multiset(s[..i]) + multiset{e} + multiset(s[i + 1..]);
  }

  ghost predicate Distinct<T>(s: seq<T>)
  {
    forall i, j :: 0 <= i < j < |s| ==> s[i] != s[j]
  }

  /** In a duplicate-free list, removing `e` removes it altogether and keeps the rest duplicate-free. */
  lemma RemoveFirstDistinct<T>(s: seq<T>, e: T)
    requires Distinct(s)
    ensures Distinct(RemoveFirst(s, e))
    ensures e !in RemoveFirst(s, e)
    ensures forall x :: x in RemoveFirst(s, e) <==> x in s && x != e
  {
    match FirstIndex(s, e)
    case None =>
    case Some(i) =>
      var r := RemoveAt(s, i);
      forall x | x in r ensures x in s && x != e {
        var k :| 0 <= k < |r| && r[k] == x;
        if k < i { assert s[k] == x; } else { assert s[k + 1] == x; }
      }
      forall x | x in s && x != e ensures x in r {
        var k :| 0 <= k < |s| && s[k] == x;
        if k < i { assert r[k] == x; } else { assert r[k - 1] == x; }
      }
  }
}
