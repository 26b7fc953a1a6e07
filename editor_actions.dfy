/** The editor's list operations (src/editor/actions.rs): the z-order moves
    raise_in_vec, lower_in_vec, raise_top_in_vec and lower_bottom_in_vec on a
    vector acting in place, and the action handlers that edit candidate
    lists, the associated-slots selection and the zoom. */
module EditorActions {
  import opened Prelude
  import opened Seqs

  type SlotId = nat
  type FragmentId = nat

  // =====================================================================
  // Z-order moves, as functions of the old contents

  /** raise_in_vec: the first occurrence swaps with its predecessor. */
  function Raised<T(==)>(s: seq<T>, e: T): (r: seq<T>)
    ensures |r| == |s|
    ensures match FirstIndex(s, e)
      case Some(i) =>
        if i > 0 then r[i - 1] == e && r[i] == s[i - 1] &&
                      forall j :: 0 <= j < |s| && j != i - 1 && j != i ==> r[j] == s[j]
        else r == s
      case None => r == s
  {
    match FirstIndex(s, e)
    case Some(i) => if i > 0 then s[i - 1 := s[i]][i := s[i - 1]] else s
    case None => s
  }

  /** lower_in_vec: the first occurrence swaps with its successor. */
  function Lowered<T(==)>(s: seq<T>, e: T): (r: seq<T>)
    ensures |r| == |s|
    ensures match FirstIndex(s, e)
      case Some(i) =>
        if i < |s| - 1 then r[i + 1] == e && r[i] == s[i + 1] &&
                            forall j :: 0 <= j < |s| && j != i && j != i + 1 ==> r[j] == s[j]
        else r == s
      case None => r == s
  {
    match FirstIndex(s, e)
    case Some(i) => if i < |s| - 1 then s[i + 1 := s[i]][i := s[i + 1]] else s
    case None => s
  }

  /** raise_top_in_vec: the element comes first and the others keep their order. */
  function RaisedTop<T(==)>(s: seq<T>, e: T): (r: seq<T>)
    ensures |r| == |s|
    ensures e !in s ==> r == s
    ensures e in s ==> r[0] == e && r[1..] == RemoveFirst(s, e)
  {
    match FirstIndex(s, e)
    case Some(i) => if i > 0 then [s[i]] + RemoveAt(s, i) else s
    case None => s
  }

  /** lower_bottom_in_vec: the element comes last and the others keep their order. */
  function LoweredBottom<T(==)>(s: seq<T>, e: T): (r: seq<T>)
    ensures |r| == |s|
    ensures e !in s ==> r == s
    ensures e in s ==> r[|r| - 1] == e && r[..|r| - 1] == RemoveFirst(s, e)
  {
    match FirstIndex(s, e)
    case Some(i) =>
      if i < |s| - 1 then RemoveAt(s, i) + [s[i]]
      else assert s[..|s| - 1] == RemoveAt(s, i); s
    case None => s
  }

  lemma SwapMultiset<T>(s: seq<T>, i: nat, j: nat)
    requires i < j < |s|
    ensures multiset(s[i := s[j]][j := s[i]]) == multiset(s)
  {
    var t1 := s[i := s[j]];
    assert multiset(t1) == multiset(s) - multiset{s[i]} + multiset{s[j]};
    assert t1[j] == s[j];
    assert multiset(t1[j := s[i]]) == multiset(t1) - multiset{s[j]} + multiset{s[i]};
  }

  lemma MoveMultiset<T>(s: seq<T>, i: nat)
    requires i < |s|
    ensures multiset([s[i]] + RemoveAt(s, i)) == multiset(s)
    ensures multiset(RemoveAt(s, i) + [s[i]]) == multiset(s)
  {
    assert s == s[..i] + [s[i]] + s[i + 1..];
  }

  /** All four moves permute the vector. */
  lemma MovesArePermutations<T>(s: seq<T>, e: T)
    ensures multiset(Raised(s, e)) == multiset(s)
    ensures multiset(Lowered(s, e)) == multiset(s)
    ensures multiset(RaisedTop(s, e)) == multiset(s)
    ensures multiset(LoweredBottom(s, e)) == multiset(s)
  {
    match FirstIndex(s, e)
    case None =>
    case Some(i) =>
      if i > 0 {
        SwapMultiset(s, i - 1, i);
        assert s[i - 1 := s[i]][i := s[i - 1]] == s[i := s[i - 1]][i - 1 := s[i]];
        MoveMultiset(s, i);
      }
      if i < |s| - 1 {
        SwapMultiset(s, i, i + 1);
        assert s[i + 1 := s[i]][i := s[i + 1]] == s[i := s[i + 1]][i + 1 := s[i]];
        MoveMultiset(s, i);
      }
  }

  /** Lowering an element that was just raised restores the vector. */
  lemma LowerUndoesRaise<T>(s: seq<T>, e: T)
    requires FirstIndex(s, e).Some? && FirstIndex(s, e).value > 0
    ensures Lowered(Raised(s, e), e) == s
  {
    var i := FirstIndex(s, e).value;
    var r := Raised(s, e);
    assert e !in r[..i - 1] by {
      forall j | 0 <= j < i - 1 ensures r[j] != e {
        assert s[..i][j] == s[j];
      }
    }
    FirstIndexAt(r, e, i - 1);
  }

  /** In a duplicate-free vector, raising an element that was just lowered restores the vector. */
  lemma RaiseUndoesLower<T>(s: seq<T>, e: T)
    requires Distinct(s)
    requires FirstIndex(s, e).Some? && FirstIndex(s, e).value < |s| - 1
    ensures Raised(Lowered(s, e), e) == s
  {
    var i := FirstIndex(s, e).value;
    var r := Lowered(s, e);
    assert e !in r[..i + 1] by {
      forall j | 0 <= j < i + 1 ensures r[j] != e {
        if j < i { assert s[..i][j] == s[j]; }
      }
    }
    FirstIndexAt(r, e, i + 1);
  }

  /** Raising to the top twice is raising to the top once. */
  lemma RaiseTopIdempotent<T>(s: seq<T>, e: T)
    ensures RaisedTop(RaisedTop(s, e), e) == RaisedTop(s, e)
  {
    var r := RaisedTop(s, e);
    if e in s {
      assert e !in r[..0];
      FirstIndexAt(r, e, 0);
    }
  }

  // =====================================================================
  // The same moves acting in place on the vector's buffer

  method RaiseInVec<T(==)>(element: T, v: array<T>)
    modifies v
    ensures v[..] == Raised(old(v[..]), element)
  {
    var position := Position(v[..], element);
    if position.Some? && position.value > 0 {
      var p := position.value;
      v[p], v[p - 1] := v[p - 1], v[p];
    }
  }

  method LowerInVec<T(==)>(element: T, v: array<T>)
    modifies v
    ensures v[..] == Lowered(old(v[..]), element)
  {
    var position := Position(v[..], element);
    if position.Some? && position.value < v.Length - 1 {
      var p := position.value;
      v[p], v[p + 1] := v[p + 1], v[p];
    }
  }

  /** remove(position) then insert(0, id): the prefix shifts one place right. */
  method RaiseTopInVec<T(==)>(element: T, v: array<T>)
    modifies v
    ensures v[..] == RaisedTop(old(v[..]), element)
  {
    ghost var s := v[..];
    var position := Position(v[..], element);
    if position.Some? && position.value > 0 {
      var p := position.value;
      var id := v[p];
      var k := p;
      while k > 0
        invariant 0 <= k <= p
        invariant forall l :: 0 <= l <= k ==> v[l] == s[l]
        invariant forall l :: k < l <= p ==> v[l] == s[l - 1]
        invariant forall l :: p < l < v.Length ==> v[l] == s[l]
      {
        v[k] := v[k - 1];
        k := k - 1;
      }
      v[0] := id;
      assert v[..] == [s[p]] + RemoveAt(s, p);
    }
  }

  /** remove(position) then push(id): the suffix shifts one place left. */
  method LowerBottomInVec<T(==)>(element: T, v: array<T>)
    modifies v
    ensures v[..] == LoweredBottom(old(v[..]), element)
  {
    ghost var s := v[..];
    var len := v.Length;
    var position := Position(v[..], element);
    if position.Some? && position.value < len - 1 {
      var p := position.value;
      var id := v[p];
      for k := p to len - 1
        invariant forall l :: 0 <= l < p ==> v[l] == s[l]
        invariant forall l :: p <= l < k ==> v[l] == s[l + 1]
        invariant forall l :: k <= l < len ==> v[l] == s[l]
      {
        v[k] := v[k + 1];
      }
      v[len - 1] := id;
      assert v[..] == RemoveAt(s, p) + [s[p]];
    }
  }

  // =====================================================================
  // Candidate lists

  /** The candidates after SlotAddCandidates: each new id, in input order,
      is appended unless it is already there. */
  function Added(c: seq<FragmentId>, fs: seq<FragmentId>): (r: seq<FragmentId>)
    ensures |c| <= |r| && r[..|c|] == c
    ensures forall x :: x in r <==> x in c || x in fs
  {
    if fs == [] then c
    else
      var p := Added(c, fs[..|fs| - 1]);
      var f := fs[|fs| - 1];
      assert forall x :: x in fs <==> x in fs[..|fs| - 1] || x == f by {
        assert fs == fs[..|fs| - 1] + [f];
      }
      if f in p then p else assert (p + [f])[..|c|] == p[..|c|]; p + [f]
  }

  /** Adding keeps a duplicate-free list duplicate-free. */
  lemma {:induction false} AddedDistinct(c: seq<FragmentId>, fs: seq<FragmentId>)
    requires Distinct(c)
    ensures Distinct(Added(c, fs))
  {
    if fs != [] {
      AddedDistinct(c, fs[..|fs| - 1]);
    }
  }

  /** The first occurrence of an element of a prefix lies in that prefix. */
  lemma FirstIndexInPrefix<T>(pre: seq<T>, s: seq<T>, x: T)
    requires pre <= s && x in pre
    ensures FirstIndex(s, x) == FirstIndex(pre, x)
  {
    var k := FirstIndex(pre, x).value;
    assert s[..k] == pre[..k];
    FirstIndexAt(s, x, k);
  }

  /** The ids SlotAddCandidates appended. */
  function NewIds(c: seq<FragmentId>, fs: seq<FragmentId>): seq<FragmentId>
  {
    Added(c, fs)[|c|..]
  }

  /** The appended ids are new ids, in the order of their first appearance in the input. */
  lemma {:induction false} AddedOrder(c: seq<FragmentId>, fs: seq<FragmentId>)
    ensures forall i :: 0 <= i < |NewIds(c, fs)| ==> NewIds(c, fs)[i] !in c && NewIds(c, fs)[i] in fs
    ensures forall i, j :: 0 <= i < j < |NewIds(c, fs)| ==>
      FirstIndex(fs, NewIds(c, fs)[i]).value < FirstIndex(fs, NewIds(c, fs)[j]).value
  {
    if fs != [] {
      var pre := fs[..|fs| - 1];
      var f := fs[|fs| - 1];
      assert pre <= fs;
      AddedOrder(c, pre);
      var p := Added(c, pre);
      var ap := NewIds(c, pre);
      forall i | 0 <= i < |ap| ensures ap[i] in fs && FirstIndex(fs, ap[i]) == FirstIndex(pre, ap[i]) {
        FirstIndexInPrefix(pre, fs, ap[i]);
      }
      if f !in p {
        var a := NewIds(c, fs);
        assert a == ap + [f];
        assert f !in pre;
        FirstIndexAt(fs, f, |fs| - 1);
        forall i, j | 0 <= i < j < |a|
          ensures FirstIndex(fs, a[i]).value < FirstIndex(fs, a[j]).value
        {
          if j == |ap| {
            assert a[i] == ap[i];
          } else {
            assert a[i] == ap[i] && a[j] == ap[j];
          }
        }
      }
    }
  }

  /** The list an AssociatedSlotsConfirm leaves in one slot: the fragment is
      appended when the slot is selected and absent, and its first occurrence
      removed when the slot is not selected. */
  function Confirmed(c: seq<FragmentId>, selected: bool, f: FragmentId): (r: seq<FragmentId>)
    ensures selected ==> f in r && c <= r && |r| == |c| + (if f in c then 0 else 1)
    ensures !selected ==> r == RemoveFirst(c, f)
  {
    if selected then (if f in c then c else c + [f]) else RemoveFirst(c, f)
  }

  /** After confirming, a duplicate-free list holds the fragment exactly when
      its slot was selected, and stays duplicate-free. */
  lemma ConfirmedMatchesSelection(c: seq<FragmentId>, selected: bool, f: FragmentId)
    requires Distinct(c)
    ensures Distinct(Confirmed(c, selected, f))
    ensures f in Confirmed(c, selected, f) <==> selected
  {
    if !selected {
      RemoveFirstDistinct(c, f);
    }
  }

  /** The loop of AssociatedSlotsConfirm over every slot, in whatever order
      the slots come. */
  method ConfirmAll(candidates: map<SlotId, seq<FragmentId>>, associatedSlots: set<SlotId>, f: FragmentId)
    returns (result: map<SlotId, seq<FragmentId>>)
    ensures result == map k | k in candidates :: Confirmed(candidates[k], k in associatedSlots, f)
  {
    result := candidates;
    var todo := candidates.Keys;
    while todo != {}
      invariant todo <= candidates.Keys && result.Keys == candidates.Keys
      invariant forall k :: k in candidates && k in todo ==> result[k] == candidates[k]
      invariant forall k :: k in candidates && k !in todo ==>
        result[k] == Confirmed(candidates[k], k in associatedSlots, f)
      decreases |todo|
    {
      var slotId :| slotId in todo;
      var list := result[slotId];
      if slotId in associatedSlots {
        if f !in list {
          list := list + [f];
        }
      } else {
        var position := Position(list, f);
        if position.Some? {
          list := RemoveAt(list, position.value);
        }
      }
      result := result[slotId := list];
      todo := todo - {slotId};
    }
  }

  /** Which list a candidate action edits: the slot's, when the slot id names
      an existing slot, and otherwise the slot being created in the dialog. */
  datatype Target = SlotTarget(id: SlotId) | AdapterTarget | NoTarget

  /** The parts of EditorApp these handlers touch. */
  class Editor {
    var candidates: map<SlotId, seq<FragmentId>>
    var adapterCandidates: Option<seq<FragmentId>>
    var associatedSlots: set<SlotId>
    var scale: real

    constructor (candidates: map<SlotId, seq<FragmentId>>, adapterCandidates: Option<seq<FragmentId>>)
      ensures this.candidates == candidates && this.adapterCandidates == adapterCandidates
      ensures associatedSlots == {} && scale == 1.0
    {
      this.candidates := candidates;
      this.adapterCandidates := adapterCandidates;
      associatedSlots := {};
      scale := 1.0;
    }

    function TargetOf(slotId: Option<SlotId>): (t: Target)
      reads this
      ensures t.SlotTarget? ==> t.id in candidates
      ensures t == NoTarget <==> (slotId.None? || slotId.value !in candidates) && adapterCandidates.None?
    {
      if slotId.Some? && slotId.value in candidates then SlotTarget(slotId.value)
      else if adapterCandidates.Some? then AdapterTarget
      else NoTarget
    }

    function ListOf(t: Target): seq<FragmentId>
      reads this
      requires t.SlotTarget? ==> t.id in candidates
      requires t.AdapterTarget? ==> adapterCandidates.Some?
    {
      match t
      case SlotTarget(id) => candidates[id]
      case AdapterTarget => adapterCandidates.value
      case NoTarget => []
    }

    /** Replaces the target list, leaving every other list alone. */
    method SetList(t: Target, list: seq<FragmentId>)
      requires t.SlotTarget? ==> t.id in candidates
      modifies this
      ensures t.SlotTarget? ==> candidates == old(candidates)[t.id := list] && adapterCandidates == old(adapterCandidates)
      ensures t.AdapterTarget? ==> candidates == old(candidates) && adapterCandidates == Some(list)
      ensures t.NoTarget? ==> candidates == old(candidates) && adapterCandidates == old(adapterCandidates)
      ensures associatedSlots == old(associatedSlots) && scale == old(scale)
    {
      match t {
        case SlotTarget(id) => candidates := candidates[id := list];
        case AdapterTarget => adapterCandidates := Some(list);
        case NoTarget =>
      }
    }

    /** SlotAddCandidates(slot_id, fragments) */
    method SlotAddCandidates(slotId: Option<SlotId>, fragments: seq<FragmentId>)
      modifies this
      ensures var t := old(TargetOf(slotId));
        (t.SlotTarget? ==> candidates == old(candidates)[t.id := Added(old(candidates)[t.id], fragments)] &&
                           adapterCandidates == old(adapterCandidates)) &&
        (t.AdapterTarget? ==> candidates == old(candidates) &&
                              adapterCandidates == Some(Added(old(adapterCandidates).value, fragments))) &&
        (t.NoTarget? ==> candidates == old(candidates) && adapterCandidates == old(adapterCandidates))
      ensures associatedSlots == old(associatedSlots) && scale == old(scale)
    {
      var t := TargetOf(slotId);
      if t != NoTarget {
        var list := ListOf(t);
        ghost var start := list;
        for k := 0 to |fragments|
          invariant list == Added(start, fragments[..k])
        {
          var fragmentId := fragments[k];
          assert fragments[..k + 1][..k] == fragments[..k];
          if fragmentId in list {
            continue;
          }
          list := list + [fragmentId];
        }
        assert fragments[..|fragments|] == fragments;
        SetList(t, list);
      }
    }

    /** SlotRemoveCandidate(slot_id, fragment_id) */
    method SlotRemoveCandidate(slotId: Option<SlotId>, fragmentId: FragmentId)
      modifies this
      ensures var t := old(TargetOf(slotId));
        (t.SlotTarget? ==> candidates == old(candidates)[t.id := RemoveFirst(old(candidates)[t.id], fragmentId)] &&
                           adapterCandidates == old(adapterCandidates)) &&
        (t.AdapterTarget? ==> candidates == old(candidates) &&
                              adapterCandidates == Some(RemoveFirst(old(adapterCandidates).value, fragmentId))) &&
        (t.NoTarget? ==> candidates == old(candidates) && adapterCandidates == old(adapterCandidates))
      ensures associatedSlots == old(associatedSlots) && scale == old(scale)
    {
      var t := TargetOf(slotId);
      if t != NoTarget {
        var list := ListOf(t);
        var position := Position(list, fragmentId);
        if position.Some? {
          list := RemoveAt(list, position.value);
        }
        SetList(t, list);
      }
    }

    /** AssociatedSlotsConfirm(id): every slot's list is brought in line with
        the selection, then the selection is cleared. Without a fragment id
        nothing happens, not even the clearing. */
    method AssociatedSlotsConfirm(id: Option<FragmentId>)
      modifies this
      ensures id.None? ==> candidates == old(candidates) && associatedSlots == old(associatedSlots)
      ensures id.Some? ==> (associatedSlots == {} &&
        candidates == map k | k in old(candidates) :: Confirmed(old(candidates)[k], k in old(associatedSlots), id.value))
      ensures adapterCandidates == old(adapterCandidates) && scale == old(scale)
    {
      if id.Some? {
        candidates := ConfirmAll(candidates, associatedSlots, id.value);
        associatedSlots := {};
      }
    }

    /** ViewportZoomTo(scale): only scales strictly between 0.1 and 10 are taken. */
    method ViewportZoomTo(s: real)
      modifies this
      ensures scale == if 0.1 < s < 10.0 then s else old(scale)
      ensures 0.1 < old(scale) < 10.0 ==> 0.1 < scale < 10.0
      ensures candidates == old(candidates) && adapterCandidates == old(adapterCandidates)
      ensures associatedSlots == old(associatedSlots)
    {
      if s > 0.1 && s < 10.0 {
        scale := s;
      }
    }
  }
}
