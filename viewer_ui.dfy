/** The viewer's control panel logic (src/viewer/ui.rs): the index a slot's
    prev/next buttons select among its candidates (-1 meaning "no fragment"),
    the label shown for that index, and the doll and slot titles. */
module ViewerUi {
  import opened Prelude

  type FragmentId = nat

  // =====================================================================
  // Prev / next

  /** The ChevronLeft button: step back; below zero, a required slot and a
      step back from "no fragment" wrap around to the last candidate. */
  function PrevIndex(i: int, len: nat, required: bool): (j: int)
    ensures i - 1 >= 0 ==> j == i - 1
    ensures i - 1 < 0 && (required || i - 1 < -1) ==> j == len - 1
    ensures i == 0 && !required ==> j == -1
  {
    var j := i - 1;
    if j < 0 && (required || j < -1) then len - 1 else j
  }

  /** The ChevronRight button: step forward; past the last candidate, a
      required slot wraps to the first one and any other slot to "no fragment". */
  function NextIndex(i: int, len: nat, required: bool): (j: int)
    ensures i + 1 < len ==> j == i + 1
    ensures i + 1 >= len ==> j == (if required then 0 else -1)
  {
    var j := i + 1;
    if j >= len then (if required then 0 else -1) else j
  }

  /** The indices the buttons keep a slot within: a candidate or "no fragment". */
  predicate InRange(i: int, len: nat)
  {
    -1 <= i < len
  }

  /** Both buttons keep an optional slot's index in range. */
  lemma OptionalStaysInRange(i: int, len: nat)
    requires InRange(i, len)
    ensures InRange(PrevIndex(i, len, false), len) && InRange(NextIndex(i, len, false), len)
  {
  }

  /** A required slot with candidates always has one selected after a press. */
  lemma RequiredStaysSelected(i: int, len: nat)
    requires len >= 1 && InRange(i, len)
    ensures 0 <= PrevIndex(i, len, true) < len && 0 <= NextIndex(i, len, true) < len
  {
  }

  /** Prev undoes Next and Next undoes Prev on an optional slot. */
  lemma PrevNextInverse(i: int, len: nat)
    requires InRange(i, len)
    ensures PrevIndex(NextIndex(i, len, false), len, false) == i
    ensures NextIndex(PrevIndex(i, len, false), len, false) == i
  {
  }

  /** Prev undoes Next and Next undoes Prev on a required slot with candidates. */
  lemma PrevNextInverseRequired(i: int, len: nat)
    requires 0 <= i < len
    ensures PrevIndex(NextIndex(i, len, true), len, true) == i
    ensures NextIndex(PrevIndex(i, len, true), len, true) == i
  {
  }

  function NextTimes(i: int, len: nat, required: bool, n: nat): int
  {
    if n == 0 then i else NextIndex(NextTimes(i, len, required, n - 1), len, required)
  }

  lemma {:induction false} NextTimesFromNone(len: nat, n: nat)
    requires n <= len
    ensures NextTimes(-1, len, false, n) == n - 1
  {
    if n > 0 {
      NextTimesFromNone(len, n - 1);
    }
  }

  /** On an optional slot with len candidates, len + 1 presses of Next from
      "no fragment" visit every candidate once and come back to "no fragment". */
  lemma NextCycle(len: nat)
    ensures NextTimes(-1, len, false, len + 1) == -1
    ensures forall n :: 1 <= n <= len ==> NextTimes(-1, len, false, n) == n - 1
  {
    NextTimesFromNone(len, len);
    forall n | 1 <= n <= len ensures NextTimes(-1, len, false, n) == n - 1 {
      NextTimesFromNone(len, n);
    }
  }

  // =====================================================================
  // The label

  const IndexNotFound := "Error: index not found"
  const IndexNotValid := "Error: index is not valid"
  const FragmentRequired := "Error: fragment required"
  const FragmentNotFound := "Error: fragment not found"
  const NoFragment := "-"

  /** The label for the slot's entry in the index map, given the descriptions
      of the project's fragments. */
  function Label(entry: Option<int>, required: bool, candidates: seq<FragmentId>,
                 descs: map<FragmentId, string>): (l: string)
    ensures entry.None? ==> l == IndexNotFound
    ensures entry.Some? && entry.value < -1 ==> l == IndexNotValid
    ensures entry == Some(-1) ==> l == (if required then FragmentRequired else NoFragment)
    ensures entry.Some? && 0 <= entry.value < |candidates| && candidates[entry.value] in descs ==>
      l == (if descs[candidates[entry.value]] == "" then NoFragment else descs[candidates[entry.value]])
    ensures (entry.Some? && entry.value >= 0 &&
             (entry.value >= |candidates| || candidates[entry.value] !in descs)) ==> l == FragmentNotFound
  {
    match entry
    case None => IndexNotFound
    case Some(index) =>
      if index < -1 then IndexNotValid
      else if index == -1 then (if required then FragmentRequired else NoFragment)
      else if index < |candidates| && candidates[index] in descs then
        var desc := descs[candidates[index]];
        if desc == "" then NoFragment else desc
      else FragmentNotFound
  }

  /** A required slot whose candidates all exist never shows an error once
      the buttons have been pressed. */
  lemma RequiredLabelAfterPress(i: int, candidates: seq<FragmentId>, descs: map<FragmentId, string>, next: bool)
    requires |candidates| >= 1 && InRange(i, |candidates|)
    requires forall k :: 0 <= k < |candidates| ==> candidates[k] in descs
    ensures var j := if next then NextIndex(i, |candidates|, true) else PrevIndex(i, |candidates|, true);
      var l := Label(Some(j), true, candidates, descs);
      l == NoFragment || l == descs[candidates[j]]
  {
    RequiredStaysSelected(i, |candidates|);
  }

  // =====================================================================
  // Titles

  function DigitChar(d: nat): char
    requires d < 10
  {
    ('0' as int + d) as char
  }

  predicate IsDigit(c: char)
  {
    '0' <= c <= '9'
  }

  /** The decimal rendering of an id, as format! writes it. */
  function NatToString(n: nat): (s: string)
    ensures |s| >= 1 && forall k :: 0 <= k < |s| ==> IsDigit(s[k])
  {
    if n < 10 then [DigitChar(n)] else NatToString(n / 10) + [DigitChar(n % 10)]
  }

  function ParseDigits(s: string): nat
    requires forall k :: 0 <= k < |s| ==> IsDigit(s[k])
  {
    if s == [] then 0
    else
      assert IsDigit(s[|s| - 1]);
      ParseDigits(s[..|s| - 1]) * 10 + (s[|s| - 1] as int - '0' as int)
  }

  lemma {:induction false} ParseNatToString(n: nat)
    ensures ParseDigits(NatToString(n)) == n
  {
    var s := NatToString(n);
    if n >= 10 {
      ParseNatToString(n / 10);
      assert s[..|s| - 1] == NatToString(n / 10);
    }
  }

  /** The title of a doll or slot: its description, or "Unnamed <kind> - <id>"
      when the description is empty. */
  function Title(kind: string, desc: string, id: nat): (t: string)
    ensures desc != "" ==> t == desc
    ensures desc == "" ==> t == "Unnamed " + kind + " - " + NatToString(id)
  {
    if desc == "" then "Unnamed " + kind + " - " + NatToString(id) else desc
  }

  /** map_doll_title: an unnamed doll's title carries its id, readable back. */
  function MapDollTitle(desc: string, id: nat): (t: string)
    ensures desc != "" ==> t == desc
    ensures desc == "" ==> (|t| > 15 && t[..15] == "Unnamed Doll - " &&
      (forall k :: 15 <= k < |t| ==> IsDigit(t[k])) && ParseDigits(t[15..]) == id)
  {
    ParseNatToString(id);
    var t := Title("Doll", desc, id);
    assert desc == "" ==> t[15..] == NatToString(id);
    t
  }

  /** map_slot_title: an unnamed slot's title carries its id, readable back. */
  function MapSlotTitle(desc: string, id: nat): (t: string)
    ensures desc != "" ==> t == desc
    ensures desc == "" ==> (|t| > 15 && t[..15] == "Unnamed Slot - " &&
      (forall k :: 15 <= k < |t| ==> IsDigit(t[k])) && ParseDigits(t[15..]) == id)
  {
    ParseNatToString(id);
    var t := Title("Slot", desc, id);
    assert desc == "" ==> t[15..] == NatToString(id);
    t
  }

  /** Titles are never empty, and unnamed entries of one kind get distinct
      titles for distinct ids. */
  lemma TitlesDistinguishIds(kind: string, a: nat, b: nat)
    ensures Title(kind, "", a) != ""
    ensures Title(kind, "", a) == Title(kind, "", b) ==> a == b
  {
    var p := "Unnamed " + kind + " - ";
    if Title(kind, "", a) == Title(kind, "", b) {
      assert NatToString(a) == Title(kind, "", a)[|p|..];
      assert NatToString(b) == Title(kind, "", b)[|p|..];
      ParseNatToString(a);
      ParseNatToString(b);
    }
  }
}
