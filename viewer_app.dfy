/** The viewer application's selection state (src/viewer.rs,
    src/viewer/actions.rs, src/viewer/ui.rs): which fragment each slot shows,
    the index each slot's buttons point at, and the action queue between the
    control panel and the action handler. */
module ViewerApp {
  import opened Prelude
  import opened ViewerUi

  type SlotId = nat

  /** The parts of a loaded slot the viewer's bookkeeping reads. */
  datatype ViewerSlot = ViewerSlot(required: bool, candidates: seq<FragmentId>)

  /** A loaded project, reduced to its slots. */
  datatype Project = Project(slots: map<SlotId, ViewerSlot>)

  datatype Action = AppQuit | FileOpen | PpdChanged(ppd: Option<Project>) | SlotFragmentChanged(slotId: SlotId, index: int)

  datatype ViewerState = ViewerState(ppd: Option<Project>, activedDoll: nat,
                                     slotMap: map<SlotId, FragmentId>, slotIndexMap: map<SlotId, int>)

  /** The index a slot starts at on load: its first candidate when it is
      required and has one, "no fragment" otherwise. */
  function InitialIndex(s: ViewerSlot): int
  {
    if s.required && |s.candidates| > 0 then 0 else -1
  }

  function InitialIndexMap(p: Project): map<SlotId, int>
  {
    map id | id in p.slots :: InitialIndex(p.slots[id])
  }

  function InitialSlotMap(p: Project): map<SlotId, FragmentId>
  {
    map id | id in p.slots && p.slots[id].required && |p.slots[id].candidates| > 0 :: p.slots[id].candidates[0]
  }

  /** The slot map after SlotFragmentChanged(id, i): the slot shows candidate
      i when there is one, and nothing otherwise. */
  function ChangedSlotMap(p: Project, slotMap: map<SlotId, FragmentId>, id: SlotId, i: int): (m: map<SlotId, FragmentId>)
    ensures id in p.slots && 0 <= i < |p.slots[id].candidates| ==> m == slotMap[id := p.slots[id].candidates[i]]
    ensures !(id in p.slots && 0 <= i < |p.slots[id].candidates|) ==> m == slotMap - {id}
  {
    if i >= 0 && id in p.slots && i < |p.slots[id].candidates| then slotMap[id := p.slots[id].candidates[i]]
    else slotMap - {id}
  }

  /** The effect of one action on the state. Quitting and opening a file act
      outside the state (the loaded file comes back as a PpdChanged). */
  function Step(st: ViewerState, a: Action): ViewerState
  {
    match a
    case PpdChanged(None) => st.(ppd := None)
    case PpdChanged(Some(p)) => ViewerState(Some(p), 0, InitialSlotMap(p), InitialIndexMap(p))
    case SlotFragmentChanged(id, i) =>
      if st.ppd.Some? then st.(slotMap := ChangedSlotMap(st.ppd.value, st.slotMap, id, i)) else st
    case _ => st
  }

  function Run(st: ViewerState, actions: seq<Action>): ViewerState
    decreases |actions|
  {
    if actions == [] then st else Run(Step(st, actions[0]), actions[1..])
  }

  /** The slot map shows, for every slot with an index, exactly the candidate
      that index selects, and nothing for a slot whose index selects none. */
  predicate Consistent(st: ViewerState)
  {
    st.ppd.Some? ==>
      var p := st.ppd.value;
      st.slotMap.Keys <= st.slotIndexMap.Keys && st.slotIndexMap.Keys <= p.slots.Keys &&
      forall id :: id in st.slotIndexMap ==>
        var i, c := st.slotIndexMap[id], p.slots[id].candidates;
        if 0 <= i < |c| then id in st.slotMap && st.slotMap[id] == c[i] else id !in st.slotMap
  }

  /** A load clears out the old project's slots and leaves a consistent state
      in which a required slot with candidates shows its first one. */
  lemma LoadIsConsistent(st: ViewerState, p: Project)
    ensures var st' := Step(st, PpdChanged(Some(p)));
      Consistent(st') && st'.slotIndexMap.Keys == p.slots.Keys &&
      forall id :: id in p.slots ==>
        (id in st'.slotMap <==> p.slots[id].required && |p.slots[id].candidates| > 0)
  {
  }

  /** A button press, followed by the SlotFragmentChanged it queues, keeps the
      state consistent, whatever index the press chose. */
  lemma PressThenChangeConsistent(st: ViewerState, id: SlotId, j: int)
    requires Consistent(st) && st.ppd.Some? && id in st.ppd.value.slots && id in st.slotIndexMap
    ensures Consistent(Step(st.(slotIndexMap := st.slotIndexMap[id := j]), SlotFragmentChanged(id, j)))
  {
  }

  /** Unloading keeps the maps as they are. */
  lemma UnloadKeepsSelection(st: ViewerState)
    ensures var st' := Step(st, PpdChanged(None));
      st'.ppd == None && st'.slotMap == st.slotMap && st'.slotIndexMap == st.slotIndexMap && st'.activedDoll == st.activedDoll
  {
  }

  /** The loop of PpdChanged: from cleared maps, every slot is inserted
      with index -1, and a required slot with a candidate is then mapped to
      its first candidate at index 0. */
  method InitialMaps(p: Project) returns (slotIndexMap: map<SlotId, int>, slotMap: map<SlotId, FragmentId>)
    ensures slotIndexMap == InitialIndexMap(p) && slotMap == InitialSlotMap(p)
  {
    slotMap := map[];
    slotIndexMap := map[];
    var todo := p.slots.Keys;
    while todo != {}
      invariant todo <= p.slots.Keys
      invariant forall id :: id in slotIndexMap <==> id in p.slots && id !in todo
      invariant forall id :: id in slotIndexMap ==> slotIndexMap[id] == InitialIndex(p.slots[id])
      invariant forall id :: id in slotMap <==>
        id in p.slots && id !in todo && p.slots[id].required && |p.slots[id].candidates| > 0
      invariant forall id :: id in slotMap ==> slotMap[id] == p.slots[id].candidates[0]
      decreases |todo|
    {
      var id :| id in todo;
      var slot := p.slots[id];
      slotIndexMap := slotIndexMap[id := -1];
      if slot.required && |slot.candidates| > 0 {
        slotMap := slotMap[id := slot.candidates[0]];
        slotIndexMap := slotIndexMap[id := 0];
      }
      todo := todo - {id};
    }
    assert slotIndexMap == InitialIndexMap(p);
    assert slotMap == InitialSlotMap(p);
  }

  class Viewer {
    var ppd: Option<Project>
    var activedDoll: nat
    var slotMap: map<SlotId, FragmentId>
    var slotIndexMap: map<SlotId, int>
    var actions: seq<Action>

    function State(): ViewerState
      reads this
    {
      ViewerState(ppd, activedDoll, slotMap, slotIndexMap)
    }

    constructor ()
      ensures ppd == None && activedDoll == 0 && slotMap == map[] && slotIndexMap == map[] && actions == []
    {
      ppd := None;
      activedDoll := 0;
      slotMap := map[];
      slotIndexMap := map[];
      actions := [];
    }

    /** The ChevronLeft button of slot `id`. */
    method PressPrev(id: SlotId)
      modifies this
      ensures old(ppd.Some? && id in ppd.value.slots && id in slotIndexMap) ==>
        var s := old(ppd.value.slots[id]);
        var j := PrevIndex(old(slotIndexMap[id]), |s.candidates|, s.required);
        slotIndexMap == old(slotIndexMap)[id := j] && actions == old(actions) + [SlotFragmentChanged(id, j)]
      ensures !old(ppd.Some? && id in ppd.value.slots && id in slotIndexMap) ==>
        slotIndexMap == old(slotIndexMap) && actions == old(actions)
      ensures ppd == old(ppd) && activedDoll == old(activedDoll) && slotMap == old(slotMap)
    {
      if ppd.Some? && id in ppd.value.slots && id in slotIndexMap {
        var slot := ppd.value.slots[id];
        var currentIndex := slotIndexMap[id] - 1;
        if currentIndex < 0 {
          if slot.required || currentIndex < -1 {
            currentIndex := |slot.candidates| - 1;
          }
        }
        slotIndexMap := slotIndexMap[id := currentIndex];
        actions := actions + [SlotFragmentChanged(id, currentIndex)];
      }
    }

    /** The ChevronRight button of slot `id`. */
    method PressNext(id: SlotId)
      modifies this
      ensures old(ppd.Some? && id in ppd.value.slots && id in slotIndexMap) ==>
        var s := old(ppd.value.slots[id]);
        var j := NextIndex(old(slotIndexMap[id]), |s.candidates|, s.required);
        slotIndexMap == old(slotIndexMap)[id := j] && actions == old(actions) + [SlotFragmentChanged(id, j)]
      ensures !old(ppd.Some? && id in ppd.value.slots && id in slotIndexMap) ==>
        slotIndexMap == old(slotIndexMap) && actions == old(actions)
      ensures ppd == old(ppd) && activedDoll == old(activedDoll) && slotMap == old(slotMap)
    {
      if ppd.Some? && id in ppd.value.slots && id in slotIndexMap {
        var slot := ppd.value.slots[id];
        var currentIndex := slotIndexMap[id] + 1;
        if currentIndex >= |slot.candidates| {
          currentIndex := if slot.required then 0 else -1;
        }
        slotIndexMap := slotIndexMap[id := currentIndex];
        actions := actions + [SlotFragmentChanged(id, currentIndex)];
      }
    }

    /** PpdChanged: a new project resets the doll and rebuilds both maps slot
        by slot; no project only drops the current one. */
    method HandlePpdChanged(newPpd: Option<Project>)
      modifies this
      ensures State() == Step(old(State()), PpdChanged(newPpd)) && actions == old(actions)
    {
      if newPpd.None? {
        ppd := None;
        return;
      }
      var p := newPpd.value;
      activedDoll := 0;
      slotIndexMap, slotMap := InitialMaps(p);
      ppd := Some(p);
    }

    method HandleSlotFragmentChanged(slotId: SlotId, candidateIndex: int)
      modifies this
      ensures State() == Step(old(State()), SlotFragmentChanged(slotId, candidateIndex)) && actions == old(actions)
    {
      if ppd.Some? {
        var p := ppd.value;
        if candidateIndex >= 0 && slotId in p.slots && candidateIndex < |p.slots[slotId].candidates| {
          slotMap := slotMap[slotId := p.slots[slotId].candidates[candidateIndex]];
          return;
        }
        slotMap := slotMap - {slotId};
      }
    }

    /** handle_actions: drain the queue front to back. */
    method HandleActions()
      modifies this
      ensures actions == [] && State() == Run(old(State()), old(actions))
    {
      while actions != []
        invariant Run(State(), actions) == Run(old(State()), old(actions))
        decreases |actions|
      {
        var action := actions[0];
        actions := actions[1..];
        match action {
          case PpdChanged(p) => HandlePpdChanged(p);
          case SlotFragmentChanged(id, i) => HandleSlotFragmentChanged(id, i);
          case _ =>
        }
      }
    }
  }
}
