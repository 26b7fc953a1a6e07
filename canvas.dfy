/** The geometry rules of the slot editor canvas (src/editor/canvas.rs):
    the basis resolver `snap_in_doll`, and the per-frame steps of
    `ui_canvas` that turn a dragged handle or a dragged slot into new slot
    geometry: handle outcome, axis restriction, ratio lock, the snap gate,
    applying snap results, edge-fit, commit with rounding, multi-position
    sync and the anchor commit. Coordinates are screen coordinates unless a
    name says "doll" (doll-local, unscaled). */
module Canvas {
  import opened Prelude
  import opened Geometry
  import opened Snap
  import Seqs

  type SlotId = nat

  /** DragRestrict (its `None` variant is called Unrestricted here). */
  datatype DragRestrict = Unrestricted | Horizontal | Vertical

  /** RatioKeepOptions: which coordinate the ratio lock solves for. */
  datatype RatioKeepOptions = Idle | MinX | MinY | MaxX | MaxY

  /** The eight resize handles, at the corners and edge midpoints. */
  datatype Handle = TopLeft | Top | TopRight | Right | BottomRight | Bottom | BottomLeft | Left

  datatype Modifiers = Modifiers(alt: bool, ctrl: bool, shift: bool)

  /** The geometry fields of a slot that the canvas reads and writes. */
  datatype SlotGeometry = SlotGeometry(positions: seq<Pos>, width: nat, height: nat, anchor: Pos)

  // =====================================================================
  // Basis resolver (snap_in_doll)

  /** The screen rectangle of one slot position. */
  function PositionRect(dollMin: Pos, p: Pos, width: nat, height: nat, scale: real): Rect
  {
    var min := Add(dollMin, Mul(p, scale));
    Rect(min, Add(min, Mul(Pos(width as real, height as real), scale)))
  }

  function BasisRectOf(dollMin: Pos, s: SlotGeometry, i: nat, scale: real): Rect
    requires i < |s.positions|
  {
    PositionRect(dollMin, s.positions[i], s.width, s.height, scale)
  }

  /** Rectangles of the first n positions of basis slot `id`, without the edited pair. */
  function SlotBasisRects(dollMin: Pos, id: SlotId, s: SlotGeometry, editedId: SlotId, editedIndex: nat,
                          scale: real, n: nat): seq<Rect>
    requires n <= |s.positions|
  {
    if n == 0 then []
    else SlotBasisRects(dollMin, id, s, editedId, editedIndex, scale, n - 1) +
         (if id == editedId && n - 1 == editedIndex then [] else [BasisRectOf(dollMin, s, n - 1, scale)])
  }

  /** Rectangles of the basis slots `ids`, in iteration order; ids without a slot are skipped. */
  function BasisRectsFrom(dollMin: Pos, ids: seq<SlotId>, slots: map<SlotId, SlotGeometry>,
                          editedId: SlotId, editedIndex: nat, scale: real): seq<Rect>
  {
    if ids == [] then []
    else
      var id := ids[|ids| - 1];
      BasisRectsFrom(dollMin, ids[..|ids| - 1], slots, editedId, editedIndex, scale) +
      (if id in slots
       then SlotBasisRects(dollMin, id, slots[id], editedId, editedIndex, scale, |slots[id].positions|)
       else [])
  }

  /** What snap_in_doll hands to drag_snap: the doll rectangle, then the basis positions. */
  function BasisRects(dollRect: Rect, ids: seq<SlotId>, slots: map<SlotId, SlotGeometry>,
                      editedId: SlotId, editedIndex: nat, scale: real): seq<Rect>
  {
    [dollRect] + BasisRectsFrom(dollRect.min, ids, slots, editedId, editedIndex, scale)
  }

  /** Position i of slot b is a basis position for the edit of (editedId, editedIndex). */
  ghost predicate IsBasisPosition(ids: seq<SlotId>, slots: map<SlotId, SlotGeometry>,
                                  editedId: SlotId, editedIndex: nat, b: SlotId, i: nat)
  {
    b in ids && b in slots && i < |slots[b].positions| && !(b == editedId && i == editedIndex)
  }

  /** The basis rectangles built by nested loops, as snap_in_doll does. */
  method CollectBasisRects(dollRect: Rect, basisIds: seq<SlotId>, slots: map<SlotId, SlotGeometry>,
                           slotId: SlotId, slotPositionIndex: nat, scale: real)
    returns (basisRects: seq<Rect>)
    ensures basisRects == BasisRects(dollRect, basisIds, slots, slotId, slotPositionIndex, scale)
    ensures |basisRects| >= 1 && basisRects[0] == dollRect
  {
    basisRects := [dollRect];
    for b := 0 to |basisIds|
      invariant basisRects == [dollRect] + BasisRectsFrom(dollRect.min, basisIds[..b], slots, slotId, slotPositionIndex, scale)
    {
      var basisSlotId := basisIds[b];
      if basisSlotId in slots {
        var slot := slots[basisSlotId];
        ghost var before := basisRects;
        for positionIndex := 0 to |slot.positions|
          invariant basisRects == before + SlotBasisRects(dollRect.min, basisSlotId, slot, slotId, slotPositionIndex, scale, positionIndex)
        {
          if !(basisSlotId == slotId && positionIndex == slotPositionIndex) {
            basisRects := basisRects + [PositionRect(dollRect.min, slot.positions[positionIndex], slot.width, slot.height, scale)];
          }
        }
      }
      assert basisIds[..b + 1][..b] == basisIds[..b];
    }
    assert basisIds[..|basisIds|] == basisIds;
  }

  /** snap_in_doll: resolve the basis and run the snap engine on it. */
  method SnapInDoll(input: SnapInput, slotId: SlotId, slotPositionIndex: nat, dollRect: Rect,
                    alignBasisSlots: seq<SlotId>, slots: map<SlotId, SlotGeometry>, scale: real, tolerance: real)
    returns (output: SnapOutput)
    ensures output == DragSnapSpec(input, BasisRects(dollRect, alignBasisSlots, slots, slotId, slotPositionIndex, scale), tolerance)
  {
    var basisRects := CollectBasisRects(dollRect, alignBasisSlots, slots, slotId, slotPositionIndex, scale);
    output := DragSnap(input, basisRects, tolerance);
  }

  lemma {:induction false} SlotBasisRectsMembers(dollMin: Pos, id: SlotId, s: SlotGeometry, editedId: SlotId,
                                                 editedIndex: nat, scale: real, n: nat, r: Rect)
    requires n <= |s.positions|
    ensures r in SlotBasisRects(dollMin, id, s, editedId, editedIndex, scale, n) <==>
      exists i :: 0 <= i < n && !(id == editedId && i == editedIndex) && r == BasisRectOf(dollMin, s, i, scale)
  {
    if n > 0 {
      SlotBasisRectsMembers(dollMin, id, s, editedId, editedIndex, scale, n - 1, r);
    }
  }

  /** The basis holds exactly the rectangles of basis positions other than the edited one. */
  lemma {:induction false} BasisRectsMembers(dollMin: Pos, ids: seq<SlotId>, slots: map<SlotId, SlotGeometry>,
                                             editedId: SlotId, editedIndex: nat, scale: real, r: Rect)
    ensures r in BasisRectsFrom(dollMin, ids, slots, editedId, editedIndex, scale) <==>
      exists b, i :: IsBasisPosition(ids, slots, editedId, editedIndex, b, i) &&
                     r == BasisRectOf(dollMin, slots[b], i, scale)
  {
    if ids != [] {
      var n := |ids| - 1;
      var id := ids[n];
      var pre := ids[..n];
      assert ids == pre + [id];
      BasisRectsMembers(dollMin, pre, slots, editedId, editedIndex, scale, r);
      if id in slots {
        SlotBasisRectsMembers(dollMin, id, slots[id], editedId, editedIndex, scale, |slots[id].positions|, r);
      }
      if r in BasisRectsFrom(dollMin, ids, slots, editedId, editedIndex, scale) {
        if r in BasisRectsFrom(dollMin, pre, slots, editedId, editedIndex, scale) {
          var b, i :| IsBasisPosition(pre, slots, editedId, editedIndex, b, i) && r == BasisRectOf(dollMin, slots[b], i, scale);
          assert IsBasisPosition(ids, slots, editedId, editedIndex, b, i);
        } else {
          var i :| 0 <= i < |slots[id].positions| && !(id == editedId && i == editedIndex) && r == BasisRectOf(dollMin, slots[id], i, scale);
          assert IsBasisPosition(ids, slots, editedId, editedIndex, id, i);
        }
      }
      if exists b, i :: IsBasisPosition(ids, slots, editedId, editedIndex, b, i) && r == BasisRectOf(dollMin, slots[b], i, scale) {
        var b, i :| IsBasisPosition(ids, slots, editedId, editedIndex, b, i) && r == BasisRectOf(dollMin, slots[b], i, scale);
        if b in pre {
          assert IsBasisPosition(pre, slots, editedId, editedIndex, b, i);
        } else {
          assert b == id;
        }
      }
    }
  }

  /** Number of positions of the basis slots that exist. */
  function TotalPositions(ids: seq<SlotId>, slots: map<SlotId, SlotGeometry>): nat
  {
    if ids == [] then 0
    else TotalPositions(ids[..|ids| - 1], slots) +
         (if ids[|ids| - 1] in slots then |slots[ids[|ids| - 1]].positions| else 0)
  }

  lemma {:induction false} SlotBasisRectsCount(dollMin: Pos, id: SlotId, s: SlotGeometry, editedId: SlotId,
                                               editedIndex: nat, scale: real, n: nat)
    requires n <= |s.positions|
    ensures |SlotBasisRects(dollMin, id, s, editedId, editedIndex, scale, n)| ==
            n - (if id == editedId && editedIndex < n then 1 else 0)
  {
    if n > 0 {
      SlotBasisRectsCount(dollMin, id, s, editedId, editedIndex, scale, n - 1);
    }
  }

  /** Exactly one position is skipped: the edited one, when it is a basis position at all. */
  lemma {:induction false} BasisRectsCount(dollRect: Rect, ids: seq<SlotId>, slots: map<SlotId, SlotGeometry>,
                                           editedId: SlotId, editedIndex: nat, scale: real)
    requires Seqs.Distinct(ids)
    ensures |BasisRects(dollRect, ids, slots, editedId, editedIndex, scale)| ==
            1 + TotalPositions(ids, slots) -
            (if editedId in ids && editedId in slots && editedIndex < |slots[editedId].positions| then 1 else 0)
  {
    BasisRectsFromCount(dollRect.min, ids, slots, editedId, editedIndex, scale);
  }

  lemma {:induction false} BasisRectsFromCount(dollMin: Pos, ids: seq<SlotId>, slots: map<SlotId, SlotGeometry>,
                                               editedId: SlotId, editedIndex: nat, scale: real)
    requires Seqs.Distinct(ids)
    ensures |BasisRectsFrom(dollMin, ids, slots, editedId, editedIndex, scale)| ==
            TotalPositions(ids, slots) -
            (if editedId in ids && editedId in slots && editedIndex < |slots[editedId].positions| then 1 else 0)
  {
    if ids != [] {
      var n := |ids| - 1;
      var id := ids[n];
      var pre := ids[..n];
      assert ids == pre + [id];
      assert Seqs.Distinct(pre);
      assert id !in pre;
      BasisRectsFromCount(dollMin, pre, slots, editedId, editedIndex, scale);
      if id in slots {
        SlotBasisRectsCount(dollMin, id, slots[id], editedId, editedIndex, scale, |slots[id].positions|);
      }
    }
  }

  // =====================================================================
  // Resize handles (the control_point callbacks)

  predicate MovesMinX(h: Handle) { h == TopLeft || h == BottomLeft || h == Left }
  predicate MovesMinY(h: Handle) { h == TopLeft || h == Top || h == TopRight }
  predicate MovesMaxX(h: Handle) { h == TopRight || h == Right || h == BottomRight }
  predicate MovesMaxY(h: Handle) { h == BottomRight || h == Bottom || h == BottomLeft }

  /** The rectangle, snap request and ratio option a dragged handle leaves behind. */
  datatype HandleOutcome = HandleOutcome(rect: Rect, input: SnapInput, ratio: RatioKeepOptions)

  /** What the callback of a dragged handle does with the pointer position `pos`:
      it moves the edges the handle owns to the pointer, asks for snapping of
      the moved corner on exactly the axes it moved, and, under ctrl, picks
      the coordinate the ratio lock solves for. */
  function DragHandle(h: Handle, pos: Pos, r: Rect, half: Pos, ctrl: bool, input: SnapInput,
                      ratio: RatioKeepOptions): (o: HandleOutcome)
    ensures o.rect.min.x == (if MovesMinX(h) then pos.x else r.min.x)
    ensures o.rect.min.y == (if MovesMinY(h) then pos.y else r.min.y)
    ensures o.rect.max.x == (if MovesMaxX(h) then pos.x else r.max.x)
    ensures o.rect.max.y == (if MovesMaxY(h) then pos.y else r.max.y)
    ensures MovesMinX(h) || MovesMinY(h) ==>
      o.input.min.point == o.rect.min &&
      (Snaps(o.input.min.mode, AxisX) <==> MovesMinX(h)) && (Snaps(o.input.min.mode, AxisY) <==> MovesMinY(h))
    ensures !(MovesMinX(h) || MovesMinY(h)) ==> o.input.min == input.min
    ensures MovesMaxX(h) || MovesMaxY(h) ==>
      o.input.max.point == o.rect.max &&
      (Snaps(o.input.max.mode, AxisX) <==> MovesMaxX(h)) && (Snaps(o.input.max.mode, AxisY) <==> MovesMaxY(h))
    ensures !(MovesMaxX(h) || MovesMaxY(h)) ==> o.input.max == input.max
    ensures Snaps(o.input.center.mode, AxisX) <==> MovesMinX(h) || MovesMaxX(h)
    ensures Snaps(o.input.center.mode, AxisY) <==> MovesMinY(h) || MovesMaxY(h)
    ensures o.input.anchor == input.anchor
    ensures o.input.center.point == if h == BottomRight || h == Bottom then Sub(o.rect.max, half) else Add(o.rect.min, half)
    ensures ctrl ==> o.ratio == (if h == TopLeft then MinY else if h == Right || h == BottomLeft || h == Left then MaxY else MaxX)
    ensures !ctrl ==> o.ratio == ratio
  {
    match h
    case TopLeft =>
      var min := pos;
      HandleOutcome(Rect(min, r.max),
        input.(min := Candidate(min, Both), center := Candidate(Add(min, half), Both)),
        if ctrl then MinY else ratio)
    case Top =>
      var min := Pos(r.min.x, pos.y);
      HandleOutcome(Rect(min, r.max),
        input.(min := Candidate(min, Y), center := Candidate(Add(min, half), Y)),
        if ctrl then MaxX else ratio)
    case TopRight =>
      var min := Pos(r.min.x, pos.y);
      var max := Pos(pos.x, r.max.y);
      HandleOutcome(Rect(min, max),
        input.(min := Candidate(min, Y), max := Candidate(max, X), center := Candidate(Add(min, half), Both)),
        if ctrl then MaxX else ratio)
    case Right =>
      var max := Pos(pos.x, r.max.y);
      HandleOutcome(Rect(r.min, max),
        input.(max := Candidate(max, X), center := Candidate(Add(r.min, half), X)),
        if ctrl then MaxY else ratio)
    case BottomRight =>
      var max := pos;
      HandleOutcome(Rect(r.min, max),
        input.(max := Candidate(max, Both), center := Candidate(Sub(max, half), Both)),
        if ctrl then MaxX else ratio)
    case Bottom =>
      var max := Pos(r.max.x, pos.y);
      HandleOutcome(Rect(r.min, max),
        input.(max := Candidate(max, Y), center := Candidate(Sub(max, half), Y)),
        if ctrl then MaxX else ratio)
    case BottomLeft =>
      var min := Pos(pos.x, r.min.y);
      var max := Pos(r.max.x, pos.y);
      HandleOutcome(Rect(min, max),
        input.(min := Candidate(min, X), max := Candidate(max, Y), center := Candidate(Add(min, half), Both)),
        if ctrl then MaxY else ratio)
    case Left =>
      var min := Pos(pos.x, r.min.y);
      HandleOutcome(Rect(min, r.max),
        input.(min := Candidate(min, X), center := Candidate(Add(min, half), X)),
        if ctrl then MaxY else ratio)
  }

  // =====================================================================
  // Whole-slot move and its axis restriction

  /** The pointer's displacement since drag start, in doll units: the pointer
      in doll coordinates minus the drag-start position minus the remembered
      pointer-to-position offset. */
  function GestureOffset(global: Pos, dollMin: Pos, scale: real, origin: Pos, offset: Pos): Pos
    requires scale != 0.0
  {
    Sub(Sub(Div(Sub(global, dollMin), scale), origin), offset)
  }

  /** The restriction chosen under ctrl during a move: Horizontal exactly when
      the horizontal displacement dominates, Vertical otherwise (ties too). */
  function Restriction(ctrl: bool, global: Pos, dollMin: Pos, scale: real, origin: Pos, offset: Pos): (d: DragRestrict)
    requires scale != 0.0
    ensures !ctrl ==> d == Unrestricted
    ensures ctrl ==> d != Unrestricted
    ensures ctrl ==> (d == Horizontal <==>
      Abs(GestureOffset(global, dollMin, scale, origin, offset).x) > Abs(GestureOffset(global, dollMin, scale, origin, offset).y))
  {
    if ctrl then
      var o := GestureOffset(global, dollMin, scale, origin, offset);
      if Abs(o.x) > Abs(o.y) then Horizontal else Vertical
    else Unrestricted
  }

  /** The offset remembered when the drag starts with the pointer at `start`. */
  function DragStartOffset(start: Pos, dollMin: Pos, scale: real, origin: Pos): Pos
    requires scale != 0.0
  {
    Sub(Div(Sub(start, dollMin), scale), origin)
  }

  /** The restriction is measured from the drag-start pointer position, not
      from the previous frame: Horizontal exactly when the pointer has moved
      further horizontally than vertically since the drag began. */
  lemma RestrictionFromDragStart(global: Pos, start: Pos, dollMin: Pos, scale: real, origin: Pos)
    requires scale > 0.0
    ensures Restriction(true, global, dollMin, scale, origin, DragStartOffset(start, dollMin, scale, origin)) == Horizontal
            <==> Abs(global.x - start.x) > Abs(global.y - start.y)
  {
    var o := GestureOffset(global, dollMin, scale, origin, DragStartOffset(start, dollMin, scale, origin));
    assert o.x == (global.x - start.x) / scale;
    assert o.y == (global.y - start.y) / scale;
    AbsDivMonotone(global.x - start.x, global.y - start.y, scale);
  }

  lemma AbsDivMonotone(a: real, b: real, s: real)
    requires s > 0.0
    ensures Abs(a / s) > Abs(b / s) <==> Abs(a) > Abs(b)
  {
    assert Abs(a / s) == Abs(a) / s;
    assert Abs(b / s) == Abs(b) / s;
    var q := Abs(a) / s - Abs(b) / s;
    assert q * s == Abs(a) - Abs(b);
    if q > 0.0 { assert q * s > 0.0; }
    if q <= 0.0 { assert q * s <= 0.0; }
  }

  /** The rectangle and snap request of a whole-slot move: the rectangle is
      translated so that the pointer keeps its drag-start offset to the
      top-left corner, and every candidate snaps on both axes. */
  function MoveOutcome(global: Pos, r: Rect, half: Pos, offset: Pos, scale: real, input: SnapInput,
                       ratio: RatioKeepOptions): (o: HandleOutcome)
    ensures o.rect.min == Sub(global, Mul(offset, scale))
    ensures Width(o.rect) == Width(r) && Height(o.rect) == Height(r)
    ensures o.input.min == Candidate(o.rect.min, Both) && o.input.max == Candidate(o.rect.max, Both)
    ensures o.input.center == Candidate(Add(o.rect.min, half), Both) && o.input.anchor == input.anchor
    ensures o.ratio == ratio
  {
    var delta := Sub(Sub(global, r.min), Mul(offset, scale));
    var min := Add(r.min, delta);
    var max := Add(r.max, delta);
    HandleOutcome(Rect(min, max),
      input.(min := Candidate(min, Both), max := Candidate(max, Both), center := Candidate(Add(min, half), Both)),
      ratio)
  }

  // =====================================================================
  // Ratio lock

  /** The rectangle's width over its height is the aspect ratio. */
  predicate HasAspectRatio(k: Rect, aspectRatio: real)
  {
    Width(k) == aspectRatio * Height(k)
  }

  /** Keeps the aspect ratio by solving one coordinate: MinY solves min.y from
      the width, MaxX solves max.x from the height, MaxY solves max.y from the
      width. Afterwards width == ratio * height. */
  function KeepRatio(opt: RatioKeepOptions, r: Rect, aspectRatio: real): (k: Rect)
    requires aspectRatio > 0.0
    ensures opt == Idle || opt == MinX ==> k == r
    ensures opt == MinY ==> k.max == r.max && k.min.x == r.min.x
    ensures opt == MaxX ==> k.min == r.min && k.max.y == r.max.y
    ensures opt == MaxY ==> k.min == r.min && k.max.x == r.max.x
    ensures opt != Idle && opt != MinX ==> HasAspectRatio(k, aspectRatio)
  {
    match opt
    case MinY => Rect(Pos(r.min.x, r.max.y - (r.max.x - r.min.x) / aspectRatio), r.max)
    case MaxX => Rect(r.min, Pos((r.max.y - r.min.y) * aspectRatio + r.min.x, r.max.y))
    case MaxY => Rect(r.min, Pos(r.max.x, (r.max.x - r.min.x) / aspectRatio + r.min.y))
    case _ => r
  }

  // =====================================================================
  // Applying snap results and the edge-fit correction

  /** Applies snap results per axis, except on the restricted axis: a snapped
      min or max replaces that edge, and a snapped center overrides both edges
      of its axis, keeping the half size around it. */
  function ApplySnapOutput(r: Rect, half: Pos, out: SnapOutput, restrict: DragRestrict): (k: Rect)
    ensures restrict == Vertical ==> k.min.x == r.min.x && k.max.x == r.max.x
    ensures restrict == Horizontal ==> k.min.y == r.min.y && k.max.y == r.max.y
    ensures restrict != Vertical ==>
      k.min.x == (if out.center.x.Some? then out.center.x.value - half.x
                  else if out.min.x.Some? then out.min.x.value else r.min.x) &&
      k.max.x == (if out.center.x.Some? then out.center.x.value + half.x
                  else if out.max.x.Some? then out.max.x.value else r.max.x)
    ensures restrict != Horizontal ==>
      k.min.y == (if out.center.y.Some? then out.center.y.value - half.y
                  else if out.min.y.Some? then out.min.y.value else r.min.y) &&
      k.max.y == (if out.center.y.Some? then out.center.y.value + half.y
                  else if out.max.y.Some? then out.max.y.value else r.max.y)
  {
    var min, max := r.min, r.max;
    var (minX, maxX) :=
      if restrict != Vertical then
        var x1 := if out.min.x.Some? then out.min.x.value else min.x;
        var x2 := if out.max.x.Some? then out.max.x.value else max.x;
        if out.center.x.Some? then (out.center.x.value - half.x, out.center.x.value + half.x) else (x1, x2)
      else (min.x, max.x);
    var (minY, maxY) :=
      if restrict != Horizontal then
        var y1 := if out.min.y.Some? then out.min.y.value else min.y;
        var y2 := if out.max.y.Some? then out.max.y.value else max.y;
        if out.center.y.Some? then (out.center.y.value - half.y, out.center.y.value + half.y) else (y1, y2)
      else (min.y, max.y);
    Rect(Pos(minX, minY), Pos(maxX, maxY))
  }

  /** One axis of the edge-fit: when the span no longer equals `size`, the
      non-snapped edge is re-derived from the snapped one; when both snapped,
      the edge nearer the cursor is kept. */
  function FitAxis(lo: real, hi: real, size: real, loSnapped: bool, hiSnapped: bool, nearMin: bool): (r: (real, real))
    ensures loSnapped || hiSnapped ==> r.1 - r.0 == size
    ensures !loSnapped && !hiSnapped ==> r == (lo, hi)
    ensures (loSnapped && !hiSnapped) || (loSnapped && hiSnapped && nearMin) ==> r.0 == lo
    ensures (hiSnapped && !loSnapped) || (loSnapped && hiSnapped && !nearMin) ==> r.1 == hi
  {
    if hi - lo == size then (lo, hi)
    else if hiSnapped && loSnapped then (if nearMin then (lo, lo + size) else (hi - size, hi))
    else if hiSnapped then (hi - size, hi)
    else if loSnapped then (lo, lo + size)
    else (lo, hi)
  }

  /** The edge-fit correction, run only while the whole slot is dragged
      (`pointer` is the drag pointer) and never on the restricted axis. */
  function EdgeFit(r: Rect, width: real, height: real, out: SnapOutput, restrict: DragRestrict, pointer: Option<Pos>): (k: Rect)
    ensures pointer.None? ==> k == r
    ensures restrict == Vertical || (out.min.x.None? && out.max.x.None?) ==> k.min.x == r.min.x && k.max.x == r.max.x
    ensures restrict == Horizontal || (out.min.y.None? && out.max.y.None?) ==> k.min.y == r.min.y && k.max.y == r.max.y
    ensures pointer.Some? && restrict != Vertical && (out.min.x.Some? || out.max.x.Some?) ==> Width(k) == width
    ensures pointer.Some? && restrict != Horizontal && (out.min.y.Some? || out.max.y.Some?) ==> Height(k) == height
    ensures pointer.Some? && restrict != Vertical ==>
      var nearMin := DistanceSquared(pointer.value, r.min) < DistanceSquared(pointer.value, r.max);
      var lo, hi := out.min.x.Some?, out.max.x.Some?;
      ((lo && !hi) || (lo && hi && nearMin) ==> k.min.x == r.min.x) &&
      ((hi && !lo) || (lo && hi && !nearMin) ==> k.max.x == r.max.x)
    ensures pointer.Some? && restrict != Horizontal ==>
      var nearMin := DistanceSquared(pointer.value, r.min) < DistanceSquared(pointer.value, r.max);
      var lo, hi := out.min.y.Some?, out.max.y.Some?;
      ((lo && !hi) || (lo && hi && nearMin) ==> k.min.y == r.min.y) &&
      ((hi && !lo) || (lo && hi && !nearMin) ==> k.max.y == r.max.y)
  {
    match pointer
    case None => r
    case Some(p) =>
      var nearMin := DistanceSquared(p, r.min) < DistanceSquared(p, r.max);
      var (x1, x2) := if restrict != Vertical
        then FitAxis(r.min.x, r.max.x, width, out.min.x.Some?, out.max.x.Some?, nearMin)
        else (r.min.x, r.max.x);
      var (y1, y2) := if restrict != Horizontal
        then FitAxis(r.min.y, r.max.y, height, out.min.y.Some?, out.max.y.Some?, nearMin)
        else (r.min.y, r.max.y);
      Rect(Pos(x1, y1), Pos(x2, y2))
  }

  // =====================================================================
  // One frame of an edit: the composition of the steps above

  /** canvas_original_pos_slot_and_drag_offset: the slot's positions at drag
      start and the pointer's offset from the dragged position, in doll units. */
  datatype SlotDragMemo = SlotDragMemo(origins: seq<Pos>, offset: Pos)

  /** What is being dragged this frame: the slot body (with the pointer, if
      the pointer has a position) or one resize handle (with the pointer). */
  datatype Drag = Move(pointer: Option<Pos>) | Resize(handle: Handle, pos: Pos)

  /** Everything snap_in_doll needs besides the snap request. */
  datatype Basis = Basis(dollRect: Rect, ids: seq<SlotId>, slots: map<SlotId, SlotGeometry>,
                         slotId: SlotId, index: nat, scale: real, tolerance: real)

  function SnapIn(input: SnapInput, b: Basis): SnapOutput
  {
    DragSnapSpec(input, BasisRects(b.dollRect, b.ids, b.slots, b.slotId, b.index, b.scale), b.tolerance)
  }

  /** slot_rect.size() * 0.5 */
  function Half(r: Rect): Pos
  {
    Mul(Pos(Width(r), Height(r)), 0.5)
  }

  /** The edit state between the drag step and the snap step. */
  datatype FrameState = FrameState(rect: Rect, input: SnapInput, ratio: RatioKeepOptions,
                                   restrict: DragRestrict, dragPoint: Option<Pos>)

  predicate MemoFits(memo: Option<SlotDragMemo>, index: nat)
  {
    memo.Some? ==> index < |memo.value.origins|
  }

  /** The drag step: moving or resizing, the restriction and the ratio lock. */
  function RawFrame(drag: Drag, r: Rect, ctrl: bool, input: SnapInput, ratio: RatioKeepOptions,
                    aspectRatio: real, memo: Option<SlotDragMemo>, b: Basis): (f: FrameState)
    requires b.scale != 0.0 && aspectRatio > 0.0 && MemoFits(memo, b.index)
    ensures drag.Move? ==> f.dragPoint == drag.pointer && f.ratio == ratio
    ensures drag.Move? && drag.pointer.Some? && memo.Some? ==>
      f.rect.min == Sub(drag.pointer.value, Mul(memo.value.offset, b.scale)) &&
      Width(f.rect) == Width(r) && Height(f.rect) == Height(r)
    ensures drag.Resize? ==> f.dragPoint == None && f.restrict == Unrestricted
    ensures drag.Resize? && ctrl ==> f.ratio != Idle && HasAspectRatio(f.rect, aspectRatio)
    ensures !ctrl ==> f.restrict == Unrestricted
  {
    match drag
    case Move(pointer) => MoveFrame(pointer, r, ctrl, input, ratio, memo, b)
    case Resize(h, pos) => ResizeFrame(h, pos, r, ctrl, input, ratio, aspectRatio)
  }

  /** Moving the whole slot: the slot follows the pointer at the grab offset,
      and under ctrl one axis is locked. */
  function MoveFrame(pointer: Option<Pos>, r: Rect, ctrl: bool, input: SnapInput, ratio: RatioKeepOptions,
                     memo: Option<SlotDragMemo>, b: Basis): (f: FrameState)
    requires b.scale != 0.0 && MemoFits(memo, b.index)
    ensures f.dragPoint == pointer && f.ratio == ratio
    ensures pointer.Some? && memo.Some? ==>
      f.rect.min == Sub(pointer.value, Mul(memo.value.offset, b.scale)) &&
      Width(f.rect) == Width(r) && Height(f.rect) == Height(r)
    ensures !ctrl ==> f.restrict == Unrestricted
  {
    if pointer.Some? && memo.Some? then
      var m := memo.value;
      var o := MoveOutcome(pointer.value, r, Half(r), m.offset, b.scale, input, ratio);
      FrameState(o.rect, o.input, o.ratio,
                 Restriction(ctrl, pointer.value, b.dollRect.min, b.scale, m.origins[b.index], m.offset), pointer)
    else FrameState(r, input, ratio, Unrestricted, pointer)
  }

  /** Dragging a handle: the handle's callback, then the ratio lock; under
      ctrl the result always has the slot's aspect ratio. */
  function ResizeFrame(h: Handle, pos: Pos, r: Rect, ctrl: bool, input: SnapInput, ratio: RatioKeepOptions,
                       aspectRatio: real): (f: FrameState)
    requires aspectRatio > 0.0
    ensures f.dragPoint == None && f.restrict == Unrestricted
    ensures ctrl ==> f.ratio != Idle && HasAspectRatio(f.rect, aspectRatio)
    ensures !ctrl ==> f.ratio == ratio
  {
    var o := DragHandle(h, pos, r, Half(r), ctrl, input, ratio);
    FrameState(KeepRatio(o.ratio, o.rect, aspectRatio), o.input, o.ratio, Unrestricted, None)
  }

  /** The snap step, taken only when alt is not held and the ratio lock is idle. */
  function SnapFrame(f: FrameState, r: Rect, alt: bool, b: Basis): Rect
  {
    if !alt && f.ratio == Idle then
      var out := SnapIn(f.input, b);
      EdgeFit(ApplySnapOutput(f.rect, Half(r), out, f.restrict), Width(r), Height(r), out, f.restrict, f.dragPoint)
    else f.rect
  }

  /** The slot rectangle at the end of the frame's edit (before commit). */
  function FrameRect(drag: Drag, r: Rect, m: Modifiers, input: SnapInput, ratio: RatioKeepOptions,
                     aspectRatio: real, memo: Option<SlotDragMemo>, b: Basis): Rect
    requires b.scale != 0.0 && aspectRatio > 0.0 && MemoFits(memo, b.index)
  {
    SnapFrame(RawFrame(drag, r, m.ctrl, input, ratio, aspectRatio, memo, b), r, m.alt, b)
  }

  /** With alt held, or with the ratio lock engaged, the basis plays no part:
      the frame's rectangle is the one the drag step produced. */
  lemma NoSnapWhenGated(drag: Drag, r: Rect, m: Modifiers, input: SnapInput, ratio: RatioKeepOptions,
                        aspectRatio: real, memo: Option<SlotDragMemo>, b: Basis)
    requires b.scale != 0.0 && aspectRatio > 0.0 && MemoFits(memo, b.index)
    requires m.alt || RawFrame(drag, r, m.ctrl, input, ratio, aspectRatio, memo, b).ratio != Idle
    ensures FrameRect(drag, r, m, input, ratio, aspectRatio, memo, b) ==
            RawFrame(drag, r, m.ctrl, input, ratio, aspectRatio, memo, b).rect
  {
  }

  /** A resize with ctrl held keeps the slot's aspect ratio and is never snapped:
      its outcome is the same against any basis. */
  lemma RatioLockedResize(h: Handle, pos: Pos, r: Rect, m: Modifiers, input: SnapInput, ratio: RatioKeepOptions,
                          aspectRatio: real, memo: Option<SlotDragMemo>, b1: Basis, b2: Basis)
    requires b1.scale != 0.0 && aspectRatio > 0.0 && MemoFits(memo, b1.index)
    requires b2.scale != 0.0 && MemoFits(memo, b2.index)
    requires m.ctrl
    ensures var k := FrameRect(Resize(h, pos), r, m, input, ratio, aspectRatio, memo, b1);
      HasAspectRatio(k, aspectRatio) &&
      k == FrameRect(Resize(h, pos), r, m, input, ratio, aspectRatio, memo, b2)
  {
    ResizeIgnoresBasis(h, pos, r, m, input, ratio, aspectRatio, memo, b1);
    ResizeIgnoresBasis(h, pos, r, m, input, ratio, aspectRatio, memo, b2);
  }

  /** Under ctrl, a resize frame ends with the ratio-locked handle drag. */
  lemma ResizeIgnoresBasis(h: Handle, pos: Pos, r: Rect, m: Modifiers, input: SnapInput, ratio: RatioKeepOptions,
                           aspectRatio: real, memo: Option<SlotDragMemo>, b: Basis)
    requires b.scale != 0.0 && aspectRatio > 0.0 && MemoFits(memo, b.index)
    requires m.ctrl
    ensures FrameRect(Resize(h, pos), r, m, input, ratio, aspectRatio, memo, b) ==
            ResizeFrame(h, pos, r, m.ctrl, input, ratio, aspectRatio).rect
  {
    assert RawFrame(Resize(h, pos), r, m.ctrl, input, ratio, aspectRatio, memo, b) ==
           ResizeFrame(h, pos, r, m.ctrl, input, ratio, aspectRatio);
    NoSnapWhenGated(Resize(h, pos), r, m, input, ratio, aspectRatio, memo, b);
  }

  /** Moving a slot never changes its size: center snaps keep the half size
      around the center, and a snapped edge is followed by the edge-fit. */
  lemma MoveKeepsSize(pointer: Pos, r: Rect, m: Modifiers, input: SnapInput, ratio: RatioKeepOptions,
                      aspectRatio: real, memo: SlotDragMemo, b: Basis)
    requires b.scale != 0.0 && aspectRatio > 0.0 && b.index < |memo.origins|
    ensures var k := FrameRect(Move(Some(pointer)), r, m, input, ratio, aspectRatio, Some(memo), b);
      Width(k) == Width(r) && Height(k) == Height(r)
  {
    var f := RawFrame(Move(Some(pointer)), r, m.ctrl, input, ratio, aspectRatio, Some(memo), b);
    assert Width(f.rect) == Width(r) && Height(f.rect) == Height(r);
    if !m.alt && f.ratio == Idle {
      var out := SnapIn(f.input, b);
      var a := ApplySnapOutput(f.rect, Half(r), out, f.restrict);
      assert f.restrict != Vertical && out.center.x.Some? ==> Width(a) == Width(r);
      assert f.restrict != Horizontal && out.center.y.Some? ==> Height(a) == Height(r);
    }
  }

  /** Under a ctrl restriction the locked axis follows the pointer only: no
      snap result and no edge-fit moves it. */
  lemma RestrictedAxisFollowsPointer(pointer: Pos, r: Rect, m: Modifiers, input: SnapInput, ratio: RatioKeepOptions,
                                     aspectRatio: real, memo: SlotDragMemo, b: Basis)
    requires b.scale != 0.0 && aspectRatio > 0.0 && b.index < |memo.origins|
    ensures var f := RawFrame(Move(Some(pointer)), r, m.ctrl, input, ratio, aspectRatio, Some(memo), b);
      var k := FrameRect(Move(Some(pointer)), r, m, input, ratio, aspectRatio, Some(memo), b);
      (f.restrict == Vertical ==> k.min.x == pointer.x - memo.offset.x * b.scale && Width(k) == Width(r)) &&
      (f.restrict == Horizontal ==> k.min.y == pointer.y - memo.offset.y * b.scale && Height(k) == Height(r))
  {
    var f := RawFrame(Move(Some(pointer)), r, m.ctrl, input, ratio, aspectRatio, Some(memo), b);
    var p := Sub(pointer, Mul(memo.offset, b.scale));
    assert p.x == pointer.x - memo.offset.x * b.scale && p.y == pointer.y - memo.offset.y * b.scale;
    LockedAxisAfterSnap(f, r, m.alt, b, p);
  }

  /** A frame whose rectangle has the slot's size and corner p keeps, through
      the snap step, that corner's coordinate and the size on a locked axis. */
  lemma LockedAxisAfterSnap(f: FrameState, r: Rect, alt: bool, b: Basis, p: Pos)
    requires f.rect.min == p && Width(f.rect) == Width(r) && Height(f.rect) == Height(r)
    ensures var k := SnapFrame(f, r, alt, b);
      (f.restrict == Vertical ==> k.min.x == p.x && Width(k) == Width(r)) &&
      (f.restrict == Horizontal ==> k.min.y == p.y && Height(k) == Height(r))
  {
    SnapFrameKeepsLockedAxis(f, r, alt, b);
  }

  /** The snap step never touches the restricted axis. */
  lemma SnapFrameKeepsLockedAxis(f: FrameState, r: Rect, alt: bool, b: Basis)
    ensures var k := SnapFrame(f, r, alt, b);
      (f.restrict == Vertical ==> k.min.x == f.rect.min.x && k.max.x == f.rect.max.x) &&
      (f.restrict == Horizontal ==> k.min.y == f.rect.min.y && k.max.y == f.rect.max.y)
  {
    if !alt && f.ratio == Idle {
      var out := SnapIn(f.input, b);
      var a := ApplySnapOutput(f.rect, Half(r), out, f.restrict);
      assert f.restrict == Vertical ==> a.min.x == f.rect.min.x && a.max.x == f.rect.max.x;
      assert f.restrict == Horizontal ==> a.min.y == f.rect.min.y && a.max.y == f.rect.max.y;
    }
  }

  /** The pointer keeps the offset to the slot's corner it had when the drag
      began, when the memo was taken at drag start for the slot at `position`. */
  lemma GrabOffsetKept(pointer: Pos, start: Pos, position: Pos, width: nat, height: nat, m: Modifiers,
                       input: SnapInput, ratio: RatioKeepOptions, aspectRatio: real, origins: seq<Pos>, b: Basis)
    requires b.scale != 0.0 && aspectRatio > 0.0 && b.index < |origins|
    requires m.alt
    ensures var r := PositionRect(b.dollRect.min, position, width, height, b.scale);
      var memo := SlotDragMemo(origins, DragStartOffset(start, b.dollRect.min, b.scale, position));
      var k := FrameRect(Move(Some(pointer)), r, m, input, ratio, aspectRatio, Some(memo), b);
      Sub(pointer, k.min) == Sub(start, r.min)
  {
    var s, d := b.scale, b.dollRect.min;
    var off := DragStartOffset(start, d, s, position);
    var f := RawFrame(Move(Some(pointer)), PositionRect(d, position, width, height, s), m.ctrl, input, ratio,
                      aspectRatio, Some(SlotDragMemo(origins, off)), b);
    NoSnapWhenGated(Move(Some(pointer)), PositionRect(d, position, width, height, s), m, input, ratio,
                    aspectRatio, Some(SlotDragMemo(origins, off)), b);
    OffsetTimesScale(start.x, d.x, s, position.x);
    OffsetTimesScale(start.y, d.y, s, position.y);
  }

  /** The remembered offset, scaled back, is the pointer's distance to the corner. */
  lemma OffsetTimesScale(a: real, d: real, s: real, p: real)
    requires s != 0.0
    ensures ((a - d) / s - p) * s == a - (d + p * s)
  {
    assert ((a - d) / s) * s == a - d;
  }

  // =====================================================================
  // Guide lines (the display-only snap pass)

  datatype AuxiliaryLine = HorizontalLine(y: real) | VerticalLine(x: real)

  /** The lines for a snap output, in the order the frame pushes them. */
  function LinesOf(out: SnapOutput): (ls: seq<AuxiliaryLine>)
    ensures forall l :: l in ls && l.VerticalLine? ==>
      Some(l.x) == out.min.x || Some(l.x) == out.max.x || Some(l.x) == out.center.x
    ensures forall l :: l in ls && l.HorizontalLine? ==>
      Some(l.y) == out.min.y || Some(l.y) == out.max.y || Some(l.y) == out.center.y
    ensures forall v :: out.min.x == Some(v) || out.max.x == Some(v) || out.center.x == Some(v) ==> VerticalLine(v) in ls
    ensures forall v :: out.min.y == Some(v) || out.max.y == Some(v) || out.center.y == Some(v) ==> HorizontalLine(v) in ls
  {
    (if out.min.x.Some? then [VerticalLine(out.min.x.value)] else []) +
    (if out.min.y.Some? then [HorizontalLine(out.min.y.value)] else []) +
    (if out.max.x.Some? then [VerticalLine(out.max.x.value)] else []) +
    (if out.max.y.Some? then [HorizontalLine(out.max.y.value)] else []) +
    (if out.center.x.Some? then [VerticalLine(out.center.x.value)] else []) +
    (if out.center.y.Some? then [HorizontalLine(out.center.y.value)] else [])
  }

  /** The display request for the final rectangle: nothing snaps, so only
      exact coincidences are reported. */
  function DisplayInput(k: Rect, half: Pos, input: SnapInput): SnapInput
  {
    input.(min := Candidate(k.min, DisplayOnly), max := Candidate(k.max, DisplayOnly),
           center := Candidate(Add(k.min, half), DisplayOnly))
  }

  function GuideLines(k: Rect, half: Pos, input: SnapInput, b: Basis): seq<AuxiliaryLine>
  {
    LinesOf(SnapIn(DisplayInput(k, half, input), b))
  }

  /** Every guide line lies on an edge or the center line of the final
      rectangle, and on a key coordinate of some basis rectangle. */
  lemma GuideLinesOnRect(k: Rect, half: Pos, input: SnapInput, b: Basis, l: AuxiliaryLine)
    requires l in GuideLines(k, half, input, b)
    ensures l.VerticalLine? ==> (l.x == k.min.x || l.x == k.max.x || l.x == k.min.x + half.x)
    ensures l.HorizontalLine? ==> (l.y == k.min.y || l.y == k.max.y || l.y == k.min.y + half.y)
    ensures var rects := BasisRects(b.dollRect, b.ids, b.slots, b.slotId, b.index, b.scale);
      exists i, key :: 0 <= i < |rects| && key in KeyPoints(rects[i]) &&
        (if l.VerticalLine? then Coord(key, AxisX) == l.x else Coord(key, AxisY) == l.y)
  {
    var out := SnapIn(DisplayInput(k, half, input), b);
    if l.VerticalLine? {
      assert Some(l.x) == out.min.x || Some(l.x) == out.max.x || Some(l.x) == out.center.x;
      GuideValue(k, half, input, b, AxisX, l.x);
    } else {
      assert Some(l.y) == out.min.y || Some(l.y) == out.max.y || Some(l.y) == out.center.y;
      GuideValue(k, half, input, b, AxisY, l.y);
    }
  }

  /** A value the display pass records on axis a, for the min, max or center
      entry, lies on the final rectangle and on a basis rectangle. */
  lemma GuideValue(k: Rect, half: Pos, input: SnapInput, b: Basis, a: Axis, v: real)
    requires var out := SnapIn(DisplayInput(k, half, input), b);
      ResultOn(out.min, a) == Some(v) || ResultOn(out.max, a) == Some(v) || ResultOn(out.center, a) == Some(v)
    ensures a == AxisX ==> (v == k.min.x || v == k.max.x || v == k.min.x + half.x)
    ensures a == AxisY ==> (v == k.min.y || v == k.max.y || v == k.min.y + half.y)
    ensures var rects := BasisRects(b.dollRect, b.ids, b.slots, b.slotId, b.index, b.scale);
      exists i, key :: 0 <= i < |rects| && key in KeyPoints(rects[i]) && Coord(key, a) == v
  {
    var out := SnapIn(DisplayInput(k, half, input), b);
    var w := if ResultOn(out.min, a) == Some(v) then MinPoint
             else if ResultOn(out.max, a) == Some(v) then MaxPoint else CenterPoint;
    assert ResultOn(OutputOf(out, w), a) == Some(v);
    GuideLineOnRect(k, half, input, b, w, a, v);
    GuideLineFromBasis(k, half, input, b, w, a, v);
  }

  /** Conversely, wherever an edge or the center line of the final rectangle
      coincides with a key coordinate of a basis rectangle, a guide line is drawn. */
  lemma GuideLinesComplete(k: Rect, half: Pos, input: SnapInput, b: Basis, a: Axis, v: real)
    requires a == AxisX ==> (v == k.min.x || v == k.max.x || v == k.min.x + half.x)
    requires a == AxisY ==> (v == k.min.y || v == k.max.y || v == k.min.y + half.y)
    requires var rects := BasisRects(b.dollRect, b.ids, b.slots, b.slotId, b.index, b.scale);
      exists i, key :: 0 <= i < |rects| && key in KeyPoints(rects[i]) && Coord(key, a) == v
    ensures a == AxisX ==> VerticalLine(v) in GuideLines(k, half, input, b)
    ensures a == AxisY ==> HorizontalLine(v) in GuideLines(k, half, input, b)
  {
    var input' := DisplayInput(k, half, input);
    var rects := BasisRects(b.dollRect, b.ids, b.slots, b.slotId, b.index, b.scale);
    var i, key :| 0 <= i < |rects| && key in KeyPoints(rects[i]) && Coord(key, a) == v;
    var w := if v == Coord(k.min, a) then MinPoint else if v == Coord(k.max, a) then MaxPoint else CenterPoint;
    assert Coord(InputOf(input', w).point, a) == v;
    assert InputOf(input', w).mode == DisplayOnly;
    assert HitsOn(key, InputOf(input', w), b.tolerance, a);
    AnyMatchSnaps(input', rects, b.tolerance, w, a, i, key);
    ModeGating(input', rects, b.tolerance, w, a);
    assert ResultOn(OutputOf(SnapIn(input', b), w), a) == Some(v);
  }

  /** A value recorded for entry w on axis a of the display pass is that
      entry's own coordinate of the final rectangle. */
  lemma GuideLineOnRect(k: Rect, half: Pos, input: SnapInput, b: Basis, w: Which, a: Axis, v: real)
    requires w != AnchorPoint
    requires ResultOn(OutputOf(SnapIn(DisplayInput(k, half, input), b), w), a) == Some(v)
    ensures a == AxisX ==> (v == k.min.x || v == k.max.x || v == k.min.x + half.x)
    ensures a == AxisY ==> (v == k.min.y || v == k.max.y || v == k.min.y + half.y)
  {
    var input' := DisplayInput(k, half, input);
    assert InputOf(input', w).mode == DisplayOnly;
    ModeGating(input', BasisRects(b.dollRect, b.ids, b.slots, b.slotId, b.index, b.scale), b.tolerance, w, a);
  }

  /** A value recorded in the display pass is a key coordinate of a basis rectangle. */
  lemma GuideLineFromBasis(k: Rect, half: Pos, input: SnapInput, b: Basis, w: Which, a: Axis, v: real)
    requires ResultOn(OutputOf(SnapIn(DisplayInput(k, half, input), b), w), a) == Some(v)
    ensures var rects := BasisRects(b.dollRect, b.ids, b.slots, b.slotId, b.index, b.scale);
      exists i, key :: 0 <= i < |rects| && key in KeyPoints(rects[i]) && Coord(key, a) == v
  {
    SnapValueFromBasis(DisplayInput(k, half, input), BasisRects(b.dollRect, b.ids, b.slots, b.slotId, b.index, b.scale),
                       b.tolerance, w, a, v);
  }

  // =====================================================================
  // The frame as the editor runs it: mutable corners updated step by step

  /** One frame of a move or resize of the active slot position, written the
      way ui_canvas runs it; its outcome is the composition above, and the
      guide lines are those of the display-only pass (none when alt is held). */
  method EditFrame(drag: Drag, r: Rect, m: Modifiers, input: SnapInput, ratio: RatioKeepOptions,
                   aspectRatio: real, memo: Option<SlotDragMemo>, b: Basis)
    returns (k: Rect, restrict: DragRestrict, lines: seq<AuxiliaryLine>)
    requires b.scale != 0.0 && aspectRatio > 0.0 && MemoFits(memo, b.index)
    ensures k == FrameRect(drag, r, m, input, ratio, aspectRatio, memo, b)
    ensures restrict == RawFrame(drag, r, m.ctrl, input, ratio, aspectRatio, memo, b).restrict
    ensures lines == if m.alt then []
      else GuideLines(k, Half(r), RawFrame(drag, r, m.ctrl, input, ratio, aspectRatio, memo, b).input, b)
  {
    var half := Half(r);
    var f := DragStep(drag, r, m.ctrl, input, ratio, aspectRatio, memo, b);
    var min, max := f.rect.min, f.rect.max;
    restrict := f.restrict;
    lines := [];
    if !m.alt {
      if f.ratio == Idle {
        var out := SnapInDoll(f.input, b.slotId, b.index, b.dollRect, b.ids, b.slots, b.scale, b.tolerance);
        min, max := ApplyStep(min, max, half, out, restrict);
        min, max := FitStep(min, max, Width(r), Height(r), out, restrict, f.dragPoint);
      }
      var display := DisplayInput(Rect(min, max), half, f.input);
      var out := SnapInDoll(display, b.slotId, b.index, b.dollRect, b.ids, b.slots, b.scale, b.tolerance);
      lines := LinesOf(out);
    }
    k := Rect(min, max);
  }

  /** The drag step on mutable corners: the move with its restriction, or the
      handle callback followed by the ratio lock. */
  method DragStep(drag: Drag, r: Rect, ctrl: bool, input: SnapInput, ratio: RatioKeepOptions,
                  aspectRatio: real, memo: Option<SlotDragMemo>, b: Basis) returns (f: FrameState)
    requires b.scale != 0.0 && aspectRatio > 0.0 && MemoFits(memo, b.index)
    ensures f == RawFrame(drag, r, ctrl, input, ratio, aspectRatio, memo, b)
  {
    match drag {
      case Move(pointer) =>
        f := MoveStep(pointer, r, ctrl, input, ratio, memo, b);
      case Resize(h, pos) =>
        f := ResizeStep(h, pos, r, ctrl, input, ratio, aspectRatio);
    }
  }

  /** A whole-slot move: translate the corners, then choose the restriction
      under ctrl from the pointer's displacement since drag start. */
  method MoveStep(pointer: Option<Pos>, r: Rect, ctrl: bool, input: SnapInput, ratio: RatioKeepOptions,
                  memo: Option<SlotDragMemo>, b: Basis) returns (f: FrameState)
    requires b.scale != 0.0 && MemoFits(memo, b.index)
    ensures f == MoveFrame(pointer, r, ctrl, input, ratio, memo, b)
  {
    var min, max := r.min, r.max;
    var snapInput := input;
    var restrict := Unrestricted;
    if pointer.Some? && memo.Some? {
      var globalPoint, origins, offset := pointer.value, memo.value.origins, memo.value.offset;
      var o := MoveOutcome(globalPoint, r, Half(r), offset, b.scale, input, ratio);
      min, max, snapInput := o.rect.min, o.rect.max, o.input;
      if ctrl {
        var point := Div(Sub(globalPoint, b.dollRect.min), b.scale);
        var origin := origins[b.index];
        var xOffset := point.x - origin.x - offset.x;
        var yOffset := point.y - origin.y - offset.y;
        if Abs(xOffset) > Abs(yOffset) {
          restrict := Horizontal;
        } else {
          restrict := Vertical;
        }
      }
    }
    f := FrameState(Rect(min, max), snapInput, ratio, restrict, pointer);
  }

  /** A handle drag: the handle's callback, then the ratio lock solving the
      coordinate the callback chose. */
  method ResizeStep(h: Handle, pos: Pos, r: Rect, ctrl: bool, input: SnapInput, ratio: RatioKeepOptions,
                    aspectRatio: real) returns (f: FrameState)
    requires aspectRatio > 0.0
    ensures f == ResizeFrame(h, pos, r, ctrl, input, ratio, aspectRatio)
  {
    var o := DragHandle(h, pos, r, Half(r), ctrl, input, ratio);
    var min, max := KeepRatioStep(o.ratio, o.rect.min, o.rect.max, aspectRatio);
    f := FrameState(Rect(min, max), o.input, o.ratio, Unrestricted, None);
  }

  /** The ratio lock on mutable corners: solve the coordinate the option names. */
  method KeepRatioStep(opt: RatioKeepOptions, min0: Pos, max0: Pos, aspectRatio: real) returns (min: Pos, max: Pos)
    requires aspectRatio > 0.0
    ensures Rect(min, max) == KeepRatio(opt, Rect(min0, max0), aspectRatio)
  {
    min, max := min0, max0;
    var r := Rect(min0, max0);
    match opt {
      case MinY =>
        min := min.(y := max.y - (max.x - min.x) / aspectRatio);
        assert KeepRatio(opt, r, aspectRatio) == Rect(Pos(r.min.x, r.max.y - (r.max.x - r.min.x) / aspectRatio), r.max);
      case MaxX =>
        max := max.(x := (max.y - min.y) * aspectRatio + min.x);
        assert KeepRatio(opt, r, aspectRatio) == Rect(r.min, Pos((r.max.y - r.min.y) * aspectRatio + r.min.x, r.max.y));
      case MaxY =>
        max := max.(y := (max.x - min.x) / aspectRatio + min.y);
        assert KeepRatio(opt, r, aspectRatio) == Rect(r.min, Pos(r.max.x, (r.max.x - r.min.x) / aspectRatio + r.min.y));
      case _ =>
    }
  }

  /** Applying the snap results to mutable corners, axis by axis. */
  method ApplyStep(min0: Pos, max0: Pos, half: Pos, out: SnapOutput, restrict: DragRestrict)
    returns (min: Pos, max: Pos)
    ensures Rect(min, max) == ApplySnapOutput(Rect(min0, max0), half, out, restrict)
  {
    min, max := min0, max0;
    if restrict != Vertical {
      if out.min.x.Some? { min := min.(x := out.min.x.value); }
      if out.max.x.Some? { max := max.(x := out.max.x.value); }
      if out.center.x.Some? {
        min := min.(x := out.center.x.value - half.x);
        max := max.(x := out.center.x.value + half.x);
      }
    }
    if restrict != Horizontal {
      if out.min.y.Some? { min := min.(y := out.min.y.value); }
      if out.max.y.Some? { max := max.(y := out.max.y.value); }
      if out.center.y.Some? {
        min := min.(y := out.center.y.value - half.y);
        max := max.(y := out.center.y.value + half.y);
      }
    }
  }

  /** The edge-fit on mutable corners, gated as in the source on either axis not fitting. */
  method FitStep(min0: Pos, max0: Pos, width: real, height: real, out: SnapOutput,
                 restrict: DragRestrict, dragPoint: Option<Pos>) returns (min: Pos, max: Pos)
    ensures Rect(min, max) == EdgeFit(Rect(min0, max0), width, height, out, restrict, dragPoint)
  {
    min, max := min0, max0;
    if dragPoint.Some? {
      var globalPoint := dragPoint.value;
      var xNotFit := max.x - min.x != width;
      var yNotFit := max.y - min.y != height;
      if xNotFit || yNotFit {
        var isCursorNearMin := DistanceSquared(globalPoint, min) < DistanceSquared(globalPoint, max);
        if xNotFit && restrict != Vertical {
          var lo, hi := FitAxisStep(min.x, max.x, width, out.min.x.Some?, out.max.x.Some?, isCursorNearMin);
          min, max := min.(x := lo), max.(x := hi);
        }
        if yNotFit && restrict != Horizontal {
          var lo, hi := FitAxisStep(min.y, max.y, height, out.min.y.Some?, out.max.y.Some?, isCursorNearMin);
          min, max := min.(y := lo), max.(y := hi);
        }
      }
    }
  }

  /** One axis of the edge-fit, for an axis whose span does not fit. */
  method FitAxisStep(lo0: real, hi0: real, size: real, loSnapped: bool, hiSnapped: bool, nearMin: bool)
    returns (lo: real, hi: real)
    requires hi0 - lo0 != size
    ensures (lo, hi) == FitAxis(lo0, hi0, size, loSnapped, hiSnapped, nearMin)
  {
    lo, hi := lo0, hi0;
    if hiSnapped && loSnapped {
      if nearMin { hi := lo + size; } else { lo := hi - size; }
    } else if hiSnapped {
      lo := hi - size;
    } else if loSnapped {
      hi := lo + size;
    }
  }

  // =====================================================================
  // Commit: rounding, the pinned axis, the size and the shift sync

  /** f32::round: to the nearest integer, halfway cases away from zero. */
  function Round(x: real): (n: int)
    ensures Abs(x - n as real) <= 0.5
    ensures Abs(x - n as real) == 0.5 ==> Abs(n as real) > Abs(x)
  {
    if x >= 0.0 then (x + 0.5).Floor else -((-x + 0.5).Floor)
  }

  lemma RoundIntegral(k: int)
    ensures Round(k as real) == k
  {
  }

  function RoundPos(p: Pos): Pos
  {
    Pos(Round(p.x) as real, Round(p.y) as real)
  }

  const U32Max: int := 0xFFFF_FFFF

  /** Rust's `as u32` on a float: saturating at both ends. */
  function SaturateU32(v: int): (r: nat)
    ensures r <= U32Max
    ensures 0 <= v <= U32Max ==> r == v
    ensures v < 0 ==> r == 0
    ensures v > U32Max ==> r == U32Max
  {
    if v < 0 then 0 else if v > U32Max then U32Max else v
  }

  /** A screen point in doll coordinates. */
  function ToDoll(p: Pos, dollMin: Pos, scale: real): Pos
    requires scale != 0.0
  {
    Div(Sub(p, dollMin), scale)
  }

  /** The committed top-left: the rounded doll position of the rectangle,
      with the restricted axis reset to that position's drag-start origin. */
  function CommittedTopLeft(k: Rect, dollMin: Pos, scale: real, restrict: DragRestrict,
                            memo: Option<SlotDragMemo>, index: nat): (tl: Pos)
    requires scale != 0.0 && MemoFits(memo, index)
    ensures restrict == Unrestricted || memo.None? ==> tl == RoundPos(ToDoll(k.min, dollMin, scale))
    ensures restrict == Horizontal && memo.Some? ==>
      tl.x == RoundPos(ToDoll(k.min, dollMin, scale)).x && tl.y == memo.value.origins[index].y
    ensures restrict == Vertical && memo.Some? ==>
      tl.y == RoundPos(ToDoll(k.min, dollMin, scale)).y && tl.x == memo.value.origins[index].x
  {
    var topLeft := RoundPos(ToDoll(k.min, dollMin, scale));
    if restrict != Unrestricted && memo.Some? then
      var origin := memo.value.origins[index];
      if restrict == Horizontal then topLeft.(y := origin.y) else topLeft.(x := origin.x)
    else topLeft
  }

  /** The committed width and height of a resize: rounded corner differences
      cast to u32. */
  function CommittedSize(k: Rect, tl: Pos, dollMin: Pos, scale: real): (nat, nat)
    requires scale != 0.0
  {
    var bottomRight := RoundPos(ToDoll(k.max, dollMin, scale));
    (SaturateU32(Round(bottomRight.x) - Round(tl.x)), SaturateU32(Round(bottomRight.y) - Round(tl.y)))
  }

  /** Committing a rectangle that sits exactly on an integral position, with
      an integral size, writes back that position and that size. */
  lemma RecommitIsIdentity(dollMin: Pos, px: int, py: int, width: nat, height: nat, scale: real,
                           memo: Option<SlotDragMemo>, index: nat)
    requires scale > 0.0 && MemoFits(memo, index) && width <= U32Max && height <= U32Max
    ensures var p := Pos(px as real, py as real);
      var k := PositionRect(dollMin, p, width, height, scale);
      CommittedTopLeft(k, dollMin, scale, Unrestricted, memo, index) == p &&
      CommittedSize(k, p, dollMin, scale) == (width, height)
  {
    var p := Pos(px as real, py as real);
    var k := PositionRect(dollMin, p, width, height, scale);
    DivCancel(px as real, dollMin.x, scale);
    DivCancel(py as real, dollMin.y, scale);
    DivCancel((px + width) as real, dollMin.x, scale);
    DivCancel((py + height) as real, dollMin.y, scale);
    assert k.max.x == dollMin.x + (px + width) as real * scale;
    assert k.max.y == dollMin.y + (py + height) as real * scale;
    assert ToDoll(k.min, dollMin, scale) == p;
    assert ToDoll(k.max, dollMin, scale) == Pos((px + width) as real, (py + height) as real);
    RoundIntegral(px);
    RoundIntegral(py);
    RoundIntegral(px + width);
    RoundIntegral(py + height);
  }

  lemma DivCancel(a: real, d: real, s: real)
    requires s > 0.0
    ensures ((d + a * s) - d) / s == a
  {
  }

  /** The positions after commit: the edited position takes the committed
      top-left; while a slot drag is committed with shift held, the whole
      layout moves with it, every other position by the same offset. */
  function CommittedPositions(ps: seq<Pos>, index: nat, tl: Pos, shift: bool, moved: bool): (r: seq<Pos>)
    requires index < |ps|
    ensures |r| == |ps| && r[index] == tl
    ensures !(moved && shift) ==> forall j :: 0 <= j < |ps| && j != index ==> r[j] == ps[j]
    ensures moved && shift ==> forall j :: 0 <= j < |ps| ==> r[j] == Add(ps[j], Sub(tl, ps[index]))
  {
    if moved && shift && tl != ps[index] then
      var offset := Sub(tl, ps[index]);
      seq(|ps|, j requires 0 <= j < |ps| => if j == index then tl else Add(ps[j], offset))
    else ps[index := tl]
  }

  /** A shift-synced move keeps every position's offset to every other. */
  lemma SyncKeepsLayout(ps: seq<Pos>, index: nat, tl: Pos, i: nat, j: nat)
    requires index < |ps| && i < |ps| && j < |ps|
    ensures var r := CommittedPositions(ps, index, tl, true, true);
      Sub(r[i], r[j]) == Sub(ps[i], ps[j])
  {
  }

  /** The commit of one frame, on the slot's position buffer: write the
      committed top-left, record the offset when shift is held, shift the
      other positions when the slot body was dragged, and compute the new
      size when a handle was dragged. An index that is not a position of
      the buffer leaves everything as it was. */
  method CommitPosition(positions: array<Pos>, index: nat, k: Rect, dollMin: Pos, scale: real,
                        restrict: DragRestrict, memo: Option<SlotDragMemo>, shift: bool, drag: Drag,
                        width: nat, height: nat) returns (newWidth: nat, newHeight: nat)
    requires scale != 0.0 && MemoFits(memo, index)
    modifies positions
    ensures index < positions.Length ==>
      var tl := CommittedTopLeft(k, dollMin, scale, restrict, memo, index);
      positions[..] == CommittedPositions(old(positions[..]), index, tl, shift, drag.Move?) &&
      (newWidth, newHeight) == if drag.Resize? then CommittedSize(k, tl, dollMin, scale) else (width, height)
    ensures index >= positions.Length ==> positions[..] == old(positions[..]) && (newWidth, newHeight) == (width, height)
  {
    ghost var before := positions[..];
    newWidth, newHeight := width, height;
    if index >= positions.Length {
      return;
    }
    var position := positions[index];
    var topLeft := RoundPos(ToDoll(k.min, dollMin, scale));
    var bottomRight := RoundPos(ToDoll(k.max, dollMin, scale));
    if restrict != Unrestricted && memo.Some? {
      var origins := memo.value.origins;
      if restrict == Horizontal {
        topLeft := topLeft.(y := origins[index].y);
      } else {
        topLeft := topLeft.(x := origins[index].x);
      }
    }
    var dragOffset: Option<Pos> := None;
    if shift && topLeft != position {
      dragOffset := Some(Sub(topLeft, position));
    }
    positions[index] := topLeft;
    if drag.Resize? {
      newWidth := SaturateU32(Round(bottomRight.x) - Round(topLeft.x));
      newHeight := SaturateU32(Round(bottomRight.y) - Round(topLeft.y));
    }
    if drag.Move? && shift && dragOffset.Some? {
      var offset := dragOffset.value;
      for j := 0 to positions.Length
        invariant forall l :: 0 <= l < j ==> positions[l] == if l == index then topLeft else Add(before[l], offset)
        invariant forall l :: j <= l < positions.Length ==> positions[l] == before[index := topLeft][l]
      {
        if j != index {
          positions[j] := Add(positions[j], offset);
        }
      }
    }
  }

  // =====================================================================
  // The anchor

  /** The anchor snap of one frame: with alt not held, the dragged anchor
      takes the snapped coordinates, with a guide line for each. */
  function AnchorFrame(point: Pos, alt: bool, input: SnapInput, b: Basis): (r: (Pos, seq<AuxiliaryLine>))
    ensures alt ==> r == (point, [])
    ensures !alt ==>
      var out := SnapIn(input.(anchor := Candidate(point, Both)), b).anchor;
      r.0.x == (if ResultOn(out, AxisX).Some? then ResultOn(out, AxisX).value else point.x) &&
      r.0.y == (if ResultOn(out, AxisY).Some? then ResultOn(out, AxisY).value else point.y) &&
      |r.1| == (if out.x.Some? then 1 else 0) + (if out.y.Some? then 1 else 0) &&
      (VerticalLine(r.0.x) in r.1 <==> out.x.Some?) &&
      (HorizontalLine(r.0.y) in r.1 <==> out.y.Some?) &&
      forall l :: l in r.1 ==> l == VerticalLine(r.0.x) || l == HorizontalLine(r.0.y)
  {
    if alt then (point, [])
    else
      var out := SnapIn(input.(anchor := Candidate(point, Both)), b);
      (Pos(if out.anchor.x.Some? then out.anchor.x.value else point.x,
           if out.anchor.y.Some? then out.anchor.y.value else point.y),
       (if out.anchor.x.Some? then [VerticalLine(out.anchor.x.value)] else []) +
       (if out.anchor.y.Some? then [HorizontalLine(out.anchor.y.value)] else []))
  }

  /** The anchor snap depends on the anchor only, not on the other candidates
      left in the snap request. */
  lemma AnchorSnapIgnoresRect(point: Pos, alt: bool, input1: SnapInput, input2: SnapInput, b: Basis)
    ensures AnchorFrame(point, alt, input1, b) == AnchorFrame(point, alt, input2, b)
  {
    var rects := BasisRects(b.dollRect, b.ids, b.slots, b.slotId, b.index, b.scale);
    CandidatesIndependent(input1.(anchor := Candidate(point, Both)), input2.(anchor := Candidate(point, Both)),
                          rects, b.tolerance, AnchorPoint);
  }

  /** The dragged anchor ends on the pointer or on key coordinates of the
      basis, axis by axis, and every anchor guide line runs through it. */
  lemma AnchorOnBasis(point: Pos, alt: bool, input: SnapInput, b: Basis)
    ensures var r := AnchorFrame(point, alt, input, b);
      var rects := BasisRects(b.dollRect, b.ids, b.slots, b.slotId, b.index, b.scale);
      (r.0.x == point.x || exists i, key :: 0 <= i < |rects| && key in KeyPoints(rects[i]) && Coord(key, AxisX) == r.0.x) &&
      (r.0.y == point.y || exists i, key :: 0 <= i < |rects| && key in KeyPoints(rects[i]) && Coord(key, AxisY) == r.0.y)
  {
    if !alt {
      var input' := input.(anchor := Candidate(point, Both));
      var rects := BasisRects(b.dollRect, b.ids, b.slots, b.slotId, b.index, b.scale);
      var out := SnapIn(input', b).anchor;
      assert OutputOf(DragSnapSpec(input', rects, b.tolerance), AnchorPoint) == out;
      if out.x.Some? {
        SnapValueFromBasis(input', rects, b.tolerance, AnchorPoint, AxisX, out.x.value);
      }
      if out.y.Some? {
        SnapValueFromBasis(input', rects, b.tolerance, AnchorPoint, AxisY, out.y.value);
      }
    }
  }

  function Max(a: real, b: real): real
  {
    if a >= b then a else b
  }

  /** The committed anchor (slot-local, unscaled). Without ctrl it follows
      the pointer; with ctrl it moves along one axis only away from its
      drag-start value, the axis along which the pointer moved further, and
      keeps the full displacement along that axis. */
  function CommitAnchor(current: Pos, point: Pos, slotMin: Pos, scale: real, ctrl: bool,
                        original: Option<Pos>): (a: Pos)
    requires scale != 0.0
    ensures !ctrl ==> a == ToDoll(point, slotMin, scale)
    ensures ctrl && original.None? ==> a == current
    ensures ctrl && original.Some? ==>
      var o, l := original.value, ToDoll(point, slotMin, scale);
      (a.x == o.x || a.y == o.y) && (a.x == l.x || a.y == l.y) &&
      Abs(a.x - o.x) + Abs(a.y - o.y) == Max(Abs(l.x - o.x), Abs(l.y - o.y))
    ensures ctrl && original.Some? ==>
      var o, l := original.value, ToDoll(point, slotMin, scale);
      (Abs(l.x - o.x) > Abs(l.y - o.y) ==> a == Pos(l.x, o.y)) &&
      (Abs(l.x - o.x) <= Abs(l.y - o.y) ==> a == Pos(o.x, l.y))
  {
    var anchorPoint := ToDoll(point, slotMin, scale);
    if ctrl then
      match original
      case None => current
      case Some(o) =>
        if Abs(anchorPoint.x - o.x) > Abs(anchorPoint.y - o.y) then Pos(anchorPoint.x, o.y)
        else Pos(o.x, anchorPoint.y)
    else anchorPoint
  }

  // =====================================================================
  // The drag memo kept between frames

  /** The two canvas_original_pos_* fields of the editor. */
  class EditorSession {
    var originalPosAnchor: Option<Pos>
    var originalPosSlotAndDragOffset: Option<SlotDragMemo>

    constructor ()
      ensures originalPosAnchor == None && originalPosSlotAndDragOffset == None
    {
      originalPosAnchor := None;
      originalPosSlotAndDragOffset := None;
    }

    /** On a slot drag, the memo is taken once, at the first frame that has a
        pointer position, and kept as it is afterwards. */
    method RememberSlotDrag(positions: seq<Pos>, pointer: Option<Pos>, dollMin: Pos, scale: real, position: Pos)
      requires scale != 0.0
      modifies this
      ensures old(originalPosSlotAndDragOffset).Some? ==> originalPosSlotAndDragOffset == old(originalPosSlotAndDragOffset)
      ensures old(originalPosSlotAndDragOffset).None? ==>
        originalPosSlotAndDragOffset ==
          if pointer.Some? then Some(SlotDragMemo(positions, DragStartOffset(pointer.value, dollMin, scale, position)))
          else None
      ensures originalPosAnchor == old(originalPosAnchor)
    {
      if originalPosSlotAndDragOffset.None? {
        if pointer.Some? {
          originalPosSlotAndDragOffset := Some(SlotDragMemo(positions, DragStartOffset(pointer.value, dollMin, scale, position)));
        }
      }
    }

    /** On an anchor drag, the drag-start anchor is remembered once. */
    method RememberAnchorDrag(anchor: Pos)
      modifies this
      ensures originalPosAnchor == if old(originalPosAnchor).None? then Some(anchor) else old(originalPosAnchor)
      ensures originalPosSlotAndDragOffset == old(originalPosSlotAndDragOffset)
    {
      if originalPosAnchor.None? {
        originalPosAnchor := Some(anchor);
      }
    }

    /** At the end of the frame, a memo whose drag did not continue is dropped. */
    method EndFrame(anchorDragged: bool, slotDragged: bool)
      modifies this
      ensures originalPosAnchor == if anchorDragged then old(originalPosAnchor) else None
      ensures originalPosSlotAndDragOffset == if slotDragged then old(originalPosSlotAndDragOffset) else None
    {
      if !anchorDragged {
        originalPosAnchor := None;
      }
      if !slotDragged {
        originalPosSlotAndDragOffset := None;
      }
    }
  }
}
