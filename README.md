# ppd-editor slot geometry, list operations and viewer selection in Dafny

This project models the logic of the ppd-editor paper-doll editor and viewer
that can be stated without its GUI toolkit. Coordinates are real numbers.

- **The snap engine** (`src/editor/canvas/snap.rs`). Four candidate points
  (min, max, center, anchor) each carry a `SnapType`. They are compared with
  the nine key points of every basis rectangle:
  - on each axis the mode allows, a key coordinate within the tolerance is
    recorded;
  - on any other axis, only an exactly equal coordinate is recorded;
  - the last match wins.

  `DragSnap` is the loop, and `DragSnapSpec` is the fold it is proved
  against.
- **The canvas edit rules** (`src/editor/canvas.rs`):
  - the basis resolver `snap_in_doll`. The doll rectangle comes first, then
    every position of every basis slot except the one being edited;
  - the eight resize handles and the whole-slot move;
  - the ctrl axis restriction, measured from the drag-start memo;
  - the ratio lock, and the gate that snaps only without alt and with the
    ratio lock idle;
  - the per-axis application of snap results, and the edge-fit correction;
  - the display-only pass that yields the guide lines;
  - the commit: f32 rounding, the restricted axis pinned to its drag-start
    origin, the saturating `as u32` size, and the shift sync of all
    positions;
  - the ctrl-restricted anchor commit;
  - the two drag memos kept between frames.

  The frame is written imperatively (`EditFrame`, `CommitPosition`). It is
  proved equal to the composition of pure steps (`RawFrame`, `SnapFrame`,
  `CommittedPositions`), and the properties are proved about those steps.
- **The editor's list actions** (`src/editor/actions.rs`):
  - the four z-order moves, acting in place on an array;
  - `SlotAddCandidates`, `SlotRemoveCandidate` and `AssociatedSlotsConfirm`
    on the slots' candidate lists;
  - the zoom clamp.
- **`FixedVec`** (`src/fixed_vec.rs`): a bounded most-recently-used list,
  kept newest first.
- **The viewer** (`src/viewer/ui.rs`, `src/viewer/actions.rs`):
  - the prev/next index state machine over `-1..len-1`, where -1 means "no
    fragment";
  - the label shown for an index, and the doll and slot titles;
  - the selection bookkeeping of `PpdChanged` and `SlotFragmentChanged`;
  - the action queue drained by `handle_actions`.
- **`allocate_size_center_in_rect`** (`src/common.rs`): an
  aspect-preserving fit into a container, centred in it.

Modules:

| module | file | role |
|---|---|---|
| `Prelude` | `prelude.dfy` | `Option`, `Abs` and `MinReal` |
| `Geometry` | `geometry.dfy` | `Pos`, `Rect` and `Axis` |
| `Seqs` | `seqs.dfy` | `Iterator::position`, `Vec::remove` and duplicate-freedom |
| `Snap` | `snap.dfy` | the snap engine |
| `Canvas` | `canvas.dfy` | the canvas edit rules |
| `EditorActions` | `editor_actions.dfy` | the editor's list actions |
| `FixedVector` | `fixed_vec.dfy` | `FixedVec` |
| `ViewerUi` | `viewer_ui.dfy` | the viewer's control panel |
| `ViewerApp` | `viewer_app.dfy` | the viewer's state and actions |
| `Common` | `common.dfy` | the fit-and-center computation |

Where the code and its design description differ, the model follows the
code:

- **Edge-fit with both edges snapped.** When both opposite edges of an axis
  snapped during a move, the edge-fit keeps the slot's width or height. It
  keeps the edge nearer the cursor and re-derives the other. It does not
  keep both snapped edges.
- **The ctrl restriction is re-chosen every frame** from the drag-start
  memo. It is not pinned at the first frame, so it flips when the other axis
  comes to dominate.
- **Stale candidates in a handle drag.** A handle's callback sets only the
  candidates it moves. The others keep the value carried into the frame,
  which starts as `SnapInput::default()` (the origin, `DisplayOnly`). An
  exact coincidence of such a stale point with a key coordinate is still
  recorded and applied, so it can move an edge the handle never touched.
  The model reproduces this, because the snap request carried in is a
  parameter of the frame.
- **The snap tolerance** (`canvas_snap_tolerance`) is not part of the
  configuration shown in `src/editor/config.rs`. It is a parameter of the
  model.

## Model

| member | source | states |
|---|---|---|
| Snap.ApplySnap | src/editor/canvas/snap.rs:93-138 | On each axis, a key point that hits (within tolerance on an axis the mode allows, exact equality on any other) records the key's coordinate; a miss keeps the earlier record |
| Snap.KeyPoints | src/editor/canvas/snap.rs:37-55 | Each basis rectangle contributes exactly nine key points |
| Snap.KeyPointsAreGrid | src/editor/canvas/snap.rs:38-54 | The nine key points are exactly the 3×3 grid of {left, center, right} × {top, center, bottom}: center, four corners, four edge midpoints |
| Snap.KeyPointsOf | src/editor/canvas/snap.rs:37-55 | The key points are visited rectangle by rectangle, nine per rectangle, in the order of the loop |
| Snap.KeyPointOrigin | src/editor/canvas/snap.rs:37-55 | The l-th visited key point is key point l mod 9 of basis rectangle l div 9 |
| Snap.DragSnap | src/editor/canvas/snap.rs:34-58 | The nested loop computes the fold of snap_to_point over all key points; with no basis rectangles every output field is None |
| Snap.SnapRect | src/editor/canvas/snap.rs:38-54 | The loop body over one rectangle is snap_to_point at its nine key points, in order |
| Snap.SnapAllAppend | src/editor/canvas/snap.rs:37-55 | Visiting one list of key points and then another is visiting their concatenation |
| Snap.NoHitKeeps | src/editor/canvas/snap.rs:37-55 | When no key point hits on an axis, the record there is the initial one |
| Snap.LastHitWins | src/editor/canvas/snap.rs:37-55 | The last key point that hits decides the record, and the record is exactly its coordinate (snapping jumps to the key, it does not ease toward it) |
| Snap.HitRecords | src/editor/canvas/snap.rs:37-55 | A key point that hits leaves a record on its axis, whatever key points follow it |
| Snap.RecordsPersist | src/editor/canvas/snap.rs:100-137 | A record, once set, is never reset to None |
| Snap.RecordFromKey | src/editor/canvas/snap.rs:93-137 | A record is the initial one or the coordinate of a key point that hit |
| Snap.UnsnappedAxisEchoes | src/editor/canvas/snap.rs:101-127 | On an axis the mode does not allow, the record stays None or the candidate's own coordinate |
| Snap.SnapAllPerCandidate | src/editor/canvas/snap.rs:60-91 | Each output entry is the fold of its own candidate alone |
| Snap.CandidatesIndependent | src/editor/canvas/snap.rs:60-91 | output.min depends only on input.min, and likewise for max, center and anchor |
| Snap.SnapValueFromBasis | src/editor/canvas/snap.rs:34-137 | Every Some value of the output equals the matching coordinate of a key point of some basis rectangle |
| Snap.SnapTakesLastMatch | src/editor/canvas/snap.rs:37-55 | Across all basis rectangles, the last key point that hits gives the output value |
| Snap.NoMatchNoSnap | src/editor/canvas/snap.rs:35-55 | If no key point of any basis rectangle hits, the output on that axis is None |
| Snap.AnyMatchSnaps | src/editor/canvas/snap.rs:35-55 | Conversely, if some key point of some basis rectangle hits, the output on that axis is Some |
| Snap.ModeGating | src/editor/canvas/snap.rs:100-127 | DisplayOnly on both axes, X on y and Y on x: the output is None or exactly the input coordinate |
| Canvas.CollectBasisRects | src/editor/canvas.rs:921-940 | The nested loops build exactly `BasisRects`, and the doll rectangle comes first |
| Canvas.SnapInDoll | src/editor/canvas.rs:914-943 | snap_in_doll is the snap engine run on the resolved basis |
| Canvas.SlotBasisRectsMembers | src/editor/canvas.rs:925-938 | One slot contributes exactly the rectangles of its positions other than the edited one |
| Canvas.BasisRectsMembers | src/editor/canvas.rs:923-939 | A rectangle is in the basis after the doll exactly when it is the rectangle of a position of a basis slot that exists and is not the edited (slot, index) pair |
| Canvas.BasisRectsCount | src/editor/canvas.rs:921-940 | With distinct basis ids, the basis holds 1 + all positions of the existing basis slots, minus one exactly when the edited position is among them |
| Canvas.DragHandle | src/editor/canvas.rs:312-506 | Each handle moves exactly the edges it owns to the pointer. The moved corners ask for snapping on exactly the moved axes, and the center on each axis an edge moved on. The center candidate is max − half for Bottom and BottomRight, and min + half for every other handle. The anchor request is untouched. Under ctrl the ratio lock becomes MinY for TopLeft, MaxY for Right, BottomLeft and Left, and MaxX for Top, TopRight, BottomRight and Bottom. Without ctrl it is unchanged |
| Canvas.MoveOutcome | src/editor/canvas.rs:556-569 | A move puts the top-left at the pointer minus the scaled grab offset and keeps the size. Min, max and center then snap on both axes |
| Canvas.Restriction | src/editor/canvas.rs:572-586 | Under ctrl the restriction is Horizontal iff the x displacement from the drag-start origin exceeds the y one in absolute value; ties give Vertical; without ctrl it is none |
| Canvas.RestrictionFromDragStart | src/editor/canvas.rs:572-586 | The restriction is measured from the drag-start pointer: Horizontal iff the pointer moved further horizontally than vertically since the drag began |
| Canvas.KeepRatio | src/editor/canvas.rs:593-604 | MinY solves min.y, MaxX solves max.x and MaxY solves max.y; the other coordinates stay, and afterwards width = ratio × height; Idle and MinX change nothing |
| Canvas.ApplySnapOutput | src/editor/canvas.rs:621-649 | A snapped min or max replaces that edge, and a snapped center overrides both edges of its axis around the half size. Under Vertical no x result moves min.x or max.x, and under Horizontal no y result moves min.y or max.y |
| Canvas.FitAxis | src/editor/canvas.rs:660-696 | When an edge snapped, the span becomes the original size. A single snapped edge is kept; with both snapped, the edge nearer the cursor is kept; with none, nothing changes |
| Canvas.EdgeFit | src/editor/canvas.rs:651-698 | Without a drag pointer nothing changes. The restricted axis, and an axis with no edge snapped, are untouched. An unrestricted axis with a snapped edge gets its original width or height back, keeping the single snapped edge, or, with both snapped, the edge nearer the cursor |
| Canvas.RawFrame | src/editor/canvas.rs:551-605 | A move keeps the ratio option and the pointer, and with a memo puts the top-left at the pointer minus the scaled grab offset, keeping the size. A resize is unrestricted and has no drag pointer; under ctrl it engages the ratio lock and ends with width = ratio × height. Without ctrl there is no restriction |
| Canvas.MoveFrame | src/editor/canvas.rs:555-589 | The slot follows the pointer at the grab offset with its size kept; the ratio option and the pointer carry over; without ctrl there is no restriction |
| Canvas.ResizeFrame | src/editor/canvas.rs:591-605 | A handle drag has no restriction and no drag pointer; under ctrl the ratio lock is engaged and the result has width = ratio × height; without ctrl the ratio option is unchanged |
| Canvas.NoSnapWhenGated | src/editor/canvas.rs:608-610 | With alt held or the ratio lock engaged, the frame's rectangle is the one the drag step produced |
| Canvas.RatioLockedResize | src/editor/canvas.rs:591-616 | A ctrl resize keeps width = ratio × height, and its outcome does not depend on the basis (it is never snapped) |
| Canvas.ResizeIgnoresBasis | src/editor/canvas.rs:591-616 | Under ctrl, the frame of a resize is the ratio-locked handle drag, with no snap step |
| Canvas.MoveKeepsSize | src/editor/canvas.rs:555-698 | Moving a slot, snapped or not, never changes its width or height |
| Canvas.RestrictedAxisFollowsPointer | src/editor/canvas.rs:621-698 | Under a restriction, the locked axis's edge is exactly where the pointer put it and keeps its size: no snap and no edge-fit moves it |
| Canvas.LockedAxisAfterSnap | src/editor/canvas.rs:621-698 | Through the snap step, a locked axis keeps the frame's corner coordinate and the slot's size on that axis |
| Canvas.SnapFrameKeepsLockedAxis | src/editor/canvas.rs:621-698 | The snap step and the edge-fit never move either edge of the restricted axis |
| Canvas.GrabOffsetKept | src/editor/canvas.rs:293-302 | With the memo taken at drag start, the pointer keeps its drag-start offset to the slot's top-left corner |
| Canvas.LinesOf | src/editor/canvas.rs:714-736 | Every vertical guide line is a snapped x and every horizontal one a snapped y of min, max or center; conversely every snapped x of min, max or center gives a vertical line and every snapped y a horizontal one |
| Canvas.GuideLinesOnRect | src/editor/canvas.rs:701-736 | Every guide line of the display pass lies on an edge or the center of the final rectangle, and on a key coordinate of some basis rectangle |
| Canvas.GuideLinesComplete | src/editor/canvas.rs:701-736 | Conversely, whenever an edge or the center line of the final rectangle coincides exactly with a key coordinate of a basis rectangle, the guide line on it is drawn |
| Canvas.GuideValue | src/editor/canvas.rs:701-736 | A value the display pass records for min, max or center on an axis lies on that axis's edges or center line of the final rectangle, and on a key coordinate of a basis rectangle |
| Canvas.GuideLineOnRect | src/editor/canvas.rs:701-713 | A value recorded for the min, max or center entry of the display pass is that entry's own coordinate of the final rectangle |
| Canvas.GuideLineFromBasis | src/editor/canvas.rs:701-713 | A value recorded in the display pass is a key coordinate of some basis rectangle |
| Canvas.EditFrame | src/editor/canvas.rs:551-737 | The mutable-corner frame yields `FrameRect`, the restriction of the drag step, and the guide lines of the display pass (none under alt) |
| Canvas.DragStep | src/editor/canvas.rs:555-605 | The step-by-step drag, restriction and ratio lock equal `RawFrame` |
| Canvas.MoveStep | src/editor/canvas.rs:555-589 | The in-place translation of the corners and the choice of restriction equal `MoveFrame` |
| Canvas.ResizeStep | src/editor/canvas.rs:591-605 | The handle callback followed by the in-place ratio lock equals `ResizeFrame` |
| Canvas.KeepRatioStep | src/editor/canvas.rs:591-605 | The in-place ratio lock on mutable corners equals `KeepRatio` |
| Canvas.ApplyStep | src/editor/canvas.rs:621-649 | The in-place snap application equals `ApplySnapOutput` |
| Canvas.FitStep | src/editor/canvas.rs:651-698 | The in-place edge-fit equals `EdgeFit` |
| Canvas.FitAxisStep | src/editor/canvas.rs:660-677 | One axis of the in-place edge-fit equals `FitAxis` |
| Canvas.Round | src/editor/canvas.rs:771-774 | f32::round: within 0.5 of its argument, halfway cases away from zero |
| Canvas.RoundIntegral | src/editor/canvas.rs:771-774 | Rounding an integer gives it back |
| Canvas.SaturateU32 | src/editor/canvas.rs:802-807 | `as u32` keeps values in range, sends negatives to 0 and large values to u32::MAX |
| Canvas.CommittedTopLeft | src/editor/canvas.rs:771-786 | The committed top-left is the rounded doll position. Under Horizontal its y is reset to the drag-start origin, and under Vertical its x |
| Canvas.RecommitIsIdentity | src/editor/canvas.rs:767-809 | Committing an unrestricted rectangle that sits on an integral position, with an integral size, writes back that position and that size |
| Canvas.CommittedPositions | src/editor/canvas.rs:788-825 | The edited position takes the committed top-left. A shift move shifts every position by the same offset; otherwise the other positions are unchanged |
| Canvas.SyncKeepsLayout | src/editor/canvas.rs:812-825 | A shift-synced move keeps every position's offset to every other |
| Canvas.CommitPosition | src/editor/canvas.rs:767-825 | The in-place commit writes `CommittedPositions` into the buffer, and a resize returns the committed size |
| Canvas.AnchorFrame | src/editor/canvas.rs:739-764 | Under alt the anchor is the pointer and there are no lines. Otherwise each coordinate is the basis snap's anchor result on that axis, or the pointer's own when none, with one guide line through the anchor for each snapped axis and no other line |
| Canvas.AnchorOnBasis | src/editor/canvas.rs:739-764 | Each coordinate of the dragged anchor is the pointer's own or a key coordinate of some basis rectangle |
| Canvas.AnchorSnapIgnoresRect | src/editor/canvas.rs:739-764 | The anchor snap depends on the anchor alone, not on the other candidates of the request |
| Canvas.CommitAnchor | src/editor/canvas.rs:861-880 | Without ctrl the anchor follows the pointer, and with ctrl but no drag-start anchor it stays. With ctrl it takes the pointer's x and keeps the drag-start y when the pointer moved strictly further in x than in y since drag start. Otherwise, ties included, it takes the pointer's y and keeps the drag-start x. The displacement is the larger of the two |
| Canvas.EditorSession.RememberSlotDrag | src/editor/canvas.rs:293-302 | The slot drag memo is taken once, at the first frame with a pointer, and kept afterwards |
| Canvas.EditorSession.RememberAnchorDrag | src/editor/canvas.rs:536-538 | The drag-start anchor is remembered once |
| Canvas.EditorSession.EndFrame | src/editor/canvas.rs:885-891 | A memo whose drag did not continue this frame is dropped; the other is kept |
| EditorActions.Raised | src/editor/actions.rs:1032-1040 | The first occurrence at i > 0 swaps with i−1, the rest stays; absent or at 0 the vector is unchanged |
| EditorActions.Lowered | src/editor/actions.rs:1008-1016 | The first occurrence at i < len−1 swaps with i+1, the rest stays; otherwise the vector is unchanged |
| EditorActions.RaisedTop | src/editor/actions.rs:1042-1052 | A present element comes first and the others keep their relative order; an absent one changes nothing |
| EditorActions.LoweredBottom | src/editor/actions.rs:1018-1030 | A present element comes last and the others keep their relative order; an absent one changes nothing |
| EditorActions.MovesArePermutations | src/editor/actions.rs:1008-1052 | All four moves preserve the multiset of elements |
| EditorActions.LowerUndoesRaise | src/editor/actions.rs:1008-1040 | Lowering an element just raised restores the vector |
| EditorActions.RaiseUndoesLower | src/editor/actions.rs:1008-1040 | In a duplicate-free vector, raising an element just lowered restores it |
| EditorActions.RaiseTopIdempotent | src/editor/actions.rs:1042-1052 | Raising to the top twice equals raising once |
| EditorActions.RaiseInVec | src/editor/actions.rs:1032-1040 | The in-place swap equals `Raised` |
| EditorActions.LowerInVec | src/editor/actions.rs:1008-1016 | The in-place swap equals `Lowered` |
| EditorActions.RaiseTopInVec | src/editor/actions.rs:1042-1052 | remove then insert(0), shifting the prefix in place, equals `RaisedTop` |
| EditorActions.LowerBottomInVec | src/editor/actions.rs:1018-1030 | remove then push, shifting the suffix in place, equals `LoweredBottom` |
| EditorActions.Added | src/editor/actions.rs:636-643 | The existing candidates stay as a prefix, and afterwards an id is present iff it was present or is one of the added ids |
| EditorActions.AddedDistinct | src/editor/actions.rs:636-643 | Adding keeps a duplicate-free list duplicate-free |
| EditorActions.AddedOrder | src/editor/actions.rs:637-643 | The appended ids are new input ids, in the order of their first appearance in the input |
| EditorActions.Confirmed | src/editor/actions.rs:118-134 | A selected slot ends up containing the fragment, with its old list as a prefix and one element more exactly when the fragment was absent; an unselected slot loses the fragment's first occurrence |
| EditorActions.ConfirmedMatchesSelection | src/editor/actions.rs:118-134 | For a duplicate-free list, afterwards the fragment is present iff the slot was selected, and the list stays duplicate-free |
| EditorActions.Editor.TargetOf | src/editor/actions.rs:626-634 | The edited list is the named slot's when that slot exists, and the adapter slot's otherwise; there is none only when neither exists |
| EditorActions.Editor.SlotAddCandidates | src/editor/actions.rs:625-645 | The target list becomes `Added`(list, fragments), and every other list is unchanged |
| EditorActions.Editor.SlotRemoveCandidate | src/editor/actions.rs:811-827 | The target list loses only the first occurrence of the fragment, and every other list is unchanged |
| EditorActions.ConfirmAll | src/editor/actions.rs:116-134 | The loop over the slots gives every slot the list `Confirmed` for its selection, and no slot is added or lost |
| EditorActions.Editor.AssociatedSlotsConfirm | src/editor/actions.rs:114-138 | With an id, every slot's list becomes `Confirmed` for its selection, and the selection is cleared; without an id nothing changes |
| EditorActions.Editor.ViewportZoomTo | src/editor/actions.rs:898-902 | The scale becomes s only when 0.1 < s < 10, otherwise it is unchanged; a scale in range stays in range |
| Seqs.FirstIndex | src/editor/actions.rs:823 | `position` finds the first occurrence, or None exactly when the element is absent |
| Seqs.Position | src/fixed_vec.rs:36 | The scanning loop returns the first occurrence |
| Seqs.RemoveAt | src/editor/actions.rs:824 | `remove(i)` shifts the suffix one place left and keeps the prefix |
| Seqs.RemoveFirstMultiset | src/editor/actions.rs:823-825 | Removing the first occurrence takes exactly one copy out of the multiset |
| Seqs.RemoveFirstDistinct | src/editor/actions.rs:823-825 | In a duplicate-free list, removing an element removes it altogether and keeps the rest |
| FixedVector.Truncate | src/fixed_vec.rs:42-44 | Popping from the back down to the capacity keeps a prefix of exactly the capacity's length when the list is longer, and keeps a list that already fits |
| FixedVector.PushedFront | src/fixed_vec.rs:35-40 | After a push with capacity ≥ 1, the value is at index 0 |
| FixedVector.PushedBounded | src/fixed_vec.rs:42-44 | After a push the length is at most the capacity |
| FixedVector.PushedDistinct | src/fixed_vec.rs:36-40 | A push keeps a duplicate-free list duplicate-free; below capacity it loses nothing but the earlier copy of the value |
| FixedVector.PushIdempotent | src/fixed_vec.rs:35-45 | Pushing the newest value again changes nothing |
| FixedVector.FixedVec.constructor | src/fixed_vec.rs:16-21 | `new(c)` is empty with capacity c |
| FixedVector.FixedVec.Clear | src/fixed_vec.rs:23-25 | `clear` empties the data and keeps the capacity |
| FixedVector.FixedVec.Len | src/fixed_vec.rs:31-33 | The length of a list that respects its capacity is at most the capacity |
| FixedVector.FixedVec.Push | src/fixed_vec.rs:35-45 | The list becomes the value, then the old list without its first copy of the value, in the old order, cut to the capacity |
| FixedVector.FixedVec.Resize | src/fixed_vec.rs:47-53 | The capacity becomes the size, and the data is cut to it only when longer |
| ViewerUi.PrevIndex | src/viewer/ui.rs:240-247 | Prev steps back. Below zero, a required slot or a step back from −1 wraps to len−1, and an optional slot at 0 gives −1 |
| ViewerUi.NextIndex | src/viewer/ui.rs:306-311 | Next steps forward. Past the last candidate it becomes 0 for a required slot and −1 otherwise |
| ViewerUi.OptionalStaysInRange | src/viewer/ui.rs:240-311 | On an optional slot both buttons keep the index within −1..len−1 |
| ViewerUi.RequiredStaysSelected | src/viewer/ui.rs:240-311 | On a required slot with candidates both buttons leave a candidate selected |
| ViewerUi.PrevNextInverse | src/viewer/ui.rs:240-311 | On an optional slot, Prev undoes Next and Next undoes Prev |
| ViewerUi.PrevNextInverseRequired | src/viewer/ui.rs:240-311 | On a required slot, Prev undoes Next and Next undoes Prev at every candidate |
| ViewerUi.NextTimesFromNone | src/viewer/ui.rs:306-311 | From −1, n ≤ len Next presses on an optional slot reach n−1 |
| ViewerUi.NextCycle | src/viewer/ui.rs:306-311 | From −1, len+1 Next presses on an optional slot visit every candidate and return to −1 |
| ViewerUi.Label | src/viewer/ui.rs:263-295 | A missing entry gives "index not found" and < −1 gives "not valid". −1 gives "-", or "fragment required" on a required slot. A candidate that exists shows its description, or "-" when the description is empty. Anything else gives "fragment not found" |
| ViewerUi.RequiredLabelAfterPress | src/viewer/ui.rs:240-295 | After a press on a required slot whose candidates all exist, the label is never an error |
| ViewerUi.NatToString | src/viewer/ui.rs:434 | The decimal rendering of an id is a non-empty string of digits |
| ViewerUi.ParseNatToString | src/viewer/ui.rs:434 | The decimal rendering reads back as the id |
| ViewerUi.Title | src/viewer/ui.rs:431-443 | The description when it is not empty, "Unnamed <kind> - <id>" otherwise |
| ViewerUi.MapDollTitle | src/viewer/ui.rs:431-436 | An unnamed doll's title is "Unnamed Doll - " followed by digits that read back as its id |
| ViewerUi.MapSlotTitle | src/viewer/ui.rs:438-443 | An unnamed slot's title is "Unnamed Slot - " followed by digits that read back as its id |
| ViewerUi.TitlesDistinguishIds | src/viewer/ui.rs:431-443 | Unnamed titles are never empty, and distinct ids give distinct titles |
| ViewerApp.ChangedSlotMap | src/viewer/actions.rs:62-77 | An index in range maps the slot to that candidate. A negative or out-of-range index, or an unknown slot, removes the slot's entry |
| ViewerApp.LoadIsConsistent | src/viewer/actions.rs:35-53 | After a load, the index map covers exactly the project's slots, and no entry of an old project survives. A slot is shown exactly when it is required and has a candidate, and then it shows its first one. Index and slot map agree |
| ViewerApp.PressThenChangeConsistent | src/viewer/actions.rs:62-77 | A button press followed by the SlotFragmentChanged it queues keeps index map and slot map in agreement |
| ViewerApp.UnloadKeepsSelection | src/viewer/actions.rs:28-33 | PpdChanged(None) drops the project and changes nothing else |
| ViewerApp.Viewer.PressPrev | src/viewer/ui.rs:240-253 | The slot's index becomes `PrevIndex` and the matching SlotFragmentChanged is queued; an unknown slot changes nothing |
| ViewerApp.Viewer.PressNext | src/viewer/ui.rs:306-317 | The slot's index becomes `NextIndex` and the matching SlotFragmentChanged is queued; an unknown slot changes nothing |
| ViewerApp.InitialMaps | src/viewer/actions.rs:39-53 | From cleared maps, the insert loop gives every slot index −1, then 0 with its first candidate shown when it is required and has one: exactly `InitialIndexMap` and `InitialSlotMap` |
| ViewerApp.Viewer.HandlePpdChanged | src/viewer/actions.rs:28-61 | A project resets the doll and rebuilds both maps, and no project only drops the current one: the state `Step` gives for PpdChanged |
| ViewerApp.Viewer.HandleSlotFragmentChanged | src/viewer/actions.rs:62-77 | The map update leaves the state `Step` gives for SlotFragmentChanged |
| ViewerApp.Viewer.HandleActions | src/viewer/actions.rs:17-80 | Draining the queue front to back leaves the state `Run` gives for the queued actions, and an empty queue |
| Common.FitSize | src/common.rs:23-36 | The size fits the container and is never larger than the input. It keeps the input's aspect ratio. It is the input itself when that fits, and otherwise touches the container on at least one side |
| Common.KeepClipped | src/common.rs:25-28 | When the clipped size already has the ratio, it is the answer |
| Common.ShrinkHeight | src/common.rs:30-32 | When the clipped size is too tall for the ratio, re-deriving the height meets the fit guarantees, with the width at the container's |
| Common.ShrinkWidth | src/common.rs:34-36 | When the clipped size is too wide for the ratio, re-deriving the width meets the fit guarantees, with the height at the container's |
| Common.AllocateSizeCenterInRect | src/common.rs:22-42 | The rectangle has the fitted size, is centred on the container's center, and has max = min + size |

## Left out

- IEEE f32 arithmetic. Coordinates are exact reals, so rounding error, NaN and infinity are not modelled.
- `Pos2::distance`. Distances are compared as squares, which orders points the same way.
- Painting, hit-testing, cursor icons and the `control_point` interaction plumbing. The pointer position and the dragged handle (or the dragged body) are inputs to the frame (`Drag`).
- Both the body and a handle dragged in the same frame. This is modelled as one or the other.
- The `CanvasState` transitions and the `CanvasStateChanged` action. They only tell the UI what is happening.
- `determine_doll_rect`, `drag_move` and the secondary-button viewport pan. The first two are not part of this model. The doll rectangle, the scale and the tolerance are parameters.
- `snap_input` and `ratio_keep_options` carry over from one position of the active slot to the next within a frame. The values they carry in are parameters of the frame.
- The copy of the committed positions and size back into the slot (`src/editor/canvas.rs:853-859`). It is a plain assignment.
- Canvas.RawFrame: requires a non-zero scale. The zoom clamp keeps the scale within 0.1..10.
- Canvas.RawFrame: requires a positive aspect ratio. A slot of height 0 would give f32 infinity or NaN, which the reals do not have.
- Canvas.RawFrame: the drag-start memo must cover the edited index, because the source indexes `origins[position_index]`.
- Canvas.MoveFrame: requires a non-zero scale and a memo covering the edited index, as for `RawFrame`.
- Canvas.ResizeFrame: requires a positive aspect ratio, as for `RawFrame`.
- Common.FitSize: requires positive input and container sizes. A zero height would divide by zero in f32.
- Common.AllocateSizeCenterInRect: requires positive input and container sizes, for the same reason.
- The fragment descriptions and the rest of the project, for the label and the titles. They are reduced to a map from fragment id to description and the entity's own `desc` and id.
- The iteration order of the `align_basis_slots` `HashSet` (`src/editor/canvas.rs:923`). It decides which basis key point wins under last-match-wins; the model takes the basis slots as a sequence parameter (`Basis.ids`), so every order is covered.
- The iteration order of `HashMap`s in `PpdChanged` and `AssociatedSlotsConfirm`. It is an arbitrary choice of the next key, and the proved results do not depend on it.
- `AppQuit` and `FileOpen` in the viewer's queue. They act outside the modelled state: closing the window, and a file dialog whose result comes back as `PpdChanged`.
- Texture upload on load, and the serde (de)serialisation of `FixedVec`, which leaves the capacity at 0.
- The remaining `handle_actions` arms of the editor: window toggles, the factory add/remove operations and dialogs. Their behaviour lives in an external library.
- `FixedVec::iter`. It only exposes the data.
- `Canvas.EditorSession.constructor`, `EditorActions.Editor.constructor` and `ViewerApp.Viewer.constructor` describe the state these handlers start from. The source builds it in code that is not part of this model.
