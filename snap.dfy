/** The snap engine of the slot editor (src/editor/canvas/snap.rs).

    Four named candidate points (min, max, center, anchor), each with a
    snap mode, are compared with the nine key points of every basis
    rectangle. On an axis the mode allows, a key coordinate within the
    tolerance is recorded; on any other axis only an exactly equal one is.
    Later key points overwrite earlier records: the last match wins. */
module Snap {
  import opened Prelude
  import opened Geometry

  /** SnapType: which axes a candidate may snap on. */
  datatype SnapType = DisplayOnly | X | Y | Both

  /** True when mode `m` lets a candidate snap (within tolerance) on axis `a`. */
  predicate Snaps(m: SnapType, a: Axis)
  {
    m == Both || (a == AxisX && m == X) || (a == AxisY && m == Y)
  }

  /** One entry of SnapInput: the candidate point and its mode. */
  datatype Candidate = Candidate(point: Pos, mode: SnapType)

  datatype SnapInput = SnapInput(min: Candidate, max: Candidate, center: Candidate, anchor: Candidate)

  /** The snapped x and y of one candidate, if any. */
  datatype SnapPointResult = SnapPointResult(x: Option<real>, y: Option<real>)

  datatype SnapOutput = SnapOutput(min: SnapPointResult, max: SnapPointResult,
                                   center: SnapPointResult, anchor: SnapPointResult)

  /** SnapPointResult::default() and SnapOutput::default(). */
  const NoSnap := SnapPointResult(None, None)
  const NoOutput := SnapOutput(NoSnap, NoSnap, NoSnap, NoSnap)

  /** The default entry of SnapInput: the origin in mode DisplayOnly. */
  const Unset := Candidate(Pos(0.0, 0.0), DisplayOnly)
  const DefaultInput := SnapInput(Unset, Unset, Unset, Unset)

  function ResultOn(r: SnapPointResult, a: Axis): Option<real>
  {
    match a
    case AxisX => r.x
    case AxisY => r.y
  }

  /** Whether key point `key` is recorded for candidate `c` on axis `a`:
      within tolerance where the mode allows the axis, exact equality elsewhere. */
  predicate HitsOn(key: Pos, c: Candidate, tol: real, a: Axis)
  {
    if Snaps(c.mode, a) then Abs(Coord(c.point, a) - Coord(key, a)) <= tol
    else Coord(c.point, a) == Coord(key, a)
  }

  /** apply_snap: compares one candidate with one key point and updates its result.
      Whatever the mode, a hit records the key's coordinate and a miss keeps the
      earlier record. */
  function ApplySnap(key: Pos, point: Pos, mode: SnapType, tol: real, result: SnapPointResult): (r: SnapPointResult)
    ensures r.x == if HitsOn(key, Candidate(point, mode), tol, AxisX) then Some(key.x) else result.x
    ensures r.y == if HitsOn(key, Candidate(point, mode), tol, AxisY) then Some(key.y) else result.y
  {
    match mode
    case DisplayOnly =>
      SnapPointResult(if point.x == key.x then Some(point.x) else result.x,
                      if point.y == key.y then Some(point.y) else result.y)
    case X =>
      SnapPointResult(if Abs(point.x - key.x) <= tol then Some(key.x) else result.x,
                      if point.y == key.y then Some(point.y) else result.y)
    case Y =>
      SnapPointResult(if point.x == key.x then Some(point.x) else result.x,
                      if Abs(point.y - key.y) <= tol then Some(key.y) else result.y)
    case Both =>
      SnapPointResult(if Abs(point.x - key.x) <= tol then Some(key.x) else result.x,
                      if Abs(point.y - key.y) <= tol then Some(key.y) else result.y)
  }

  /** snap_to_point: one key point against all four candidates. */
  function SnapToPoint(key: Pos, input: SnapInput, out: SnapOutput, tol: real): SnapOutput
  {
    SnapOutput(ApplySnap(key, input.min.point, input.min.mode, tol, out.min),
               ApplySnap(key, input.max.point, input.max.mode, tol, out.max),
               ApplySnap(key, input.center.point, input.center.mode, tol, out.center),
               ApplySnap(key, input.anchor.point, input.anchor.mode, tol, out.anchor))
  }

  /** The nine key points of a basis rectangle, in the order drag_snap visits
      them: center, left-top, center-top, right-top, right-center,
      right-bottom, center-bottom, left-bottom, left-center. */
  function KeyPoints(r: Rect): (ks: seq<Pos>)
    ensures |ks| == 9
  {
    var l, c, rt := r.min.x, CenterX(r), r.max.x;
    var t, m, b := r.min.y, CenterY(r), r.max.y;
    [Pos(c, m), Pos(l, t), Pos(c, t), Pos(rt, t), Pos(rt, m),
     Pos(rt, b), Pos(c, b), Pos(l, b), Pos(l, m)]
  }

  /** The nine key points are exactly the grid of the three x coordinates
      (left, center, right) and the three y coordinates (top, center, bottom). */
  lemma KeyPointsAreGrid(r: Rect)
    ensures forall k :: k in KeyPoints(r) <==>
      (k.x == r.min.x || k.x == CenterX(r) || k.x == r.max.x) &&
      (k.y == r.min.y || k.y == CenterY(r) || k.y == r.max.y)
  {
  }

  /** All key points of a list of basis rectangles, rectangle by rectangle. */
  function KeyPointsOf(rects: seq<Rect>): (ks: seq<Pos>)
    ensures |ks| == 9 * |rects|
  {
    if rects == [] then []
    else KeyPointsOf(rects[..|rects| - 1]) + KeyPoints(rects[|rects| - 1])
  }

  /** Every key point in the flattened list belongs to some basis rectangle:
      the l-th one is key point l % 9 of rectangle l / 9. */
  lemma {:induction false} KeyPointOrigin(rects: seq<Rect>, l: nat)
    requires l < |KeyPointsOf(rects)|
    ensures 0 <= l / 9 < |rects| && KeyPointsOf(rects)[l] == KeyPoints(rects[l / 9])[l % 9]
    decreases |rects|
  {
    var n := |rects| - 1;
    if l < 9 * n {
      KeyPointOrigin(rects[..n], l);
      assert rects[..n][l / 9] == rects[l / 9];
    } else {
      assert l / 9 == n && l % 9 == l - 9 * n;
    }
  }

  /** The record of one candidate after visiting `keys` in order, starting from `init`. */
  function SnapPoint(init: SnapPointResult, keys: seq<Pos>, c: Candidate, tol: real): SnapPointResult
    decreases |keys|
  {
    if keys == [] then init
    else ApplySnap(keys[|keys| - 1], c.point, c.mode, tol, SnapPoint(init, keys[..|keys| - 1], c, tol))
  }

  /** The whole output after visiting `keys` in order, starting from `init`. */
  function SnapAll(init: SnapOutput, keys: seq<Pos>, input: SnapInput, tol: real): SnapOutput
    decreases |keys|
  {
    if keys == [] then init
    else SnapToPoint(keys[|keys| - 1], input, SnapAll(init, keys[..|keys| - 1], input, tol), tol)
  }

  /** What drag_snap returns. */
  function DragSnapSpec(input: SnapInput, rects: seq<Rect>, tol: real): SnapOutput
  {
    SnapAll(NoOutput, KeyPointsOf(rects), input, tol)
  }

  /** drag_snap: the loop over the basis rectangles and their nine key points. */
  method DragSnap(input: SnapInput, basisRects: seq<Rect>, tol: real) returns (output: SnapOutput)
    ensures output == DragSnapSpec(input, basisRects, tol)
    ensures basisRects == [] ==> output == NoOutput
  {
    output := NoOutput;
    for i := 0 to |basisRects|
      invariant output == SnapAll(NoOutput, KeyPointsOf(basisRects[..i]), input, tol)
    {
      output := SnapRect(basisRects[i], input, output, tol);
      assert basisRects[..i + 1][..i] == basisRects[..i];
      SnapAllAppend(NoOutput, KeyPointsOf(basisRects[..i]), KeyPoints(basisRects[i]), input, tol);
    }
    assert basisRects[..|basisRects|] == basisRects;
  }

  /** The body of drag_snap's loop: snap_to_point at each key point of one rectangle. */
  method SnapRect(rect: Rect, input: SnapInput, init: SnapOutput, tol: real) returns (output: SnapOutput)
    ensures output == SnapAll(init, KeyPoints(rect), input, tol)
  {
    var keys := KeyPoints(rect);
    output := init;
    for j := 0 to 9
      invariant output == SnapAll(init, keys[..j], input, tol)
    {
      output := SnapToPoint(keys[j], input, output, tol);
      assert keys[..j + 1][..j] == keys[..j];
    }
    assert keys[..9] == keys;
  }

  /** Visiting two lists of key points one after the other is visiting their concatenation. */
  lemma {:induction false} SnapAllAppend(init: SnapOutput, a: seq<Pos>, b: seq<Pos>, input: SnapInput, tol: real)
    ensures SnapAll(init, a + b, input, tol) == SnapAll(SnapAll(init, a, input, tol), b, input, tol)
  {
    if b == [] {
      assert a + b == a;
    } else {
      var n := |b| - 1;
      assert (a + b)[..|a + b| - 1] == a + b[..n];
      SnapAllAppend(init, a, b[..n], input, tol);
    }
  }

  // ---------------------------------------------------------------------
  // Properties of one candidate's fold

  /** When no key point hits on an axis, the earlier record there is kept. */
  lemma {:induction false} NoHitKeeps(init: SnapPointResult, keys: seq<Pos>, c: Candidate, tol: real, a: Axis)
    requires forall l :: 0 <= l < |keys| ==> !HitsOn(keys[l], c, tol, a)
    ensures ResultOn(SnapPoint(init, keys, c, tol), a) == ResultOn(init, a)
  {
    if keys != [] {
      NoHitKeeps(init, keys[..|keys| - 1], c, tol, a);
    }
  }

  /** The last hitting key point decides the record, and the record is
      exactly that key's coordinate: snapping jumps, it does not ease. */
  lemma {:induction false} LastHitWins(init: SnapPointResult, keys: seq<Pos>, c: Candidate, tol: real, a: Axis, j: nat)
    requires j < |keys| && HitsOn(keys[j], c, tol, a)
    requires forall l :: j < l < |keys| ==> !HitsOn(keys[l], c, tol, a)
    ensures ResultOn(SnapPoint(init, keys, c, tol), a) == Some(Coord(keys[j], a))
  {
    if j < |keys| - 1 {
      LastHitWins(init, keys[..|keys| - 1], c, tol, a, j);
    }
  }

  /** A key point that hits leaves a record on that axis, whatever follows it. */
  lemma {:induction false} HitRecords(init: SnapPointResult, keys: seq<Pos>, c: Candidate, tol: real, a: Axis, j: nat)
    requires j < |keys| && HitsOn(keys[j], c, tol, a)
    ensures ResultOn(SnapPoint(init, keys, c, tol), a).Some?
  {
    var n := |keys| - 1;
    if j < n {
      assert keys[..n][j] == keys[j];
      HitRecords(init, keys[..n], c, tol, a, j);
    }
  }

  /** Records are never reset to None once set. */
  lemma {:induction false} RecordsPersist(init: SnapPointResult, keys: seq<Pos>, c: Candidate, tol: real, a: Axis)
    requires ResultOn(init, a).Some?
    ensures ResultOn(SnapPoint(init, keys, c, tol), a).Some?
  {
    if keys != [] {
      RecordsPersist(init, keys[..|keys| - 1], c, tol, a);
    }
  }

  /** A record is the initial one or the coordinate of a key point that hit. */
  lemma {:induction false} RecordFromKey(init: SnapPointResult, keys: seq<Pos>, c: Candidate, tol: real, a: Axis)
    ensures var r := ResultOn(SnapPoint(init, keys, c, tol), a);
      r == ResultOn(init, a) ||
      exists l :: 0 <= l < |keys| && HitsOn(keys[l], c, tol, a) && r == Some(Coord(keys[l], a))
  {
    if keys != [] {
      var n := |keys| - 1;
      RecordFromKey(init, keys[..n], c, tol, a);
      if !HitsOn(keys[n], c, tol, a) {
        var r := ResultOn(SnapPoint(init, keys[..n], c, tol), a);
        if r != ResultOn(init, a) {
          var l :| 0 <= l < n && HitsOn(keys[..n][l], c, tol, a) && r == Some(Coord(keys[..n][l], a));
          assert keys[..n][l] == keys[l];
        }
      }
    }
  }

  /** On an axis the mode does not allow, only exact matches are recorded, so
      the record is either absent or the candidate's own coordinate. */
  lemma {:induction false} UnsnappedAxisEchoes(init: SnapPointResult, keys: seq<Pos>, c: Candidate, tol: real, a: Axis)
    requires !Snaps(c.mode, a)
    requires ResultOn(init, a) == None || ResultOn(init, a) == Some(Coord(c.point, a))
    ensures var r := ResultOn(SnapPoint(init, keys, c, tol), a);
      r == None || r == Some(Coord(c.point, a))
  {
    if keys != [] {
      UnsnappedAxisEchoes(init, keys[..|keys| - 1], c, tol, a);
    }
  }

  // ---------------------------------------------------------------------
  // Lifting to the four candidates and to drag_snap

  /** The four entries of SnapInput / SnapOutput. */
  datatype Which = MinPoint | MaxPoint | CenterPoint | AnchorPoint

  function InputOf(input: SnapInput, w: Which): Candidate
  {
    match w
    case MinPoint => input.min
    case MaxPoint => input.max
    case CenterPoint => input.center
    case AnchorPoint => input.anchor
  }

  function OutputOf(out: SnapOutput, w: Which): SnapPointResult
  {
    match w
    case MinPoint => out.min
    case MaxPoint => out.max
    case CenterPoint => out.center
    case AnchorPoint => out.anchor
  }

  /** Each output entry is the fold of its own candidate alone. */
  lemma {:induction false} SnapAllPerCandidate(init: SnapOutput, keys: seq<Pos>, input: SnapInput, tol: real, w: Which)
    ensures OutputOf(SnapAll(init, keys, input, tol), w) == SnapPoint(OutputOf(init, w), keys, InputOf(input, w), tol)
  {
    if keys != [] {
      SnapAllPerCandidate(init, keys[..|keys| - 1], input, tol, w);
    }
  }

  /** Candidates are independent: output.min depends only on input.min, and
      likewise for max, center and anchor. */
  lemma CandidatesIndependent(input1: SnapInput, input2: SnapInput, rects: seq<Rect>, tol: real, w: Which)
    requires InputOf(input1, w) == InputOf(input2, w)
    ensures OutputOf(DragSnapSpec(input1, rects, tol), w) == OutputOf(DragSnapSpec(input2, rects, tol), w)
  {
    SnapAllPerCandidate(NoOutput, KeyPointsOf(rects), input1, tol, w);
    SnapAllPerCandidate(NoOutput, KeyPointsOf(rects), input2, tol, w);
  }

  /** Every snapped value is the coordinate of a key point of some basis rectangle. */
  lemma SnapValueFromBasis(input: SnapInput, rects: seq<Rect>, tol: real, w: Which, a: Axis, v: real)
    requires ResultOn(OutputOf(DragSnapSpec(input, rects, tol), w), a) == Some(v)
    ensures exists i, k :: 0 <= i < |rects| && k in KeyPoints(rects[i]) && Coord(k, a) == v
  {
    var keys := KeyPointsOf(rects);
    SnapAllPerCandidate(NoOutput, keys, input, tol, w);
    RecordFromKey(NoSnap, keys, InputOf(input, w), tol, a);
    var l :| 0 <= l < |keys| && HitsOn(keys[l], InputOf(input, w), tol, a) && Some(v) == Some(Coord(keys[l], a));
    KeyPointOrigin(rects, l);
    assert keys[l] in KeyPoints(rects[l / 9]);
  }

  /** Last match wins over all basis rectangles: if key point `l` of the
      flattened list hits and no later one does, the output is exactly its
      coordinate. */
  lemma SnapTakesLastMatch(input: SnapInput, rects: seq<Rect>, tol: real, w: Which, a: Axis, l: nat)
    requires l < |KeyPointsOf(rects)| && HitsOn(KeyPointsOf(rects)[l], InputOf(input, w), tol, a)
    requires forall m :: l < m < |KeyPointsOf(rects)| ==> !HitsOn(KeyPointsOf(rects)[m], InputOf(input, w), tol, a)
    ensures ResultOn(OutputOf(DragSnapSpec(input, rects, tol), w), a) == Some(Coord(KeyPointsOf(rects)[l], a))
  {
    SnapAllPerCandidate(NoOutput, KeyPointsOf(rects), input, tol, w);
    LastHitWins(NoSnap, KeyPointsOf(rects), InputOf(input, w), tol, a, l);
  }

  /** If no key point of any basis rectangle hits, the candidate stays unsnapped on that axis. */
  lemma NoMatchNoSnap(input: SnapInput, rects: seq<Rect>, tol: real, w: Which, a: Axis)
    requires forall m :: 0 <= m < |KeyPointsOf(rects)| ==> !HitsOn(KeyPointsOf(rects)[m], InputOf(input, w), tol, a)
    ensures ResultOn(OutputOf(DragSnapSpec(input, rects, tol), w), a) == None
  {
    SnapAllPerCandidate(NoOutput, KeyPointsOf(rects), input, tol, w);
    NoHitKeeps(NoSnap, KeyPointsOf(rects), InputOf(input, w), tol, a);
  }

  /** If some key point of some basis rectangle hits, the candidate is snapped on that axis. */
  lemma AnyMatchSnaps(input: SnapInput, rects: seq<Rect>, tol: real, w: Which, a: Axis, i: nat, key: Pos)
    requires i < |rects| && key in KeyPoints(rects[i]) && HitsOn(key, InputOf(input, w), tol, a)
    ensures ResultOn(OutputOf(DragSnapSpec(input, rects, tol), w), a).Some?
  {
    var j :| 0 <= j < 9 && KeyPoints(rects[i])[j] == key;
    var l := 9 * i + j;
    assert l < 9 * |rects|;
    KeyPointOrigin(rects, l);
    assert l / 9 == i && l % 9 == j;
    SnapAllPerCandidate(NoOutput, KeyPointsOf(rects), input, tol, w);
    HitRecords(NoSnap, KeyPointsOf(rects), InputOf(input, w), tol, a, l);
  }

  /** Mode gating: on an axis the mode does not allow (both axes for
      DisplayOnly, y for X, x for Y) the output is None or the input coordinate. */
  lemma ModeGating(input: SnapInput, rects: seq<Rect>, tol: real, w: Which, a: Axis)
    requires !Snaps(InputOf(input, w).mode, a)
    ensures var r := ResultOn(OutputOf(DragSnapSpec(input, rects, tol), w), a);
      r == None || r == Some(Coord(InputOf(input, w).point, a))
  {
    SnapAllPerCandidate(NoOutput, KeyPointsOf(rects), input, tol, w);
    UnsnappedAxisEchoes(NoSnap, KeyPointsOf(rects), InputOf(input, w), tol, a);
  }
}
