/** allocate_size_center_in_rect (src/common.rs): the largest rectangle of a
    given aspect ratio that fits a container without being scaled up,
    centred in the container. */
module Common {
  import opened Prelude
  import opened Geometry

  /** The fitted size: each side is first clipped to the container, then the
      side that lost less is shrunk back to the original ratio, judged by the
      ratio of the clipped size. */
  function FitSize(width: real, height: real, cw: real, ch: real): (s: (real, real))
    requires width > 0.0 && height > 0.0 && cw > 0.0 && ch > 0.0
    ensures FitSpec(width, height, cw, ch, s)
  {
    var originAspectRatio := width / height;
    var w := MinReal(width, cw);
    var h := MinReal(height, ch);
    var newAspectRatio := w / h;
    RatioOrder(w, h, width, height);
    if newAspectRatio < originAspectRatio then
      ShrinkHeight(width, height, cw, ch, w, h);
      (w, w / originAspectRatio)
    else if newAspectRatio > originAspectRatio then
      ShrinkWidth(width, height, cw, ch, w, h);
      (h * originAspectRatio, h)
    else
      KeepClipped(width, height, cw, ch, w, h);
      (w, h)
  }

  /** What the fitted size promises: it fits the container, is never larger
      than the original, keeps its aspect ratio, is the original when that
      fits, and otherwise touches the container on at least one side. */
  predicate FitSpec(width: real, height: real, cw: real, ch: real, s: (real, real))
  {
    && 0.0 < s.0 <= cw && 0.0 < s.1 <= ch
    && s.0 <= width && s.1 <= height
    && s.0 * height == width * s.1
    && (width <= cw && height <= ch ==> s == (width, height))
    && (width > cw || height > ch ==> s.0 == cw || s.1 == ch)
  }

  /** The clipped size already has the ratio. */
  lemma KeepClipped(width: real, height: real, cw: real, ch: real, w: real, h: real)
    requires width > 0.0 && height > 0.0 && cw > 0.0 && ch > 0.0
    requires w == MinReal(width, cw) && h == MinReal(height, ch)
    requires w * height == width * h
    ensures FitSpec(width, height, cw, ch, (w, h))
  {
  }

  /** The clipped size is too tall for the ratio: the height is re-derived. */
  lemma ShrinkHeight(width: real, height: real, cw: real, ch: real, w: real, h: real)
    requires width > 0.0 && height > 0.0 && cw > 0.0 && ch > 0.0
    requires w == MinReal(width, cw) && h == MinReal(height, ch)
    requires w * height < width * h
    ensures FitSpec(width, height, cw, ch, (w, w / (width / height)))
  {
    var h' := w / (width / height);
    assert h' * width == w * height;
    MulLess(h', h, width);
    MulLess(w, width, height);
    MulLess(h, height, width);
    assert w * height < width * height;
    MulLess(h', height, width);
    MulLess(0.0, h', width);
  }

  /** The clipped size is too wide for the ratio: the width is re-derived. */
  lemma ShrinkWidth(width: real, height: real, cw: real, ch: real, w: real, h: real)
    requires width > 0.0 && height > 0.0 && cw > 0.0 && ch > 0.0
    requires w == MinReal(width, cw) && h == MinReal(height, ch)
    requires w * height > width * h
    ensures FitSpec(width, height, cw, ch, (h * (width / height), h))
  {
    var w' := h * (width / height);
    assert w' * height == h * width;
    MulLess(w', w, height);
    MulLess(h, height, width);
    MulLess(w, width, height);
    assert h * width < height * width;
    MulLess(w', width, height);
    MulLess(0.0, w', height);
  }

  lemma MulLess(a: real, b: real, c: real)
    requires c > 0.0
    ensures a * c < b * c <==> a < b
    ensures a * c <= b * c <==> a <= b
    ensures c * a < c * b <==> a < b
    ensures c * a <= c * b <==> a <= b
  {
    assert b * c - a * c == (b - a) * c;
    if b - a > 0.0 { assert (b - a) * c > 0.0; }
    if b - a < 0.0 { assert (b - a) * c < 0.0; }
    if b - a == 0.0 { assert (b - a) * c == 0.0; }
  }

  /** Ratios compared as cross products. */
  lemma RatioOrder(a: real, b: real, c: real, d: real)
    requires b > 0.0 && d > 0.0
    ensures a / b < c / d <==> a * d < c * b
    ensures a / b > c / d <==> a * d > c * b
    ensures a / b == c / d <==> a * d == c * b
  {
    assert a / b - c / d == (a * d - c * b) / (b * d);
    SignOfQuotient(a * d - c * b, b * d);
  }

  lemma SignOfQuotient(x: real, y: real)
    requires y > 0.0
    ensures x / y < 0.0 <==> x < 0.0
    ensures x / y > 0.0 <==> x > 0.0
  {
    var q := x / y;
    assert q * y == x;
    if q < 0.0 { assert q * y < 0.0; }
    if q > 0.0 { assert q * y > 0.0; }
    if q == 0.0 { assert q * y == 0.0; }
  }

  function AllocateSizeCenterInRect(width: real, height: real, container: Rect): (r: Rect)
    requires width > 0.0 && height > 0.0 && Width(container) > 0.0 && Height(container) > 0.0
    ensures FitSpec(width, height, Width(container), Height(container), (Width(r), Height(r)))
    ensures CenterX(r) == CenterX(container) && CenterY(r) == CenterY(container)
    ensures r.max == Add(r.min, Pos(Width(r), Height(r)))
  {
    var (w, h) := FitSize(width, height, Width(container), Height(container));
    var min := Sub(Pos(CenterX(container), CenterY(container)), Pos(w * 0.5, h * 0.5));
    Rect(min, Add(min, Pos(w, h)))
  }
}
