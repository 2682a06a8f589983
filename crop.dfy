/**
 * The crop-rectangle geometry of the face extractor: a detected face box is
 * widened by a margin proportional to its smaller side and then clamped to
 * the image, one edge at a time (left, top, right, bottom), as the cropper
 * of the video pipeline does before it resamples the region.
 */
module Crop {
  import opened Outcomes

  /** A face box as the detector reports it: top-left corner, width, height. */
  datatype Box = Box(x: int, y: int, w: int, h: int)

  /** The crop region handed back to the caller: top-left corner and extent. */
  datatype Region = Region(xa: int, ya: int, width: int, height: int)

  /** The margin, in percent of the smaller box side, that the frame loop asks for. */
  const CaptureMargin: int := 40

  function Min(a: int, b: int): int { if a <= b then a else b }
  function Max(a: int, b: int): int { if a >= b then a else b }

  /**
   * Python's `int(n * pct / 100)` on integers: true division followed by
   * truncation toward zero (not Dafny's Euclidean division).
   */
  function TruncatedPercent(n: int, pct: int): (q: int)
    ensures n * pct >= 0 ==> 0 <= 100 * q <= n * pct < 100 * q + 100
    ensures n * pct < 0 ==> 100 * q - 100 < n * pct <= 100 * q <= 0
  {
    var p := n * pct;
    if p >= 0 then p / 100 else -((-p) / 100)
  }

  /** The margin added on every side of a `w` by `h` box. */
  function Margin(w: int, h: int, pct: int): (m: int)
    ensures Min(w, h) >= 0 && pct >= 0 ==> 0 <= 100 * m <= Min(w, h) * pct < 100 * m + 100
  {
    TruncatedPercent(Min(w, h), pct)
  }

  /** The box that whole-frame mode substitutes for an absent section. */
  function Section(imgW: int, imgH: int, section: Option<Box>): Box {
    if section.None? then Box(0, 0, imgW, imgH) else section.value
  }

  /**
   * The crop region of `section` (the whole image when absent) in an image of
   * `imgW` by `imgH` pixels, with the four clamps applied in the source's
   * order: left, top, right, bottom.
   */
  function CropFace(imgW: int, imgH: int, section: Option<Box>, marginPct: int): (r: Region)
    ensures imgW >= 1 && imgH >= 1 && marginPct >= 0 && BoxNonNegative(section) ==>
      InImage(r, imgW, imgH)
  {
    var Box(x, y, w, h) := Section(imgW, imgH, section);
    var m := Margin(w, h, marginPct);
    var xa0, ya0, xb0, yb0 := x - m, y - m, x + w + m, y + h + m;
    // left overflow: move the right edge out by the overflow, capped at imgW - 1
    var xa1, xb1 := if xa0 < 0 then 0 else xa0, if xa0 < 0 then Min(xb0 - xa0, imgW - 1) else xb0;
    // top overflow: symmetric, capped at imgH - 1
    var ya1, yb1 := if ya0 < 0 then 0 else ya0, if ya0 < 0 then Min(yb0 - ya0, imgH - 1) else yb0;
    // right overflow: move the left edge in by the overflow, floored at 0
    var xa2, xb2 := if xb1 > imgW then Max(xa1 - (xb1 - imgW), 0) else xa1, if xb1 > imgW then imgW else xb1;
    // bottom overflow: symmetric
    var ya2, yb2 := if yb1 > imgH then Max(ya1 - (yb1 - imgH), 0) else ya1, if yb1 > imgH then imgH else yb1;
    Region(xa2, ya2, xb2 - xa2, yb2 - ya2)
  }

  /** The box has no negative side (true of the whole-image substitute too). */
  predicate BoxNonNegative(section: Option<Box>) {
    section.Some? ==> section.value.w >= 0 && section.value.h >= 0
  }

  /** The region lies inside the image and has no negative extent. */
  predicate InImage(r: Region, imgW: int, imgH: int) {
    0 <= r.xa && 0 <= r.width && r.xa + r.width <= imgW &&
    0 <= r.ya && 0 <= r.height && r.ya + r.height <= imgH
  }

  /**
   * One axis on its own: the near/far edges `(lo, hi)` of the widened box
   * after the near-edge clamp and then the far-edge clamp against `size`.
   */
  function ClampAxis(lo: int, hi: int, size: int): (r: (int, int))
    ensures size >= 1 && lo <= hi ==> 0 <= r.0 <= r.1 <= size
    ensures 0 <= lo && hi <= size ==> r == (lo, hi)
    ensures lo < 0 ==> r == (0, Min(hi - lo, size - 1))
    ensures 0 <= lo && hi > size ==> r == (Max(size - (hi - lo), 0), size)
  {
    var lo1, hi1 := if lo < 0 then 0 else lo, if lo < 0 then Min(hi - lo, size - 1) else hi;
    if hi1 > size then (Max(lo1 - (hi1 - size), 0), size) else (lo1, hi1)
  }

  /**
   * Axis independence: the x-part of the result depends only on the box's
   * x, w, the margin and the image width, and the y-part only on y, h, the
   * margin and the image height.
   */
  lemma CropAxisIndependence(imgW: int, imgH: int, section: Option<Box>, marginPct: int)
    ensures var b := Section(imgW, imgH, section);
            var m := Margin(b.w, b.h, marginPct);
            var xs := ClampAxis(b.x - m, b.x + b.w + m, imgW);
            var ys := ClampAxis(b.y - m, b.y + b.h + m, imgH);
            CropFace(imgW, imgH, section, marginPct) == Region(xs.0, ys.0, xs.1 - xs.0, ys.1 - ys.0)
  {
  }

  /** A widened box that lies wholly inside the image is returned unchanged. */
  lemma CropUnclamped(imgW: int, imgH: int, b: Box, marginPct: int)
    requires var m := Margin(b.w, b.h, marginPct);
             0 <= b.x - m && b.x + b.w + m <= imgW && 0 <= b.y - m && b.y + b.h + m <= imgH
    ensures var m := Margin(b.w, b.h, marginPct);
            CropFace(imgW, imgH, Some(b), marginPct) == Region(b.x - m, b.y - m, b.w + 2 * m, b.h + 2 * m)
  {
    CropAxisIndependence(imgW, imgH, Some(b), marginPct);
  }

  /** The worked example: a 50x50 face at (100, 100) in a 640x480 frame, margin 40. */
  lemma CropExample()
    ensures CropFace(640, 480, Some(Box(100, 100, 50, 50)), CaptureMargin) == Region(80, 80, 90, 90)
  {
    CropUnclamped(640, 480, Box(100, 100, 50, 50), CaptureMargin);
  }

  /**
   * Left overflow: the region starts at column 0 and its width is the widened
   * width capped at `imgW - 1`, so the last column is never included.
   */
  lemma CropLeftOverflow(imgW: int, imgH: int, b: Box, marginPct: int)
    requires b.x - Margin(b.w, b.h, marginPct) < 0
    ensures var r := CropFace(imgW, imgH, Some(b), marginPct);
            r.xa == 0 && r.width == Min(b.w + 2 * Margin(b.w, b.h, marginPct), imgW - 1)
  {
    CropAxisIndependence(imgW, imgH, Some(b), marginPct);
  }

  /** Top overflow: symmetric to left overflow, capped at `imgH - 1`. */
  lemma CropTopOverflow(imgW: int, imgH: int, b: Box, marginPct: int)
    requires b.y - Margin(b.w, b.h, marginPct) < 0
    ensures var r := CropFace(imgW, imgH, Some(b), marginPct);
            r.ya == 0 && r.height == Min(b.h + 2 * Margin(b.w, b.h, marginPct), imgH - 1)
  {
    CropAxisIndependence(imgW, imgH, Some(b), marginPct);
  }

  /**
   * Right overflow without left overflow: the left edge moves in by the
   * overflow, floored at 0, and the region ends at `imgW`.
   */
  lemma CropRightOverflowOnly(imgW: int, imgH: int, b: Box, marginPct: int)
    requires var m := Margin(b.w, b.h, marginPct); 0 <= b.x - m && b.x + b.w + m > imgW
    ensures var m := Margin(b.w, b.h, marginPct);
            var r := CropFace(imgW, imgH, Some(b), marginPct);
            r.xa == Max(imgW - (b.w + 2 * m), 0) && r.width == Min(b.w + 2 * m, imgW) &&
            r.xa + r.width == imgW
  {
    CropAxisIndependence(imgW, imgH, Some(b), marginPct);
  }

  /** Bottom overflow without top overflow: symmetric to right overflow. */
  lemma CropBottomOverflowOnly(imgW: int, imgH: int, b: Box, marginPct: int)
    requires var m := Margin(b.w, b.h, marginPct); 0 <= b.y - m && b.y + b.h + m > imgH
    ensures var m := Margin(b.w, b.h, marginPct);
            var r := CropFace(imgW, imgH, Some(b), marginPct);
            r.ya == Max(imgH - (b.h + 2 * m), 0) && r.height == Min(b.h + 2 * m, imgH) &&
            r.ya + r.height == imgH
  {
    CropAxisIndependence(imgW, imgH, Some(b), marginPct);
  }

  /**
   * Whole-frame mode: with a positive margin the left and top clamps cut the
   * region to `imgW - 1` by `imgH - 1`; with a zero margin it is the frame.
   */
  lemma CropWholeFrame(imgW: int, imgH: int, marginPct: int)
    requires imgW >= 1 && imgH >= 1 && marginPct >= 0
    ensures var m := Margin(imgW, imgH, marginPct);
            var r := CropFace(imgW, imgH, None, marginPct);
            (m > 0 ==> r == Region(0, 0, imgW - 1, imgH - 1)) &&
            (m == 0 ==> r == Region(0, 0, imgW, imgH))
  {
    CropAxisIndependence(imgW, imgH, None, marginPct);
  }

  /**
   * A box with positive sides gets a region of positive extent as long as
   * the image is at least 2 pixels in each direction.
   */
  lemma CropPositiveExtent(imgW: int, imgH: int, b: Box, marginPct: int)
    requires imgW >= 2 && imgH >= 2 && b.w > 0 && b.h > 0 && marginPct >= 0
    ensures var r := CropFace(imgW, imgH, Some(b), marginPct); r.width > 0 && r.height > 0
  {
    CropAxisIndependence(imgW, imgH, Some(b), marginPct);
  }

  /**
   * In a one-pixel-wide image a left overflow leaves a region of width 0,
   * however large the box: the left clamp caps the far edge at `imgW - 1`.
   */
  lemma CropOnePixelWide(imgH: int, b: Box, marginPct: int)
    requires b.w >= 0 && b.h >= 0 && marginPct >= 0
    requires b.x - Margin(b.w, b.h, marginPct) < 0
    ensures CropFace(1, imgH, Some(b), marginPct).width == 0
  {
    CropLeftOverflow(1, imgH, b, marginPct);
  }

  /**
   * The extraction loop of one frame: the crop region of every detected face,
   * in detector order, at the frame loop's margin.
   */
  method CropFaces(imgW: int, imgH: int, faces: seq<Box>) returns (regions: seq<Region>)
    ensures |regions| == |faces|
    ensures forall i :: 0 <= i < |faces| ==> regions[i] == CropFace(imgW, imgH, Some(faces[i]), CaptureMargin)
    ensures imgW >= 1 && imgH >= 1 && (forall b | b in faces :: b.w >= 0 && b.h >= 0) ==>
      forall i :: 0 <= i < |regions| ==> InImage(regions[i], imgW, imgH)
  {
    regions := [];
    var i := 0;
    while i < |faces|
      invariant 0 <= i <= |faces|
      invariant |regions| == i
      invariant forall j :: 0 <= j < i ==> regions[j] == CropFace(imgW, imgH, Some(faces[j]), CaptureMargin)
    {
      regions := regions + [CropFace(imgW, imgH, Some(faces[i]), CaptureMargin)];
      i := i + 1;
    }
  }
}
