/** The raster primitives: a clipped single-pixel write into the flat
    row-major frame, the eight-way symmetric point plot, and the arc sweep
    built on it. The frame is a value (`seq<Color>`) and every primitive
    returns the frame it leaves behind. */
module Helper {
  import opened Machine

  const Width: nat := 1512
  const Height: nat := 720
  const Pitch: nat := 1
  const FrameLength: nat := Width * Height

  /** A packed 0xAARRGGBB colour. */
  type Color = U32

  /** A pixel position; signed so that the lines' `i32` points fit too. */
  type Pixel = (int, int)

  predicate IsFrame(buf: seq<Color>) {
    |buf| == FrameLength
  }

  predicate InCanvas(p: Pixel) {
    0 <= p.0 < Width && 0 <= p.1 < Height
  }

  /** The pixel shown by flat index `i` of a row-major frame. */
  function CoordOf(i: nat): Pixel {
    (i % Width, i / Width)
  }

  /** `after` is `before` with exactly the pixels of `pts` that lie on the
      canvas set to `color`; points off the canvas change nothing. */
  ghost predicate Painted(before: seq<Color>, after: seq<Color>, pts: seq<Pixel>, color: Color) {
    && |after| == |before|
    && forall i | 0 <= i < |after| :: after[i] == if CoordOf(i) in pts then color else before[i]
  }

  /** Every index of a frame shows an on-canvas pixel. */
  lemma CoordOfInCanvas(i: nat)
    requires i < FrameLength
    ensures InCanvas(CoordOf(i))
  {
  }

  /** On the canvas, row-major indexing and CoordOf are inverse to each other. */
  lemma CoordOfIndex(p: Pixel, i: nat)
    requires InCanvas(p) && i < FrameLength
    ensures p.1 * Width + p.0 < FrameLength
    ensures CoordOf(i) == p <==> i == p.1 * Width + p.0
  {
    var k := p.1 * Width + p.0;
    assert k % Width == p.0 && k / Width == p.1;
    if CoordOf(i) == p {
      assert i == (i / Width) * Width + i % Width;
    }
  }

  /** What a painted frame shows at an on-canvas pixel of `pts`. */
  lemma PaintedHit(before: seq<Color>, after: seq<Color>, pts: seq<Pixel>, color: Color, p: Pixel)
    requires IsFrame(before) && Painted(before, after, pts, color)
    requires p in pts && InCanvas(p)
    ensures p.1 * Width + p.0 < |after| && after[p.1 * Width + p.0] == color
  {
    CoordOfIndex(p, p.1 * Width + p.0);
  }

  /** Painting with the same colour composes: the union of the points. */
  lemma PaintedThen(a: seq<Color>, b: seq<Color>, c: seq<Color>, p: seq<Pixel>, q: seq<Pixel>, color: Color)
    requires Painted(a, b, p, color) && Painted(b, c, q, color)
    ensures Painted(a, c, p + q, color)
  {
  }

  /** Only membership matters: the order and repetition of points do not. */
  lemma PaintedSameMembers(a: seq<Color>, b: seq<Color>, p: seq<Pixel>, q: seq<Pixel>, color: Color)
    requires Painted(a, b, p, color)
    requires forall z :: z in p <==> z in q
    ensures Painted(a, b, q, color)
  {
  }

  /** `plot_pixel`: a write at row-major index `y*WIDTH*PITCH + PITCH*x`,
      silently dropped when the coordinates are past the last column or row. */
  function PlotPixel(buf: seq<Color>, x: Usize, y: Usize, color: Color): (r: seq<Color>)
    requires IsFrame(buf)
    ensures IsFrame(r)
    ensures InCanvas((x, y)) ==> y * Width + x < |r| && r[y * Width + x] == color
    ensures !InCanvas((x, y)) ==> r == buf
    ensures forall i | 0 <= i < |r| && i != y * Width + x :: r[i] == buf[i]
    ensures Painted(buf, r, [(x, y)], color)
  {
    if x > Width - 1 || y > Height - 1 then
      assert forall i | 0 <= i < |buf| :: CoordOf(i) != (x, y) by {
        forall i | 0 <= i < |buf| ensures CoordOf(i) != (x, y) { CoordOfInCanvas(i); }
      }
      buf
    else
      var offsetIntoLine := Pitch * x;
      var index := y * Width * Pitch + offsetIntoLine;
      assert forall i | 0 <= i < |buf| :: CoordOf(i) == (x, y) <==> i == index by {
        forall i | 0 <= i < |buf| ensures CoordOf(i) == (x, y) <==> i == index { CoordOfIndex((x, y), i); }
      }
      buf[index := color]
  }

  /** A signed point cast to `usize` the way a line hands it to PlotPixel:
      a negative coordinate wraps to a huge value, so the write is dropped,
      and painting the cast point is painting the signed one. */
  lemma WrappedPointPaintsSigned(before: seq<Color>, after: seq<Color>, x: int, y: int, color: Color)
    requires IsI32(x) && IsI32(y) && IsFrame(before)
    requires Painted(before, after, [(I32AsUsize(x), I32AsUsize(y))], color)
    ensures Painted(before, after, [(x, y)], color)
  {
    forall i | 0 <= i < |after|
      ensures CoordOf(i) == (I32AsUsize(x), I32AsUsize(y)) <==> CoordOf(i) == (x, y)
    {
      CoordOfInCanvas(i);
    }
  }

  /** A negative `i32` coordinate never reaches the frame. */
  lemma NegativeCoordinateIsDropped(buf: seq<Color>, x: int, y: int, color: Color)
    requires IsFrame(buf) && IsI32(x) && IsI32(y)
    requires x < 0 || y < 0
    ensures PlotPixel(buf, I32AsUsize(x), I32AsUsize(y), color) == buf
  {
  }

  /** A negative float coordinate saturates to 0 and lands on the first
      column (or row) instead of being dropped. */
  lemma NegativeFloatCoordinateIsClamped(buf: seq<Color>, x: real, y: Usize, color: Color)
    requires IsFrame(buf) && x < 0.0 && y < Height
    ensures PlotPixel(buf, FloorAsUsize(x), y, color)[y * Width] == color
  {
  }

  // ---------------------------------------------------------------------------
  // Symmetric points and arcs

  datatype Quadrant = TopRight | TopLeft | BottomRight | BottomLeft

  /** Which quadrants of a circle a caller wants drawn. */
  datatype Quadrants = Quadrants(topRight: bool, topLeft: bool, bottomRight: bool, bottomLeft: bool)
  {
    predicate Has(q: Quadrant) {
      match q
      case TopRight => topRight
      case TopLeft => topLeft
      case BottomRight => bottomRight
      case BottomLeft => bottomLeft
    }

    function Count(): nat {
      (if topRight then 1 else 0) + (if topLeft then 1 else 0)
      + (if bottomRight then 1 else 0) + (if bottomLeft then 1 else 0)
    }
  }

  const NoQuadrants := Quadrants(false, false, false, false)

  /** The screen direction of a quadrant: x grows rightwards, y downwards. */
  function Direction(q: Quadrant): (real, real) {
    match q
    case TopRight => (1.0, -1.0)
    case TopLeft => (-1.0, -1.0)
    case BottomRight => (1.0, 1.0)
    case BottomLeft => (-1.0, 1.0)
  }

  /** The pixel a float position is plotted at: floor, then saturating cast. */
  function ScreenPixel(px: real, py: real): Pixel {
    (FloorAsUsize(px), FloorAsUsize(py))
  }

  /** The two points of quadrant `q` that an arc offset (a, b) stands for
      around centre (cx, cy): the offset itself and its mirror image across
      the quadrant's diagonal. */
  function Reflections(a: real, b: real, cx: real, cy: real, q: Quadrant): seq<Pixel> {
    var (h, v) := Direction(q);
    [ScreenPixel(cx + h * a, cy + v * b), ScreenPixel(cx + h * b, cy + v * a)]
  }

  /** All points an offset stands for in the enabled quadrants. */
  function SymmetricTargets(a: real, b: real, cx: real, cy: real, qs: Quadrants): (t: seq<Pixel>)
    ensures |t| == 2 * qs.Count()
    ensures forall q :: qs.Has(q) ==> forall p | p in Reflections(a, b, cx, cy, q) :: p in t
    ensures forall p | p in t :: exists q :: qs.Has(q) && p in Reflections(a, b, cx, cy, q)
  {
    QuadrantTargets(a, b, cx, cy, qs, TopLeft)
    + QuadrantTargets(a, b, cx, cy, qs, BottomRight)
    + QuadrantTargets(a, b, cx, cy, qs, BottomLeft)
    + QuadrantTargets(a, b, cx, cy, qs, TopRight)
  }

  function QuadrantTargets(a: real, b: real, cx: real, cy: real, qs: Quadrants, q: Quadrant): seq<Pixel> {
    if qs.Has(q) then Reflections(a, b, cx, cy, q) else []
  }

  /** `symetric_pixel`: each enabled quadrant flag plots two points, in the
      program's order top-left, bottom-right, bottom-left, top-right. */
  method SymmetricPixel(frame: seq<Color>, x0: real, y0: real, cx: real, cy: real, color: Color, qs: Quadrants)
    returns (r: seq<Color>)
    requires IsFrame(frame)
    ensures IsFrame(r)
    ensures Painted(frame, r, SymmetricTargets(x0, y0, cx, cy, qs), color)
    ensures qs == NoQuadrants ==> r == frame
  {
    r := frame;
    r := PlotQuadrant(frame, r, [], x0, y0, cx, cy, color, qs, TopLeft);
    ghost var acc := QuadrantTargets(x0, y0, cx, cy, qs, TopLeft);
    r := PlotQuadrant(frame, r, acc, x0, y0, cx, cy, color, qs, BottomRight);
    acc := acc + QuadrantTargets(x0, y0, cx, cy, qs, BottomRight);
    r := PlotQuadrant(frame, r, acc, x0, y0, cx, cy, color, qs, BottomLeft);
    acc := acc + QuadrantTargets(x0, y0, cx, cy, qs, BottomLeft);
    r := PlotQuadrant(frame, r, acc, x0, y0, cx, cy, color, qs, TopRight);
  }

  /** One `if <flag> { plot_pixel; plot_pixel }` block of `symetric_pixel`. */
  method PlotQuadrant(frame: seq<Color>, cur: seq<Color>, ghost acc: seq<Pixel>,
                      x0: real, y0: real, cx: real, cy: real, color: Color, qs: Quadrants, q: Quadrant)
    returns (r: seq<Color>)
    requires IsFrame(cur) && Painted(frame, cur, acc, color)
    ensures IsFrame(r)
    ensures Painted(frame, r, acc + QuadrantTargets(x0, y0, cx, cy, qs, q), color)
    ensures !qs.Has(q) ==> r == cur
  {
    r := cur;
    if !qs.Has(q) {
      assert acc + [] == acc;
      return;
    }
    var (ax, ay, bx, yB) := BlockCalls(x0, y0, cx, cy, q);
    r := PlotTwo(cur, ax, ay, bx, yB, color);
    var rs := Reflections(x0, y0, cx, cy, q);
    BlockCallsReflect(x0, y0, cx, cy, q);
    PaintedSameMembers(cur, r, [ScreenPixel(ax, ay), ScreenPixel(bx, yB)], rs, color);
    PaintedThen(frame, cur, r, acc, rs, color);
  }

  /** The float arguments of the two `plot_pixel` calls in quadrant q's
      block, in the order the blocks make them. */
  function BlockCalls(x0: real, y0: real, cx: real, cy: real, q: Quadrant): (real, real, real, real) {
    match q
    case TopLeft => (cx - x0, cy - y0, cx - y0, cy - x0)
    case BottomRight => (cx + y0, cy + x0, cx + x0, cy + y0)
    case BottomLeft => (cx - x0, cy + y0, cx - y0, cy + x0)
    case TopRight => (cx + y0, cy - x0, cx + x0, cy - y0)
  }

  /** Each block plots exactly the quadrant's two reflections (the
      bottom-right and top-right blocks plot them in swapped order). */
  lemma BlockCallsReflect(x0: real, y0: real, cx: real, cy: real, q: Quadrant)
    ensures var (ax, ay, bx, yB) := BlockCalls(x0, y0, cx, cy, q);
            forall z :: z in [ScreenPixel(ax, ay), ScreenPixel(bx, yB)] <==> z in Reflections(x0, y0, cx, cy, q)
  {
  }

  /** Two float-coordinate `plot_pixel` calls. */
  method PlotTwo(cur: seq<Color>, ax: real, ay: real, bx: real, yB: real, color: Color) returns (r: seq<Color>)
    requires IsFrame(cur)
    ensures IsFrame(r)
    ensures Painted(cur, r, [ScreenPixel(ax, ay), ScreenPixel(bx, yB)], color)
  {
    var mid := PlotPixel(cur, FloorAsUsize(ax), FloorAsUsize(ay), color);
    r := PlotPixel(mid, FloorAsUsize(bx), FloorAsUsize(yB), color);
    PaintedThen(cur, mid, r, [ScreenPixel(ax, ay)], [ScreenPixel(bx, yB)], color);
  }

  /** Everything an arc plots for the given sequence of offsets. */
  function ArcTargets(offsets: seq<(real, real)>, cx: real, cy: real, qs: Quadrants): seq<Pixel>
    decreases |offsets|
  {
    if offsets == [] then []
    else
      var last := offsets[|offsets| - 1];
      ArcTargets(offsets[..|offsets| - 1], cx, cy, qs) + SymmetricTargets(last.0, last.1, cx, cy, qs)
  }

  /** One pass of the arc sweep: `symetric_pixel` for offset (x, y), recorded. */
  method PlotOffset(frame: seq<Color>, cur: seq<Color>, ghost offsets: seq<(real, real)>,
                    x: real, y: real, cx: real, cy: real, color: Color, qs: Quadrants)
    returns (r: seq<Color>, ghost offsets': seq<(real, real)>)
    requires IsFrame(cur) && Painted(frame, cur, ArcTargets(offsets, cx, cy, qs), color)
    ensures IsFrame(r) && offsets' == offsets + [(x, y)]
    ensures Painted(frame, r, ArcTargets(offsets', cx, cy, qs), color)
  {
    r := SymmetricPixel(cur, x, y, cx, cy, color, qs);
    PaintedThen(frame, cur, r, ArcTargets(offsets, cx, cy, qs), SymmetricTargets(x, y, cx, cy, qs), color);
    ArcTargetsSnoc(offsets, (x, y), cx, cy, qs);
    offsets' := offsets + [(x, y)];
  }

  lemma ArcTargetsSnoc(offsets: seq<(real, real)>, o: (real, real), cx: real, cy: real, qs: Quadrants)
    ensures ArcTargets(offsets + [o], cx, cy, qs) == ArcTargets(offsets, cx, cy, qs) + SymmetricTargets(o.0, o.1, cx, cy, qs)
  {
    assert (offsets + [o])[..|offsets|] == offsets;
  }

  /** The offsets of a sweep: offset k has y == k and x between y and the
      radius, and x never drops by more than one from one offset to the next. */
  ghost predicate SweepShape(offsets: seq<(real, real)>, radius: real) {
    && (forall k | 0 <= k < |offsets| :: offsets[k].1 == k as real && offsets[k].1 <= offsets[k].0 <= radius)
    && (forall k | 0 < k < |offsets| :: offsets[k].0 == offsets[k - 1].0 || offsets[k].0 == offsets[k - 1].0 - 1.0)
  }

  lemma SweepExtend(offsets: seq<(real, real)>, radius: real, x: real)
    requires SweepShape(offsets, radius)
    requires |offsets| as real <= x <= radius
    requires offsets != [] ==> x == offsets[|offsets| - 1].0 || x == offsets[|offsets| - 1].0 - 1.0
    ensures SweepShape(offsets + [(x, |offsets| as real)], radius)
  {
  }

  /** `plot_arc`: the midpoint-style sweep from offset (radius, 0). Each pass
      plots the current offset, raises y by one and lowers x by one when the
      running error `t1` (seeded with radius/16) crosses zero; the sweep
      stops once x < y, so the last offset plotted lies within one step of
      the diagonal. The ghost `offsets` records the offsets plotted. */
  method PlotArc(frame: seq<Color>, x0: real, y0: real, radius: real, color: Color, qs: Quadrants)
    returns (r: seq<Color>, ghost offsets: seq<(real, real)>)
    requires IsFrame(frame)
    ensures IsFrame(r)
    ensures Painted(frame, r, ArcTargets(offsets, x0, y0, qs), color)
    ensures radius < 0.0 ==> offsets == [] && r == frame
    ensures radius >= 0.0 ==> |offsets| > 0 && offsets[0] == (radius, 0.0)
    ensures radius >= 0.0 ==> |offsets| <= radius.Floor + 1
    ensures radius >= 0.0 ==> offsets[|offsets| - 1].0 < |offsets| as real + 1.0
    ensures radius == 0.0 ==> offsets == [(0.0, 0.0)]
    ensures SweepShape(offsets, radius)
  {
    var t1 := radius / 16.0;
    var x := radius;
    var y := 0.0;
    var t2: real;
    r := frame;
    offsets := [];
    while !(x < y)
      invariant IsFrame(r)
      invariant y == |offsets| as real
      invariant x <= radius
      invariant offsets == [] ==> x == radius
      invariant offsets != [] ==> x == offsets[|offsets| - 1].0 || x == offsets[|offsets| - 1].0 - 1.0
      invariant offsets != [] ==> offsets[0] == (radius, 0.0)
      invariant SweepShape(offsets, radius)
      invariant Painted(frame, r, ArcTargets(offsets, x0, y0, qs), color)
      decreases radius.Floor + 1 - |offsets|
    {
      SweepExtend(offsets, radius, x);
      r, offsets := PlotOffset(frame, r, offsets, x, y, x0, y0, color, qs);

      y := y + 1.0;
      t1 := t1 + y;
      t2 := t1 - x;
      if t2 >= 0.0 {
        t1 := t2;
        x := x - 1.0;
      }
    }
  }
}
