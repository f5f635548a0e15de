/** The integer line drawer and the rectangle outline built from it. */
module Ui {
  import opened Machine
  import opened Helper

  /** The integer geometry of a segment between floored endpoints. */
  datatype Segment = Segment(x0: int, y0: int, x1: int, y1: int)
  {
    function Dx(): int { Abs(x1 - x0) }
    function Dy(): int { Abs(y1 - y0) }

    /** Unit steps pointing from the start toward the end (-1 on a tie). */
    function Sx(): int { if x0 < x1 then 1 else -1 }
    function Sy(): int { if y0 < y1 then 1 else -1 }

    /** More columns than rows: x advances on every step. */
    predicate XMajor() { Dx() > Dy() }

    /** How many points the line has. */
    function Length(): nat { Max(Dx(), Dy()) + 1 }

    function Start(): Pixel { (x0, y0) }
    function End(): Pixel { (x1, y1) }

    /** The error term the stepping scheme starts from: half the longer
        delta, negated for a y-major line, halved toward zero. */
    function InitialError(): int {
      TruncHalf(if XMajor() then Dx() else -Dy())
    }

    /** `p` lies in the segment's bounding box. */
    predicate Between(p: Pixel) {
      && Abs(p.0 - x0) <= Dx() && Abs(x1 - p.0) <= Dx()
      && Abs(p.1 - y0) <= Dy() && Abs(y1 - p.1) <= Dy()
    }

    /** The error term of a point: the initial error plus Dx per row and
        minus Dy per column travelled from the start. It measures how far
        the point is from the ideal segment. */
    function ErrorAt(p: Pixel): int {
      InitialError() + Dx() * Abs(p.1 - y0) - Dy() * Abs(p.0 - x0)
    }

    /** `p` is within the band of pixels closest to the ideal segment:
        for each column (x-major) or row (y-major) exactly one offset along
        the other axis keeps the error in this half-open window. */
    predicate InBand(p: Pixel) {
      if XMajor() then 0 <= ErrorAt(p) < Dx() else -Dy() < ErrorAt(p) <= 0 || Dy() == 0
    }

    /** The point u columns and v rows from the start, toward the end. */
    function At(u: nat, v: nat): Pixel {
      (if x0 < x1 then x0 + u else x0 - u, if y0 < y1 then y0 + v else y0 - v)
    }

    /** The state of the stepping loop after u moves along x and v along y
        with error term err: never past the end on either axis, the error
        term is the start's plus Dx per row minus Dy per column, it stays in
        the major axis's window, and the major axis finishes last. */
    ghost predicate Walking(u: nat, v: nat, err: int) {
      && u <= Dx() && v <= Dy()
      && err == InitialError() + Dx() * v - Dy() * u
      && (XMajor() ==> 0 <= err < Dx() && (u == Dx() ==> v == Dy()))
      && (!XMajor() ==> (if Dy() == 0 then err == 0 else -Dy() < err <= 0) && (v == Dy() ==> u == Dx()))
    }

    /** One pass of the loop: step x when the error is above -Dx, step y
        when it is below Dy, each step moving the error by the other delta. */
    function Next(u: nat, v: nat, err: int): (nat, nat, int) {
      var stepX := err > -Dx();
      var stepY := err < Dy();
      (if stepX then u + 1 else u,
       if stepY then v + 1 else v,
       err - (if stepX then Dy() else 0) + (if stepY then Dx() else 0))
    }

    /** The loop state after k passes, from no moves and the initial error. */
    function State(k: nat): (nat, nat, int)
      decreases k
    {
      if k == 0 then (0, 0, InitialError())
      else
        var st := State(k - 1);
        Next(st.0, st.1, st.2)
    }

    /** The point the loop plots on its pass k. */
    function PointAt(k: nat): Pixel {
      var (u, v, _) := State(k);
      At(u, v)
    }

    /** The first n points of the walk, in plotting order. */
    function PointsUpTo(n: nat): seq<Pixel>
      decreases n
    {
      if n == 0 then [] else PointsUpTo(n - 1) + [PointAt(n - 1)]
    }

    /** Every point of the walk, in plotting order. */
    function Points(): seq<Pixel> {
      PointsUpTo(Length())
    }

    /** The deltas and every value the error term passes through fit `i32`.
        On an x-major line the error stays in [-Dy, Dx), so Dx fitting is
        enough; on a y-major line it can dip toward -Dx - Dy. */
    predicate FitsI32() {
      if XMajor() then Dx() <= I32Max else Dx() + Dy() <= I32Max
    }

    /** `q` follows `p` by one move of 0 or Sx along x and 0 or Sy along y. */
    predicate IsStep(p: Pixel, q: Pixel) {
      && p != q
      && (q.0 == p.0 || q.0 == p.0 + Sx())
      && (q.1 == p.1 || q.1 == p.1 + Sy())
    }
  }

  /** The segment between the saturated, floored endpoints `dda_line`
      computes with. */
  function SegmentOf(x0: real, y0: real, x1: real, y1: real): Segment {
    Segment(FloorAsI32(x0), FloorAsI32(y0), FloorAsI32(x1), FloorAsI32(y1))
  }

  /** The segment between the floored endpoints keeps `dda_line`'s
      arithmetic within `i32`. */
  predicate LineFitsI32(x0: real, y0: real, x1: real, y1: real) {
    SegmentOf(x0, y0, x1, y1).FitsI32()
  }

  lemma Distribute(d: int, a: int, b: int)
    ensures d * a - d * b == d * (a - b)
  {
  }
  lemma MulSign(d: int, k: int)
    requires d >= 0
    ensures k >= 1 ==> d * k >= d
    ensures k <= -1 ==> d * k <= -d
  {
    if k >= 1 {
      assert d * k == d + d * (k - 1);
    } else if k <= -1 {
      assert d * k == -d + d * (k + 1);
    }
  }

  /** A multiple of a positive number lying strictly inside (-d, d) is 0. */
  lemma ZeroMultiple(d: int, k: int)
    requires d > 0 && -d < d * k < d
    ensures k == 0
  {
    MulSign(d, k);
  }

  /** The arithmetic of one pass on an x-major segment (dx > dy): x always
      advances, y advances when err < dy, and the window 0 <= err < dx is kept. */
  lemma {:induction false} ArithStepX(dx: int, dy: int, e0: int, u: int, v: int, err: int)
    requires 0 <= dy < dx && 0 <= e0 < dx
    requires 0 <= u <= dx && 0 <= v <= dy
    requires err == e0 + dx * v - dy * u
    requires 0 <= err < dx && (u == dx ==> v == dy) && (u != dx || v != dy)
    ensures var v' := if err < dy then v + 1 else v;
            var err' := if err < dy then err - dy + dx else err - dy;
            && u + 1 <= dx && v' <= dy
            && err' == e0 + dx * v' - dy * (u + 1)
            && 0 <= err' < dx
            && (u + 1 == dx ==> v' == dy)
  {
    if err < dy {
      ArithStepXDiagonal(dx, dy, e0, u, v, err);
    } else {
      assert u < dx;
      if u + 1 == dx {
        assert dx * (v - dy) == err - dy - e0;
        ZeroMultiple(dx, v - dy);
      }
    }
  }

  lemma {:induction false} ArithStepXDiagonal(dx: int, dy: int, e0: int, u: int, v: int, err: int)
    requires 0 <= dy < dx && 0 <= e0 < dx
    requires 0 <= u <= dx && 0 <= v <= dy
    requires err == e0 + dx * v - dy * u
    requires 0 <= err < dy && (u == dx ==> v == dy) && (u != dx || v != dy)
    ensures u + 1 <= dx && v + 1 <= dy
    ensures err - dy + dx == e0 + dx * (v + 1) - dy * (u + 1)
    ensures u + 1 == dx ==> v + 1 == dy
  {
    assert u < dx;
    MulSign(dy, dx - u);
    assert dx * (v + 1) == dx * v + dx;
    assert dy * (u + 1) == dy * u + dy;
    if u + 1 == dx {
      assert dx * (v + 1 - dy) == err - dy + dx - e0;
      ZeroMultiple(dx, v + 1 - dy);
    }
  }

  /** The arithmetic of one pass on a y-major segment (dx <= dy, dy > 0): y
      always advances, x advances when err > -dx, and -dy < err <= 0 is kept. */
  lemma {:induction false} ArithStepY(dx: int, dy: int, e0: int, u: int, v: int, err: int)
    requires 0 <= dx <= dy && 0 < dy && -dy < e0 <= 0
    requires 0 <= u <= dx && 0 <= v <= dy
    requires err == e0 + dx * v - dy * u
    requires -dy < err <= 0 && (v == dy ==> u == dx) && (u != dx || v != dy)
    ensures var u' := if err > -dx then u + 1 else u;
            var err' := if err > -dx then err - dy + dx else err + dx;
            && u' <= dx && v + 1 <= dy
            && err' == e0 + dx * (v + 1) - dy * u'
            && -dy < err' <= 0
            && (v + 1 == dy ==> u' == dx)
  {
    if err > -dx {
      ArithStepYDiagonal(dx, dy, e0, u, v, err);
    } else {
      assert v < dy;
      assert dx * (v + 1) == dx * v + dx;
      if v + 1 == dy {
        assert dy * (dx - u) == err + dx - e0;
        ZeroMultiple(dy, dx - u);
      }
    }
  }

  lemma {:induction false} ArithStepYDiagonal(dx: int, dy: int, e0: int, u: int, v: int, err: int)
    requires 0 <= dx <= dy && 0 < dy && -dy < e0 <= 0
    requires 0 <= u <= dx && 0 <= v <= dy
    requires err == e0 + dx * v - dy * u
    requires -dx < err <= 0 && (v == dy ==> u == dx) && (u != dx || v != dy)
    ensures u + 1 <= dx && v + 1 <= dy
    ensures err - dy + dx == e0 + dx * (v + 1) - dy * (u + 1)
    ensures v + 1 == dy ==> u + 1 == dx
  {
    assert v < dy;
    assert u < dx by {
      if u == dx {
        Distribute(dx, v, dy);
        MulSign(dx, v - dy);
      }
    }
    assert dx * (v + 1) == dx * v + dx;
    assert dy * (u + 1) == dy * u + dy;
    if v + 1 == dy {
      assert dy * (dx - u - 1) == err - dy + dx - e0;
      ZeroMultiple(dy, dx - u - 1);
    }
  }


  /** One pass of the stepping scheme keeps the walk invariant, moves to a
      neighbouring point, and advances along the major axis. */
  lemma WalkStep(s: Segment, u: nat, v: nat, err: int)
    requires s.Walking(u, v, err) && (u != s.Dx() || v != s.Dy())
    ensures var (u', v', err') := s.Next(u, v, err);
            && s.Walking(u', v', err')
            && s.IsStep(s.At(u, v), s.At(u', v'))
            && (if s.XMajor() then u' == u + 1 else v' == v + 1)
  {
    if s.XMajor() {
      ArithStepX(s.Dx(), s.Dy(), s.InitialError(), u, v, err);
    } else {
      ArithStepY(s.Dx(), s.Dy(), s.InitialError(), u, v, err);
    }
  }

  /** Where the walk stands after u steps along x and v along y. */
  lemma WalkPoint(s: Segment, u: nat, v: nat, err: int)
    requires s.Walking(u, v, err)
    ensures s.Between(s.At(u, v)) && s.InBand(s.At(u, v))
    ensures s.ErrorAt(s.At(u, v)) == err
    ensures Abs(s.At(u, v).0 - s.x0) == u && Abs(s.At(u, v).1 - s.y0) == v
    ensures s.At(u, v) == s.End() <==> u == s.Dx() && v == s.Dy()
  {
  }

  /** Before its last pass the walk is a valid loop state that has moved
      exactly k times along the major axis. */
  lemma {:induction false} StateWalks(s: Segment, k: nat)
    requires k < s.Length()
    ensures var (u, v, err) := s.State(k);
            s.Walking(u, v, err) && (if s.XMajor() then u == k else v == k)
  {
    if k > 0 {
      StateWalks(s, k - 1);
      var (u, v, err) := s.State(k - 1);
      WalkStep(s, u, v, err);
    }
  }

  /** Pass k of the walk, seen from the point it plots. */
  lemma PointFacts(s: Segment, k: nat)
    requires k < s.Length()
    ensures s.Between(s.PointAt(k)) && s.InBand(s.PointAt(k))
    ensures if s.XMajor() then Abs(s.PointAt(k).0 - s.x0) == k else Abs(s.PointAt(k).1 - s.y0) == k
    ensures s.PointAt(k) == s.End() <==> k == s.Length() - 1
    ensures k < s.Length() - 1 ==> s.IsStep(s.PointAt(k), s.PointAt(k + 1))
  {
    StateWalks(s, k);
    var (u, v, err) := s.State(k);
    WalkPoint(s, u, v, err);
    if k < s.Length() - 1 {
      WalkStep(s, u, v, err);
    }
  }

  /** What the walk plots: it starts at the start, ends at the end and
      reaches the end only on its last point, each point follows the
      previous one by a unit move toward the end, the major coordinate
      advances by exactly one per point, and every point lies in the
      segment's bounding box and in the band closest to the ideal segment. */
  lemma LineShape(s: Segment)
    ensures |s.Points()| == s.Length()
    ensures s.Points()[0] == s.Start()
    ensures s.Points()[|s.Points()| - 1] == s.End()
    ensures forall k | 0 <= k < |s.Points()| - 1 :: s.Points()[k] != s.End()
    ensures forall k | 0 <= k < |s.Points()| - 1 :: s.IsStep(s.Points()[k], s.Points()[k + 1])
    ensures forall k | 0 <= k < |s.Points()| :: s.Between(s.Points()[k]) && s.InBand(s.Points()[k])
    ensures forall k | 0 <= k < |s.Points()| ::
              if s.XMajor() then Abs(s.Points()[k].0 - s.x0) == k else Abs(s.Points()[k].1 - s.y0) == k
  {
    var pts := s.Points();
    PointsUpToIndex(s, s.Length());
    forall k | 0 <= k < |pts|
      ensures s.Between(pts[k]) && s.InBand(pts[k])
      ensures if s.XMajor() then Abs(pts[k].0 - s.x0) == k else Abs(pts[k].1 - s.y0) == k
      ensures pts[k] == s.End() <==> k == |pts| - 1
      ensures k < |pts| - 1 ==> s.IsStep(pts[k], pts[k + 1])
    {
      PointFacts(s, k);
    }
  }

  /** The walk has Length points, from the start to the end. */
  lemma PointsEnds(s: Segment)
    ensures |s.Points()| == s.Length()
    ensures s.Points()[0] == s.Start() && s.Points()[s.Length() - 1] == s.End()
  {
    LineShape(s);
  }

  /** A line whose endpoints floor to the same pixel plots that pixel once. */
  lemma SinglePointLine(s: Segment)
    requires s.Start() == s.End()
    ensures s.Points() == [s.Start()]
  {
    PointsEnds(s);
  }

  /** The prefix lists pass k's point at index k. */
  lemma {:induction false} PointsUpToIndex(s: Segment, n: nat)
    ensures |s.PointsUpTo(n)| == n
    ensures forall k | 0 <= k < n :: s.PointsUpTo(n)[k] == s.PointAt(k)
  {
    if n > 0 {
      PointsUpToIndex(s, n - 1);
    }
  }

  /** The walk reaches the end only on its last pass, which completes it. */
  lemma PointsComplete(s: Segment, k: nat)
    requires k < s.Length()
    ensures s.PointAt(k) == s.End() ==> s.PointsUpTo(k + 1) == s.Points()
  {
    PointFacts(s, k);
  }

  /** The band pins the line down: two in-box points with the same major
      coordinate that are both in the band are the same point, so the walk
      is the one pixel per column (or row) closest to the ideal segment. */
  lemma BandDeterminesPixel(s: Segment, p: Pixel, q: Pixel)
    requires s.Between(p) && s.InBand(p) && s.Between(q) && s.InBand(q)
    requires if s.XMajor() then p.0 == q.0 else p.1 == q.1
    ensures p == q
  {
    var dx, dy := s.Dx(), s.Dy();
    var pu, pv := Abs(p.0 - s.x0), Abs(p.1 - s.y0);
    var qu, qv := Abs(q.0 - s.x0), Abs(q.1 - s.y0);
    assert s.ErrorAt(p) == s.InitialError() + dx * pv - dy * pu;
    assert s.ErrorAt(q) == s.InitialError() + dx * qv - dy * qu;
    if s.XMajor() {
      assert pu == qu;
      Distribute(dx, pv, qv);
      ZeroMultiple(dx, pv - qv);
    } else if dy > 0 {
      assert pv == qv;
      Distribute(dy, qu, pu);
      ZeroMultiple(dy, qu - pu);
    }
  }

  /** A horizontal segment plots exactly the run of pixels between its
      endpoints. */
  lemma HorizontalPoints(s: Segment)
    requires s.y0 == s.y1
    ensures |s.Points()| == s.Dx() + 1
    ensures forall k | 0 <= k < |s.Points()| :: s.Points()[k] == s.At(k, 0)
  {
    PointsUpToIndex(s, s.Length());
    forall k | 0 <= k < s.Length()
      ensures s.Points()[k] == s.At(k, 0)
    {
      PointFacts(s, k);
    }
  }

  /** A vertical segment plots exactly the run of pixels between its
      endpoints. */
  lemma VerticalPoints(s: Segment)
    requires s.x0 == s.x1
    ensures |s.Points()| == s.Dy() + 1
    ensures forall k | 0 <= k < |s.Points()| :: s.Points()[k] == s.At(0, k)
  {
    PointsUpToIndex(s, s.Length());
    forall k | 0 <= k < s.Length()
      ensures s.Points()[k] == s.At(0, k)
    {
      PointFacts(s, k);
    }
  }

  /** `plot_pixel(buffer, x as usize, y as usize, color)` for an `i32`
      point, recorded: a negative coordinate wraps and is dropped. */
  method PlotSigned(buffer: seq<Color>, cur: seq<Color>, ghost pts: seq<Pixel>, x: int, y: int, color: Color)
    returns (r: seq<Color>, ghost pts': seq<Pixel>)
    requires IsI32(x) && IsI32(y)
    requires IsFrame(cur) && Painted(buffer, cur, pts, color)
    ensures IsFrame(r) && pts' == pts + [(x, y)]
    ensures Painted(buffer, r, pts', color)
  {
    r := PlotPixel(cur, I32AsUsize(x), I32AsUsize(y), color);
    WrappedPointPaintsSigned(cur, r, x, y, color);
    PaintedThen(buffer, cur, r, pts, [(x, y)], color);
    pts' := pts + [(x, y)];
  }

  /** The plotting half of a pass of `dda_line`: the current point is the
      walk's next point, so the plotted prefix grows by one. */
  method DdaPlot(ghost s: Segment, buffer: seq<Color>, cur: seq<Color>, ghost pts: seq<Pixel>,
                 x: int, y: int, color: Color, ghost u: nat, ghost v: nat, ghost err: int)
    returns (r: seq<Color>, ghost pts': seq<Pixel>)
    requires IsI32(s.x0) && IsI32(s.y0) && IsI32(s.x1) && IsI32(s.y1)
    requires IsFrame(cur) && Painted(buffer, cur, pts, color)
    requires |pts| < s.Length() && pts == s.PointsUpTo(|pts|)
    requires (u, v, err) == s.State(|pts|) && (x, y) == s.At(u, v)
    ensures IsFrame(r) && Painted(buffer, r, pts', color)
    ensures |pts'| == |pts| + 1 && pts' == s.PointsUpTo(|pts| + 1)
    ensures (x, y) == s.End() ==> pts' == s.Points()
    ensures (x, y) != s.End() ==> |pts'| < s.Length()
    ensures s.Walking(u, v, err) && ((x, y) != s.End() ==> u != s.Dx() || v != s.Dy())
  {
    StateWalks(s, |pts|);
    WalkPoint(s, u, v, err);
    PointsComplete(s, |pts|);
    PointFacts(s, |pts|);
    assert s.PointAt(|pts|) == (x, y);
    r, pts' := PlotSigned(buffer, cur, pts, x, y, color);
  }

  /** One pass of the loop in `dda_line` after the point is plotted: the
      error is compared once (`e2`), then x and y step independently. */
  method DdaPass(ghost s: Segment, dx: int, dy: int, sx: int, sy: int, err: int, x: int, y: int,
                 ghost u: nat, ghost v: nat)
    returns (err': int, x': int, y': int, ghost u': nat, ghost v': nat)
    requires dx == s.Dx() && dy == s.Dy() && sx == s.Sx() && sy == s.Sy()
    requires IsI32(s.x0) && IsI32(s.y0) && IsI32(s.x1) && IsI32(s.y1) && s.FitsI32()
    requires s.Walking(u, v, err) && (u != s.Dx() || v != s.Dy()) && (x, y) == s.At(u, v)
    ensures (u', v', err') == s.Next(u, v, err) && (x', y') == s.At(u', v')
    ensures IsI32(err') && IsI32(x') && IsI32(y')
    ensures err > -dx ==> IsI32(err - dy)
  {
    WalkStep(s, u, v, err);
    err', x', y', u', v' := err, x, y, u, v;
    var e2 := err;
    if e2 > -dx {
      err' := err' - dy;
      x' := x' + sx;
      u' := u' + 1;
    }
    if e2 < dy {
      err' := err' + dx;
      y' := y' + sy;
      v' := v' + 1;
    }
    WalkPoint(s, u', v', err');
  }

  /** The loop of `dda_line`: plot, stop at the end point, otherwise make
      one pass. It plots exactly the points of the walk. */
  method DdaLoop(ghost s: Segment, buffer: seq<Color>, dx: int, dy: int, sx: int, sy: int, err0: int,
                 x0: int, y0: int, x1: int, y1: int, color: Color)
    returns (r: seq<Color>, ghost pts: seq<Pixel>)
    requires IsFrame(buffer)
    requires s == Segment(x0, y0, x1, y1) && IsI32(x0) && IsI32(y0) && IsI32(x1) && IsI32(y1)
    requires dx == s.Dx() && dy == s.Dy() && sx == s.Sx() && sy == s.Sy() && s.FitsI32()
    requires err0 == s.InitialError()
    ensures IsFrame(r) && Painted(buffer, r, pts, color) && pts == s.Points()
  {
    ghost var u: nat, v: nat := 0, 0;
    var err, x, y := err0, x0, y0;
    r := buffer;
    pts := [];
    while true
      invariant IsFrame(r) && Painted(buffer, r, pts, color)
      invariant |pts| < s.Length() && pts == s.PointsUpTo(|pts|)
      invariant (u, v, err) == s.State(|pts|) && (x, y) == s.At(u, v)
      decreases s.Length() - |pts|
    {
      ghost var k := |pts|;
      r, pts := DdaPlot(s, buffer, r, pts, x, y, color, u, v, err);
      if x == x1 && y == y1 {
        break;
      }

      err, x, y, u, v := DdaPass(s, dx, dy, sx, sy, err, x, y, u, v);
      assert s.State(k + 1) == (u, v, err);
    }
  }

  /** `dda_line`: the Bresenham-style walk from (floor x0, floor y0) to
      (floor x1, floor y1). The ghost `pts` lists the points handed to
      `plot_pixel`, in order, before their cast to `usize`. */
  method DdaLine(buffer: seq<Color>, fx0: real, fy0: real, fx1: real, fy1: real, color: Color)
    returns (r: seq<Color>, ghost pts: seq<Pixel>)
    requires IsFrame(buffer)
    requires LineFitsI32(fx0, fy0, fx1, fy1)
    ensures IsFrame(r)
    ensures pts == SegmentOf(fx0, fy0, fx1, fy1).Points()
    ensures Painted(buffer, r, pts, color)
    ensures |pts| == SegmentOf(fx0, fy0, fx1, fy1).Length()
    ensures pts[0] == (FloorAsI32(fx0), FloorAsI32(fy0))
    ensures pts[|pts| - 1] == (FloorAsI32(fx1), FloorAsI32(fy1))
  {
    var x0 := FloorAsI32(fx0);
    var y0 := FloorAsI32(fy0);
    var x1 := FloorAsI32(fx1);
    var y1 := FloorAsI32(fy1);
    ghost var s := Segment(x0, y0, x1, y1);

    var dx := if x1 > x0 then x1 - x0 else x0 - x1;
    var dy := if y1 > y0 then y1 - y0 else y0 - y1;

    var sx := if x0 < x1 then 1 else -1;
    var sy := if y0 < y1 then 1 else -1;
    var err := TruncHalf(if dx > dy then dx else -dy);

    assert dx == s.Dx() && dy == s.Dy() && err == s.InitialError();
    r, pts := DdaLoop(s, buffer, dx, dy, sx, sy, err, x0, y0, x1, y1, color);
    PointsEnds(s);
  }

  /** The four corners `rectangle` draws between: height is measured upward,
      so the second row is y - height. */
  function Corners(x: real, y: real, width: real, height: real): seq<Pixel> {
    [(FloorAsI32(x), FloorAsI32(y)), (FloorAsI32(x + width), FloorAsI32(y)),
     (FloorAsI32(x), FloorAsI32(y - height)), (FloorAsI32(x + width), FloorAsI32(y - height))]
  }

  /** The edges of a rectangle, in the order `rectangle` draws them. */
  datatype Side = Top | Left | Bottom | Right

  /** The float endpoints `rectangle` hands to `dda_line` for one edge. */
  function SideEnds(x: real, y: real, width: real, height: real, side: Side): (real, real, real, real) {
    match side
    case Top => (x, y, x + width, y)
    case Left => (x, y, x, y - height)
    case Bottom => (x, y - height, x + width, y - height)
    case Right => (x + width, y - height, x + width, y)
  }

  /** The segment of one edge. */
  function SideSegment(x: real, y: real, width: real, height: real, side: Side): Segment {
    var (x0, y0, x1, y1) := SideEnds(x, y, width, height, side);
    SegmentOf(x0, y0, x1, y1)
  }

  predicate SideFitsI32(x: real, y: real, width: real, height: real, side: Side) {
    var (x0, y0, x1, y1) := SideEnds(x, y, width, height, side);
    LineFitsI32(x0, y0, x1, y1)
  }

  predicate RectangleFitsI32(x: real, y: real, width: real, height: real) {
    && SideFitsI32(x, y, width, height, Top)
    && SideFitsI32(x, y, width, height, Left)
    && SideFitsI32(x, y, width, height, Bottom)
    && SideFitsI32(x, y, width, height, Right)
  }

  /** The outline `rectangle` plots: top, left, bottom and right edge. */
  function Outline(x: real, y: real, width: real, height: real): seq<Pixel> {
    SideSegment(x, y, width, height, Top).Points()
    + SideSegment(x, y, width, height, Left).Points()
    + SideSegment(x, y, width, height, Bottom).Points()
    + SideSegment(x, y, width, height, Right).Points()
  }

  /** `rectangle`: the four edges, with the height subtracted from y. */
  method Rectangle(buffer: seq<Color>, x: real, y: real, width: real, height: real, color: Color)
    returns (r: seq<Color>)
    requires IsFrame(buffer)
    requires RectangleFitsI32(x, y, width, height)
    ensures IsFrame(r)
    ensures Painted(buffer, r, Outline(x, y, width, height), color)
  {
    ghost var top := SideSegment(x, y, width, height, Top).Points();
    ghost var left := SideSegment(x, y, width, height, Left).Points();
    ghost var bottom := SideSegment(x, y, width, height, Bottom).Points();
    assert [] + top == top;
    r := DrawSide(buffer, buffer, [], x, y, width, height, Top, color);
    r := DrawSide(buffer, r, top, x, y, width, height, Left, color);
    r := DrawSide(buffer, r, top + left, x, y, width, height, Bottom, color);
    r := DrawSide(buffer, r, top + left + bottom, x, y, width, height, Right, color);
  }

  /** One `dda_line` call of `rectangle`, on a frame already painted with
      the points `acc`. */
  method DrawSide(buffer: seq<Color>, cur: seq<Color>, ghost acc: seq<Pixel>,
                  x: real, y: real, width: real, height: real, side: Side, color: Color)
    returns (r: seq<Color>)
    requires IsFrame(cur) && Painted(buffer, cur, acc, color)
    requires SideFitsI32(x, y, width, height, side)
    ensures IsFrame(r)
    ensures Painted(buffer, r, acc + SideSegment(x, y, width, height, side).Points(), color)
  {
    var (x0, y0, x1, y1) := SideEnds(x, y, width, height, side);
    ghost var pts;
    r, pts := DdaLine(cur, x0, y0, x1, y1, color);
    PaintedThen(buffer, cur, r, acc, pts, color);
  }

  /** Every corner of the rectangle is an endpoint of two of its edges, so it
      is on the outline, and `rectangle` colours each corner that is on the
      canvas. */
  lemma CornersOnOutline(x: real, y: real, width: real, height: real)
    ensures forall c | c in Corners(x, y, width, height) :: c in Outline(x, y, width, height)
  {
    var top := SideSegment(x, y, width, height, Top);
    var bottom := SideSegment(x, y, width, height, Bottom);
    CornersAreEnds(x, y, width, height);
    EndsOnSegment(top);
    EndsOnSegment(bottom);
    var a, b := top.Points(), SideSegment(x, y, width, height, Left).Points();
    var c, d := bottom.Points(), SideSegment(x, y, width, height, Right).Points();
    assert Outline(x, y, width, height) == a + b + c + d;
    InOuterEdges(a, b, c, d, top.Start());
    InOuterEdges(a, b, c, d, top.End());
    InOuterEdges(a, b, c, d, bottom.Start());
    InOuterEdges(a, b, c, d, bottom.End());
  }

  /** The corners are the endpoints of the top and the bottom edge. */
  lemma CornersAreEnds(x: real, y: real, width: real, height: real)
    ensures Corners(x, y, width, height)
            == [SideSegment(x, y, width, height, Top).Start(), SideSegment(x, y, width, height, Top).End(),
                SideSegment(x, y, width, height, Bottom).Start(), SideSegment(x, y, width, height, Bottom).End()]
  {
  }

  lemma InOuterEdges(a: seq<Pixel>, b: seq<Pixel>, c: seq<Pixel>, d: seq<Pixel>, p: Pixel)
    requires p in a || p in c
    ensures p in a + b + c + d
  {
  }

  /** Both endpoints of a segment are among its points. */
  lemma EndsOnSegment(s: Segment)
    ensures s.Start() in s.Points() && s.End() in s.Points()
  {
    LineShape(s);
  }

  /** The corners on the canvas carry the colour after `rectangle`. */
  lemma CornersPainted(buffer: seq<Color>, r: seq<Color>, x: real, y: real, width: real, height: real, color: Color)
    requires IsFrame(buffer) && Painted(buffer, r, Outline(x, y, width, height), color)
    ensures forall c | c in Corners(x, y, width, height) && InCanvas(c) ::
              c.1 * Width + c.0 < |r| && r[c.1 * Width + c.0] == color
  {
    CornersOnOutline(x, y, width, height);
    forall c | c in Corners(x, y, width, height) && InCanvas(c)
      ensures c.1 * Width + c.0 < |r| && r[c.1 * Width + c.0] == color
    {
      PaintedHit(buffer, r, Outline(x, y, width, height), color, c);
    }
  }

  /** The outline `rectangle(buffer, 10, 50, 20, 10, color)` draws: the runs
      (10,50)-(30,50), (10,50)-(10,40), (10,40)-(30,40) and (30,40)-(30,50). */
  lemma RectangleExample()
    ensures SegmentOf(10.0, 50.0, 30.0, 50.0).Points() == seq(21, k => (10 + k, 50))
    ensures SegmentOf(10.0, 50.0, 10.0, 40.0).Points() == seq(11, k => (10, 50 - k))
    ensures SegmentOf(10.0, 40.0, 30.0, 40.0).Points() == seq(21, k => (10 + k, 40))
    ensures SegmentOf(30.0, 40.0, 30.0, 50.0).Points() == seq(11, k => (30, 40 + k))
  {
    HorizontalRun(10, 30, 50);
    VerticalRun(10, 50, 40);
    HorizontalRun(10, 30, 40);
    VerticalRun(30, 40, 50);
  }

  /** A left-to-right horizontal segment plots each column once. */
  lemma HorizontalRun(x0: int, x1: int, y: int)
    requires x0 <= x1
    ensures Segment(x0, y, x1, y).Points() == seq(x1 - x0 + 1, k => (x0 + k, y))
  {
    HorizontalPoints(Segment(x0, y, x1, y));
  }

  /** A vertical segment plots each row once, toward its end. */
  lemma VerticalRun(x: int, y0: int, y1: int)
    ensures y0 <= y1 ==> Segment(x, y0, x, y1).Points() == seq(y1 - y0 + 1, k => (x, y0 + k))
    ensures y1 <= y0 ==> Segment(x, y0, x, y1).Points() == seq(y0 - y1 + 1, k => (x, y0 - k))
  {
    VerticalPoints(Segment(x, y0, x, y1));
  }
}
