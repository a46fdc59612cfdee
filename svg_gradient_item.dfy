/** construct_gradient and its geometry (p2s_gradient.py): the gradient's
    options are checked in order, its stops are built and optionally
    reversed, and a linear gradient between two points or a radial gradient
    around their midpoint is produced. The direction (cos, -sin) of the
    gradient's angle is given, not computed. */
module SvgGradientItem {
  import opened Base
  import opened PsdPrimitive
  import opened SvgUtil
  import opened SvgGradient

  // ---------------------------------------------------------------------------
  // compute_gradient_points.

  /** Half an integer extent, by Python 2's floor division (as Dafny's `/`
      by 2 does). */
  function Half(extent: int): real {
    (extent / 2) as real
  }

  /** A half extent over one direction component; None is the source's
      float('inf') for a zero component. */
  function Reach(h: real, d: real): Option<real> {
    if d != 0.0 then Some(h / d) else None
  }

  function AbsR(x: real): real {
    if x < 0.0 then -x else x
  }

  /** min(abs(fx), abs(fy)), at least one of them finite. */
  function MinReach(fx: Option<real>, fy: Option<real>): (f: real)
    requires fx.Some? || fy.Some?
    ensures 0.0 <= f
    ensures fx.Some? ==> f <= AbsR(fx.value)
    ensures fy.Some? ==> f <= AbsR(fy.value)
    ensures (fx.Some? && f == AbsR(fx.value)) || (fy.Some? && f == AbsR(fy.value))
  {
    if fx.None? then AbsR(fy.value)
    else if fy.None? then AbsR(fx.value)
    else if AbsR(fx.value) <= AbsR(fy.value) then AbsR(fx.value)
    else AbsR(fy.value)
  }

  /** The point half way across the box, by Python 2's integer division. */
  function BoxMid(b: Rect): Point {
    Point(((b.right + b.left) / 2) as real, ((b.bottom + b.top) / 2) as real)
  }

  /** The distance f from the middle to the end points, along dir. */
  function Spread(b: Rect, dir: Point, scale: real): real
    requires dir.x != 0.0 || dir.y != 0.0
  {
    MinReach(Reach(Half(b.right - b.left), dir.x), Reach(Half(b.bottom - b.top), dir.y)) * scale
  }

  /** compute_gradient_points: the two end points, f along dir either side
      of the box's middle. */
  function GradientPoints(b: Rect, dir: Point, scale: real): (Point, Point)
    requires dir.x != 0.0 || dir.y != 0.0
  {
    var f := Spread(b, dir, scale);
    var mid := BoxMid(b);
    (Point(mid.x - dir.x * f, mid.y - dir.y * f), Point(mid.x + dir.x * f, mid.y + dir.y * f))
  }

  /** The end points are symmetric about the box's middle, each f along dir
      from it, with f not negative for a scale that is not. */
  lemma PointsSymmetric(b: Rect, dir: Point, scale: real)
    requires dir.x != 0.0 || dir.y != 0.0
    ensures var (p1, p2) := GradientPoints(b, dir, scale);
      var mid := BoxMid(b);
      var f := Spread(b, dir, scale);
      && p1.x + p2.x == 2.0 * mid.x && p1.y + p2.y == 2.0 * mid.y
      && p2.x - mid.x == mid.x - p1.x == dir.x * f
      && p2.y - mid.y == mid.y - p1.y == dir.y * f
      && (0.0 <= scale ==> 0.0 <= f)
  {
    if 0.0 <= scale {
      MulNonneg(MinReach(Reach(Half(b.right - b.left), dir.x), Reach(Half(b.bottom - b.top), dir.y)), scale);
    }
  }

  /** At scale 1 the end points stay within the box: the smaller reach
      covers at most each half extent along its component (and, by
      MinReach, equals one of the two reaches, so it meets the box's edge
      along that axis). */
  lemma MinReachWithin(hx: real, dx: real, hy: real, dy: real)
    requires dx != 0.0 || dy != 0.0
    ensures dx != 0.0 ==> AbsR(dx * MinReach(Reach(hx, dx), Reach(hy, dy))) <= AbsR(hx)
    ensures dy != 0.0 ==> AbsR(dy * MinReach(Reach(hx, dx), Reach(hy, dy))) <= AbsR(hy)
  {
    var m := MinReach(Reach(hx, dx), Reach(hy, dy));
    if dx != 0.0 {
      assert Reach(hx, dx) == Some(hx / dx);
      assert 0.0 <= m <= AbsR(hx / dx);
      ReachBound(hx, dx, m);
    }
    if dy != 0.0 {
      assert Reach(hy, dy) == Some(hy / dy);
      assert 0.0 <= m <= AbsR(hy / dy);
      ReachBound(hy, dy, m);
    }
  }

  /** A distance no larger than |h / d| covers at most |h| along d. */
  lemma ReachBound(h: real, d: real, m: real)
    requires d != 0.0 && 0.0 <= m <= AbsR(h / d)
    ensures AbsR(d * m) <= AbsR(h)
  {
    assert AbsR(h / d) * AbsR(d) == AbsR(h);
    MulNonneg(AbsR(h / d) - m, AbsR(d));
    assert AbsR(d * m) == AbsR(d) * m;
  }

  // ---------------------------------------------------------------------------
  // compute_gradient_offset.

  /** A descriptor 'UntF' value: its unit tag and its number. */
  datatype UnitValue = UnitValue(units: string, value: real)

  /** compute_gradient_offset: both components must be percentages; each is
      that share of the box's width or height. */
  function GradientOffset(b: Rect, h: UnitValue, v: UnitValue): (r: Result<Point>)
    ensures r.Success? <==> h.units == "#Prc" && v.units == "#Prc"
    ensures r.Failure? ==> r.error == UnsupportedGradient
  {
    if h.units != "#Prc" || v.units != "#Prc" then Failure(UnsupportedGradient)
    else Success(Point((b.right - b.left) as real * (h.value / 100.0), (b.bottom - b.top) as real * (v.value / 100.0)))
  }

  /** No offset at 0%, the whole extent at 100%, and offsets add up. */
  lemma OffsetScale(b: Rect, h: real, v: real, h2: real, v2: real)
    ensures GradientOffset(b, UnitValue("#Prc", 0.0), UnitValue("#Prc", 0.0)) == Success(Point(0.0, 0.0))
    ensures GradientOffset(b, UnitValue("#Prc", 100.0), UnitValue("#Prc", 100.0))
            == Success(Point((b.right - b.left) as real, (b.bottom - b.top) as real))
    ensures var o1 := GradientOffset(b, UnitValue("#Prc", h), UnitValue("#Prc", v)).value;
      var o2 := GradientOffset(b, UnitValue("#Prc", h2), UnitValue("#Prc", v2)).value;
      GradientOffset(b, UnitValue("#Prc", h + h2), UnitValue("#Prc", v + v2)).value == Point(o1.x + o2.x, o1.y + o2.y)
  {
    var w := (b.right - b.left) as real;
    var t := (b.bottom - b.top) as real;
    assert w * ((h + h2) / 100.0) == w * (h / 100.0) + w * (h2 / 100.0);
    assert t * ((v + v2) / 100.0) == t * (v / 100.0) + t * (v2 / 100.0);
  }

  // ---------------------------------------------------------------------------
  // Reversal: stops.reverse(), then each offset o becomes 1 - o.

  function Mirror(st: Stop): Stop {
    st.(offset := 1.0 - st.offset)
  }

  /** list.reverse(), on a value. */
  function Reverse<T>(s: seq<T>): (r: seq<T>)
    ensures |r| == |s|
    ensures forall i | 0 <= i < |s| :: r[i] == s[|s| - 1 - i]
  {
    seq(|s|, i requires 0 <= i < |s| => s[|s| - 1 - i])
  }

  /** The stops of a reversed gradient: last first, each offset mirrored. */
  function ReversedStops(s: seq<Stop>): seq<Stop>
    decreases |s|
  {
    if |s| == 0 then [] else ReversedStops(s[1..]) + [Mirror(s[0])]
  }

  lemma {:induction false} ReversedAt(s: seq<Stop>)
    ensures |ReversedStops(s)| == |s|
    ensures forall i | 0 <= i < |s| :: ReversedStops(s)[i] == Mirror(s[|s| - 1 - i])
    decreases |s|
  {
    if |s| > 0 {
      ReversedAt(s[1..]);
      forall i | 0 <= i < |s| - 1
        ensures ReversedStops(s)[i] == Mirror(s[|s| - 1 - i])
      {
        assert s[1..][|s| - 2 - i] == s[|s| - 1 - i];
      }
    }
  }

  /** Reversing twice restores the stops. */
  lemma ReversedTwice(s: seq<Stop>)
    ensures ReversedStops(ReversedStops(s)) == s
  {
    ReversedAt(s);
    ReversedAt(ReversedStops(s));
    assert forall i | 0 <= i < |s| :: Mirror(Mirror(s[i])) == s[i];
  }

  ghost predicate Spans(s: seq<Stop>) {
    && |s| >= 2
    && s[0].offset == 0.0 && s[|s| - 1].offset == 1.0
    && (forall j, k | 0 <= j < k < |s| :: s[j].offset < s[k].offset)
    && (forall k | 0 <= k < |s| :: 0.0 <= s[k].offset <= 1.0)
  }

  /** A reversed stop list still runs from 0 to 1, strictly increasing, with
      the colours and opacities in the opposite order. */
  lemma ReversedSpans(s: seq<Stop>)
    requires Spans(s)
    ensures |ReversedStops(s)| == |s|
    ensures Spans(ReversedStops(s))
    ensures forall i | 0 <= i < |s| :: ReversedStops(s)[i].color == s[|s| - 1 - i].color
    ensures forall i | 0 <= i < |s| :: ReversedStops(s)[i].opacity == s[|s| - 1 - i].opacity
  {
    ReversedAt(s);
    var r := ReversedStops(s);
    forall j, k | 0 <= j < k < |r|
      ensures r[j].offset < r[k].offset
    {
      assert s[|s| - 1 - k].offset < s[|s| - 1 - j].offset;
    }
  }

  /** The reversal loop of construct_gradient on the stop list. */
  method ReverseStops(s: seq<Stop>) returns (stops: seq<Stop>)
    ensures stops == ReversedStops(s)
  {
    stops := Reverse(s);
    ReversedAt(s);
    var i := 0;
    while i < |stops|
      invariant 0 <= i <= |stops| == |s|
      invariant forall k | 0 <= k < i :: stops[k] == Mirror(s[|s| - 1 - k])
      invariant forall k | i <= k < |stops| :: stops[k] == s[|s| - 1 - k]
    {
      var offset := stops[i].offset;
      stops := stops[i := stops[i].(offset := 1.0 - offset)];
      i := i + 1;
    }
  }

  // ---------------------------------------------------------------------------
  // construct_gradient.

  /** The fields of a gradient overlay's descriptor construct_gradient reads. */
  datatype GradientDesc = GradientDesc(
    align: bool,                                   // 'Algn'
    angle: UnitValue,                              // 'Angl'
    opacity: UnitValue,                            // 'Opct'
    clrs: seq<ColorStop>,                          // 'Grad' / 'Clrs'
    trns: seq<OpacityStop>,                        // 'Grad' / 'Trns'
    modeType: string, modeEnum: string,            // 'Md  '
    reverse: bool,                                 // 'Rvrs'
    scale: UnitValue,                              // 'Scl '
    typeType: string, typeEnum: string,            // 'Type'
    offsetH: UnitValue, offsetV: UnitValue)        // 'Ofst' / 'Hrzn', 'Vrtc'

  /** A <linearGradient> from p1 to p2, or a <radialGradient> around a
      centre (its radius is kept squared: the square root is not modelled). */
  datatype GradientItem =
    | Linear(p1: Point, p2: Point, stops: seq<Stop>)
    | Radial(center: Point, radiusSquared: real, stops: seq<Stop>)

  /** The radius of the radial gradient as written: from the centre, which
      is moved by the offset, to the first end point, which is not. */
  function RadialAsWritten(p1: Point, p2: Point, off: Point): real {
    var cx := (p1.x + p2.x) / 2.0 + off.x;
    var cy := (p1.y + p2.y) / 2.0 + off.y;
    (cx - p1.x) * (cx - p1.x) + (cy - p1.y) * (cy - p1.y)
  }

  /** The radius as intended: the centre's distance to the first end point
      with both moved by the offset, half the distance between the points. */
  function RadialRadius(p1: Point, p2: Point, off: Point): (r2: real)
    ensures var cx := (p1.x + p2.x) / 2.0 + off.x;
      var cy := (p1.y + p2.y) / 2.0 + off.y;
      && r2 == (cx - (p1.x + off.x)) * (cx - (p1.x + off.x)) + (cy - (p1.y + off.y)) * (cy - (p1.y + off.y))
      && r2 == (cx - (p2.x + off.x)) * (cx - (p2.x + off.x)) + (cy - (p2.y + off.y)) * (cy - (p2.y + off.y))
  {
    var hx := (p2.x - p1.x) / 2.0;
    var hy := (p2.y - p1.y) / 2.0;
    hx * hx + hy * hy
  }

  /** As written, the radius grows with the offset: it is the intended
      radius plus 2 h.o + |o|^2, h being half the way from p1 to p2. */
  lemma RadialAsWrittenOffset(p1: Point, p2: Point, off: Point)
    ensures var hx := (p2.x - p1.x) / 2.0;
      var hy := (p2.y - p1.y) / 2.0;
      RadialAsWritten(p1, p2, off)
        == RadialRadius(p1, p2, off) + 2.0 * (hx * off.x + hy * off.y) + off.x * off.x + off.y * off.y
    ensures RadialAsWritten(p1, p2, Point(0.0, 0.0)) == RadialRadius(p1, p2, Point(0.0, 0.0))
  {
    var hx := (p2.x - p1.x) / 2.0;
    var hy := (p2.y - p1.y) / 2.0;
    assert (p1.x + p2.x) / 2.0 + off.x - p1.x == hx + off.x;
    assert (p1.y + p2.y) / 2.0 + off.y - p1.y == hy + off.y;
  }

  /** A 100 by 100 box, a horizontal gradient and an offset of half the
      width: the radius as written is 100 where the gradient's half length
      is 50. */
  lemma RadialAsWrittenExample()
    ensures RadialAsWritten(Point(0.0, 50.0), Point(100.0, 50.0), Point(50.0, 0.0)) == 10000.0
    ensures RadialRadius(Point(0.0, 50.0), Point(100.0, 50.0), Point(50.0, 0.0)) == 2500.0
  {
  }

  /** The linear or the radial gradient of the given points, stops and offset. */
  function ItemOf(typeEnum: string, p1: Point, p2: Point, off: Point, stops: seq<Stop>): Result<GradientItem> {
    if typeEnum == "Lnr " then
      Success(Linear(Point(p1.x + off.x, p1.y + off.y), Point(p2.x + off.x, p2.y + off.y), stops))
    else if typeEnum == "Rdl " then
      Success(Radial(Point((p1.x + p2.x) / 2.0 + off.x, (p1.y + p2.y) / 2.0 + off.y), RadialAsWritten(p1, p2, off), stops))
    else Failure(UnsupportedGradient)
  }

  /** construct_gradient as a function of the descriptor, the layer's bounds,
      the base colour, the direction (cos, -sin) of the angle and the
      outcome `made` of construct_gradient_stops: each assertion in the
      source's order, the stops where they are built, their reversal, then
      the type dispatch. */
  function GradientWith(g: GradientDesc, b: Rect, base: Option<Color>, dir: Point, made: Result<seq<Stop>>)
    : Result<GradientItem>
    requires dir.x != 0.0 || dir.y != 0.0
  {
    if !g.align || g.angle.units != "#Ang" || g.opacity.units != "#Prc" then Failure(UnsupportedGradient)
    else if !(g.opacity.value == 100.0 || base.Some?) then Failure(UnsupportedGradient)
    else
      var stops0 :- made;
      if g.modeType != "BlnM" || g.modeEnum != "Nrml" then Failure(UnsupportedGradient)
      else Dispatch(g, b, dir, if g.reverse then ReversedStops(stops0) else stops0)
  }

  /** The rest of construct_gradient once its stops are final: the scale and
      type checks, the end points and the offset, then the gradient. */
  function Dispatch(g: GradientDesc, b: Rect, dir: Point, stops: seq<Stop>): Result<GradientItem>
    requires dir.x != 0.0 || dir.y != 0.0
  {
    if g.scale.units != "#Prc" || g.typeType != "GrdT" then Failure(UnsupportedGradient)
    else if g.typeEnum != "Lnr " && g.typeEnum != "Rdl " then Failure(UnsupportedGradient)
    else
      var (p1, p2) := GradientPoints(b, dir, g.scale.value / 100.0);
      var off :- GradientOffset(b, g.offsetH, g.offsetV);
      ItemOf(g.typeEnum, p1, p2, off, stops)
  }

  /** construct_gradient, its stops built from the descriptor's stop lists
      and opacity. */
  function GradientOf(g: GradientDesc, b: Rect, base: Option<Color>, dir: Point): Result<GradientItem>
    requires dir.x != 0.0 || dir.y != 0.0
  {
    GradientWith(g, b, base, dir, StopsOf(g.clrs, g.trns, base, g.opacity.value))
  }

  /** The options construct_gradient accepts. */
  ghost predicate Supported(g: GradientDesc, base: Option<Color>) {
    && g.align && g.angle.units == "#Ang" && g.opacity.units == "#Prc"
    && (g.opacity.value == 100.0 || base.Some?)
    && g.modeType == "BlnM" && g.modeEnum == "Nrml"
    && g.scale.units == "#Prc" && g.typeType == "GrdT" && (g.typeEnum == "Lnr " || g.typeEnum == "Rdl ")
    && g.offsetH.units == "#Prc" && g.offsetV.units == "#Prc"
  }

  /** A gradient is built exactly when its options are supported and its
      stops can be built; it fails with the stops' own error when they
      cannot, and as unsupported otherwise. */
  lemma Acceptance(g: GradientDesc, b: Rect, base: Option<Color>, dir: Point, made: Result<seq<Stop>>)
    requires dir.x != 0.0 || dir.y != 0.0
    ensures GradientWith(g, b, base, dir, made).Success? <==> Supported(g, base) && made.Success?
    ensures GradientWith(g, b, base, dir, made).Failure? && made.Success? ==>
      GradientWith(g, b, base, dir, made).error == UnsupportedGradient
    ensures Supported(g, base) && made.Failure? ==> GradientWith(g, b, base, dir, made).error == made.error
  {
  }

  /** A built gradient had its stops built, and is the dispatch of those
      stops, reversed when 'Rvrs' is set. */
  lemma GradientDispatch(g: GradientDesc, b: Rect, base: Option<Color>, dir: Point, made: Result<seq<Stop>>)
    requires dir.x != 0.0 || dir.y != 0.0
    requires GradientWith(g, b, base, dir, made).Success?
    ensures made.Success?
    ensures GradientWith(g, b, base, dir, made)
      == Dispatch(g, b, dir, if g.reverse then ReversedStops(made.value) else made.value)
  {
  }

  /** A dispatched gradient carries the given stops, and is linear exactly
      for the type 'Lnr '. */
  lemma DispatchKind(g: GradientDesc, b: Rect, dir: Point, stops: seq<Stop>)
    requires dir.x != 0.0 || dir.y != 0.0
    requires Dispatch(g, b, dir, stops).Success?
    ensures Dispatch(g, b, dir, stops).value.stops == stops
    ensures Dispatch(g, b, dir, stops).value.Linear? <==> g.typeEnum == "Lnr "
    ensures GradientOffset(b, g.offsetH, g.offsetV).Success?
  {
  }

  /** A linear gradient runs between the end points moved by the offset. */
  lemma DispatchLinear(g: GradientDesc, b: Rect, dir: Point, stops: seq<Stop>)
    requires dir.x != 0.0 || dir.y != 0.0
    requires Dispatch(g, b, dir, stops).Success? && g.typeEnum == "Lnr "
    ensures var (p1, p2) := GradientPoints(b, dir, g.scale.value / 100.0);
      var off := GradientOffset(b, g.offsetH, g.offsetV).value;
      && Dispatch(g, b, dir, stops).value.p1 == Point(p1.x + off.x, p1.y + off.y)
      && Dispatch(g, b, dir, stops).value.p2 == Point(p2.x + off.x, p2.y + off.y)
  {
  }

  /** A radial gradient is centred on the box's middle moved by the offset;
      its radius runs from that centre to the first end point, which is not
      moved, so it is the half extent from the middle to p2 plus the
      offset. */
  lemma DispatchRadial(g: GradientDesc, b: Rect, dir: Point, stops: seq<Stop>)
    requires dir.x != 0.0 || dir.y != 0.0
    requires Dispatch(g, b, dir, stops).Success? && g.typeEnum != "Lnr "
    ensures var (p1, p2) := GradientPoints(b, dir, g.scale.value / 100.0);
      var off := GradientOffset(b, g.offsetH, g.offsetV).value;
      var mid := BoxMid(b);
      && Dispatch(g, b, dir, stops).value.center == Point(mid.x + off.x, mid.y + off.y)
      && Dispatch(g, b, dir, stops).value.radiusSquared
        == (p2.x - mid.x + off.x) * (p2.x - mid.x + off.x) + (p2.y - mid.y + off.y) * (p2.y - mid.y + off.y)
  {
    PointsSymmetric(b, dir, g.scale.value / 100.0);
    var (p1, p2) := GradientPoints(b, dir, g.scale.value / 100.0);
    var mid := BoxMid(b);
    assert (p1.x + p2.x) / 2.0 == mid.x && (p1.y + p2.y) / 2.0 == mid.y;
    var off := GradientOffset(b, g.offsetH, g.offsetV).value;
    assert (p1.x + p2.x) / 2.0 + off.x - p1.x == p2.x - mid.x + off.x;
    assert (p1.y + p2.y) / 2.0 + off.y - p1.y == p2.y - mid.y + off.y;
  }

  /** A built gradient carries the stops, reversed when 'Rvrs' is set;
      a linear one runs between the end points moved by the offset, a radial
      one is centred on the box's middle moved by the offset, with the
      radius from that centre to the unmoved first end point. */
  lemma GradientShape(g: GradientDesc, b: Rect, base: Option<Color>, dir: Point, made: Result<seq<Stop>>)
    requires dir.x != 0.0 || dir.y != 0.0
    requires GradientWith(g, b, base, dir, made).Success?
    ensures var item := GradientWith(g, b, base, dir, made).value;
      var (p1, p2) := GradientPoints(b, dir, g.scale.value / 100.0);
      var off := GradientOffset(b, g.offsetH, g.offsetV).value;
      var mid := BoxMid(b);
      && made.Success?
      && item.stops == (if g.reverse then ReversedStops(made.value) else made.value)
      && (item.Linear? <==> g.typeEnum == "Lnr ")
      && (item.Linear? ==> item.p1 == Point(p1.x + off.x, p1.y + off.y) && item.p2 == Point(p2.x + off.x, p2.y + off.y))
      && (item.Radial? ==> item.center == Point(mid.x + off.x, mid.y + off.y))
      && (item.Radial? ==>
            item.radiusSquared == (p2.x - mid.x + off.x) * (p2.x - mid.x + off.x) + (p2.y - mid.y + off.y) * (p2.y - mid.y + off.y))
  {
    GradientDispatch(g, b, base, dir, made);
    var stops := if g.reverse then ReversedStops(made.value) else made.value;
    DispatchKind(g, b, dir, stops);
    if g.typeEnum == "Lnr " {
      DispatchLinear(g, b, dir, stops);
    } else {
      DispatchRadial(g, b, dir, stops);
    }
  }

  /** Merged stops run from 0 to 1. */
  lemma StopsSpan(clrs: seq<ColorStop>, trns: seq<OpacityStop>, base: Option<Color>, globalOpacity: real)
    requires StopsOf(clrs, trns, base, globalOpacity).Success?
    ensures Spans(StopsOf(clrs, trns, base, globalOpacity).value)
  {
    StopsShape(clrs, trns, base, globalOpacity);
  }

  /** Stops that run from 0 to 1 still do in the built gradient, either way
      round. */
  lemma GradientStopsSpan(g: GradientDesc, b: Rect, base: Option<Color>, dir: Point, made: Result<seq<Stop>>)
    requires dir.x != 0.0 || dir.y != 0.0
    requires made.Success? && Spans(made.value)
    requires GradientWith(g, b, base, dir, made).Success?
    ensures Spans(GradientWith(g, b, base, dir, made).value.stops)
  {
    GradientShape(g, b, base, dir, made);
    if g.reverse {
      ReversedSpans(made.value);
    }
  }

  /** construct_gradient: the checks, the stops, the reversal loop, then the
      end points moved by the offset in place for a linear gradient. */
  method ConstructGradient(g: GradientDesc, b: Rect, base: Option<Color>, dir: Point)
    returns (r: Result<GradientItem>)
    requires dir.x != 0.0 || dir.y != 0.0
    ensures r == GradientWith(g, b, base, dir, StopsOf(g.clrs, g.trns, base, g.opacity.value))
  {
    if !g.align || g.angle.units != "#Ang" || g.opacity.units != "#Prc" {
      return Failure(UnsupportedGradient);
    }
    if !(g.opacity.value == 100.0 || base.Some?) {
      return Failure(UnsupportedGradient);
    }
    var made := ConstructGradientStops(g.clrs, g.trns, base, g.opacity.value);
    if made.Failure? {
      return Failure(made.error);
    }
    var stops := made.value;
    if g.modeType != "BlnM" || g.modeEnum != "Nrml" {
      return Failure(UnsupportedGradient);
    }
    if g.reverse {
      stops := ReverseStops(stops);
    }
    r := PlaceGradient(g, b, dir, stops);
  }

  /** The end of construct_gradient: the scale and type checks, then the end
      points, moved by the offset in place for a linear gradient. */
  method PlaceGradient(g: GradientDesc, b: Rect, dir: Point, stops: seq<Stop>) returns (r: Result<GradientItem>)
    requires dir.x != 0.0 || dir.y != 0.0
    ensures r == Dispatch(g, b, dir, stops)
  {
    if g.scale.units != "#Prc" {
      return Failure(UnsupportedGradient);
    }
    var scale := g.scale.value / 100.0;
    if g.typeType != "GrdT" {
      return Failure(UnsupportedGradient);
    }
    if g.typeEnum == "Lnr " {
      var points := GradientPoints(b, dir, scale);
      var p1, p2 := points.0, points.1;
      var off := GradientOffset(b, g.offsetH, g.offsetV);
      if off.Failure? {
        return Failure(off.error);
      }
      p1 := p1.(x := p1.x + off.value.x);
      p1 := p1.(y := p1.y + off.value.y);
      p2 := p2.(x := p2.x + off.value.x);
      p2 := p2.(y := p2.y + off.value.y);
      r := Success(Linear(p1, p2, stops));
    } else if g.typeEnum == "Rdl " {
      var points := GradientPoints(b, dir, scale);
      var p1, p2 := points.0, points.1;
      var off := GradientOffset(b, g.offsetH, g.offsetV);
      if off.Failure? {
        return Failure(off.error);
      }
      var center := Point((p1.x + p2.x) / 2.0 + off.value.x, (p1.y + p2.y) / 2.0 + off.value.y);
      r := Success(Radial(center, RadialAsWritten(p1, p2, off.value), stops));
    } else {
      r := Failure(UnsupportedGradient);
    }
  }
}
