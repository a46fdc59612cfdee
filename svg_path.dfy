/** Vector masks to SVG paths (p2s_path.py): path records become subpaths of
    Bézier segments in document coordinates, subpaths are grouped by their
    combine mode into a filled path and an optional subtracting mask, and the
    layer's vector-mask flags switch the mask off or invert it. */
module SvgPath {
  import opened Base
  import opened PsdPrimitive
  import opened PsdAdditional
  import opened SvgUtil

  /** One command of SVG path data, with points already in document space. */
  datatype Segment =
    | MoveTo(to: Point)
    | CurveTo(c1: Point, c2: Point, to: Point)
    | ClosePath

  /** One entry of the converter's result: a subpath's combine mode (None when
      knots come before any subpath start) and its path data. */
  datatype SubpathData = SubpathData(combineMode: Option<int>, segments: seq<Segment>)

  /** The three points of one knot, in the layer's normalised coordinates. */
  datatype KnotPoints = KnotPoints(back: Point, anchor: Point, front: Point)

  /** The subpath being gathered: its mode, its combine mode, its knots so far.
      Before the first subpath start the mode is unset, which behaves as open. */
  datatype Current = Current(closed: bool, combineMode: Option<int>, knots: seq<KnotPoints>)

  // ---------------------------------------------------------------------------
  // Records to subpaths.

  /** A normalised point stretched over the bounds. */
  function RenderPoint(b: Rect, p: Point): Point {
    Point(Stretch(b.left, p.x, b.right), Stretch(b.top, p.y, b.bottom))
  }

  /** The share t of the way from lo to hi. */
  function Stretch(lo: int, t: real, hi: int): real {
    lo as real + t * (hi - lo) as real
  }

  /** The open outline through the knots: a move to the first anchor, then one
      cubic per further knot, its controls the previous front handle and this
      knot's back handle. */
  function OpenSegments(b: Rect, knots: seq<KnotPoints>): (segs: seq<Segment>)
    requires |knots| > 0
    ensures |segs| == |knots|
    ensures segs[0] == MoveTo(RenderPoint(b, knots[0].anchor))
    ensures forall i | 1 <= i < |knots| ::
      segs[i] == CurveTo(RenderPoint(b, knots[i - 1].front), RenderPoint(b, knots[i].back), RenderPoint(b, knots[i].anchor))
    decreases |knots|
  {
    if |knots| == 1 then [MoveTo(RenderPoint(b, knots[0].anchor))]
    else
      var k := knots[|knots| - 1];
      OpenSegments(b, knots[..|knots| - 1])
        + [CurveTo(RenderPoint(b, knots[|knots| - 2].front), RenderPoint(b, k.back), RenderPoint(b, k.anchor))]
  }

  /** The closing segment of a closed subpath, from its last knot back to its first. */
  function ClosingSegments(b: Rect, knots: seq<KnotPoints>): seq<Segment>
    requires |knots| > 0
  {
    [CurveTo(RenderPoint(b, knots[|knots| - 1].front), RenderPoint(b, knots[0].back), RenderPoint(b, knots[0].anchor)),
     ClosePath]
  }

  /** Finishing a subpath: nothing when it has no knot, else one entry. */
  function Finish(b: Rect, cur: Current): seq<SubpathData> {
    if |cur.knots| == 0 then []
    else [SubpathData(cur.combineMode,
                      OpenSegments(b, cur.knots) + (if cur.closed then ClosingSegments(b, cur.knots) else []))]
  }

  /** The records processed left to right from the state `cur`. A record
      without a type (one the reader did not recognise) fails the lookup of
      its type; fill-rule and clipboard records are skipped. */
  function ConvertFrom(b: Rect, records: seq<PathRecord>, cur: Current): Result<seq<SubpathData>>
    decreases |records|
  {
    if |records| == 0 then Success(Finish(b, cur))
    else match records[0]
      case SubpathStart(closed, _, mode) =>
        Glue(Finish(b, cur), ConvertFrom(b, records[1..], Current(closed, Some(mode), [])))
      case Knot(_, _, back, anchor, front) =>
        ConvertFrom(b, records[1..], cur.(knots := cur.knots + [KnotPoints(back, anchor, front)]))
      case Unrecognised => Failure(UnknownRecord)
      case _ => ConvertFrom(b, records[1..], cur)
  }

  /** psd_path_records_to_svg_path_data as a function of its inputs. */
  function PathDataOf(b: Rect, records: seq<PathRecord>): Result<seq<SubpathData>> {
    ConvertFrom(b, records, Current(false, None, []))
  }

  /** The converter's local variables describe the subpath `knots` being gathered. */
  ghost predicate Tracks(b: Rect, d: seq<Segment>, firstBack: Option<Point>, firstAnchor: Option<Point>,
                         prevFront: Option<Point>, knots: seq<KnotPoints>)
  {
    if |knots| == 0 then
      d == [] && firstBack.None? && firstAnchor.None? && prevFront.None?
    else
      && d == OpenSegments(b, knots)
      && firstBack == Some(knots[0].back)
      && firstAnchor == Some(knots[0].anchor)
      && prevFront == Some(knots[|knots| - 1].front)
  }

  /** Gathering one more knot: the first one starts the outline with a move,
      a later one adds a cubic from the previous front handle. */
  lemma TracksKnot(b: Rect, d: seq<Segment>, firstBack: Option<Point>, firstAnchor: Option<Point>,
                   prevFront: Option<Point>, knots: seq<KnotPoints>, k: KnotPoints)
    requires Tracks(b, d, firstBack, firstAnchor, prevFront, knots)
    ensures prevFront.None? ==>
      Tracks(b, d + [MoveTo(RenderPoint(b, k.anchor))], Some(k.back), Some(k.anchor), Some(k.front), knots + [k])
    ensures prevFront.Some? ==>
      Tracks(b, d + [CurveTo(RenderPoint(b, prevFront.value), RenderPoint(b, k.back), RenderPoint(b, k.anchor))],
             firstBack, firstAnchor, Some(k.front), knots + [k])
  {
    var grown := knots + [k];
    assert grown[..|grown| - 1] == knots;
  }

  /** finish_path: the entry for the subpath gathered so far, if it has a knot. */
  method FinishPath(b: Rect, d: seq<Segment>, closed: bool, combineMode: Option<int>, firstBack: Option<Point>,
                    firstAnchor: Option<Point>, prevFront: Option<Point>, ghost knots: seq<KnotPoints>)
    returns (entries: seq<SubpathData>)
    requires Tracks(b, d, firstBack, firstAnchor, prevFront, knots)
    ensures entries == Finish(b, Current(closed, combineMode, knots))
  {
    if firstBack.None? {
      return [];
    }
    var extra: seq<Segment> := [];
    if closed {
      extra := [CurveTo(RenderPoint(b, prevFront.value), RenderPoint(b, firstBack.value), RenderPoint(b, firstAnchor.value)),
                ClosePath];
    }
    entries := [SubpathData(combineMode, d + extra)];
  }

  /** psd_path_records_to_svg_path_data, over the source's own variables. */
  method PathRecordsToPathData(records: seq<PathRecord>, b: Rect) returns (r: Result<seq<SubpathData>>)
    ensures r == PathDataOf(b, records)
  {
    var d: seq<Segment> := [];
    var results: seq<SubpathData> := [];
    var closed := false;
    var combineMode: Option<int> := None;
    var firstBack: Option<Point> := None;
    var firstAnchor: Option<Point> := None;
    var prevFront: Option<Point> := None;
    ghost var knots: seq<KnotPoints> := [];
    GlueEmpty(PathDataOf(b, records));
    var i := 0;
    while i < |records|
      invariant 0 <= i <= |records|
      invariant Tracks(b, d, firstBack, firstAnchor, prevFront, knots)
      invariant Glue(results, ConvertFrom(b, records[i..], Current(closed, combineMode, knots))) == PathDataOf(b, records)
    {
      assert records[i..][1..] == records[i + 1..];
      match records[i] {
      case SubpathStart(c, _, mode) =>
        var done := FinishPath(b, d, closed, combineMode, firstBack, firstAnchor, prevFront, knots);
        GlueGlue(results, done, ConvertFrom(b, records[i + 1..], Current(c, Some(mode), [])));
        results := results + done;
        d := [];
        closed := c;
        combineMode := Some(mode);
        firstBack, firstAnchor, prevFront := None, None, None;
        knots := [];
      case Knot(_, _, back, anchor, front) =>
        ghost var grown := knots + [KnotPoints(back, anchor, front)];
        TracksKnot(b, d, firstBack, firstAnchor, prevFront, knots, KnotPoints(back, anchor, front));
        if prevFront.None? {
          firstBack := Some(back);
          firstAnchor := Some(anchor);
          d := d + [MoveTo(RenderPoint(b, anchor))];
          prevFront := Some(front);
        } else {
          d := d + [CurveTo(RenderPoint(b, prevFront.value), RenderPoint(b, back), RenderPoint(b, anchor))];
          prevFront := Some(front);
        }
        knots := grown;
      case Unrecognised =>
        return Failure(UnknownRecord);
      case _ =>
      }
      i := i + 1;
    }
    var done := FinishPath(b, d, closed, combineMode, firstBack, firstAnchor, prevFront, knots);
    r := Success(results + done);
  }

  // ---------------------------------------------------------------------------
  // What the conversion produces.

  /** The bounds' corners are the images of the unit square's corners. */
  lemma RenderCorners(b: Rect)
    ensures RenderPoint(b, Point(0.0, 0.0)) == Point(b.left as real, b.top as real)
    ensures RenderPoint(b, Point(1.0, 1.0)) == Point(b.right as real, b.bottom as real)
  {
    UnitPlace(b.left, 0.0, b.right);
    UnitPlace(b.top, 0.0, b.bottom);
    UnitPlace(b.left, 1.0, b.right);
    UnitPlace(b.top, 1.0, b.bottom);
  }

  /** A normalised point inside the unit square lands inside the bounds. */
  lemma RenderInBounds(b: Rect, p: Point)
    requires b.left <= b.right && b.top <= b.bottom
    requires 0.0 <= p.x <= 1.0 && 0.0 <= p.y <= 1.0
    ensures b.left as real <= RenderPoint(b, p).x <= b.right as real
    ensures b.top as real <= RenderPoint(b, p).y <= b.bottom as real
  {
    UnitPlace(b.left, p.x, b.right);
    UnitPlace(b.top, p.y, b.bottom);
  }

  /** No share of the way is at lo, all of it at hi, and a share in [0, 1]
      stays between them. */
  lemma UnitPlace(lo: int, t: real, hi: int)
    ensures Stretch(lo, 0.0, hi) == lo as real && Stretch(lo, 1.0, hi) == hi as real
    ensures 0.0 <= t <= 1.0 && lo <= hi ==> lo as real <= Stretch(lo, t, hi) <= hi as real
  {
    var w := (hi - lo) as real;
    assert w - t * w == (1.0 - t) * w;
    assert 0.0 * w == 0.0 && 1.0 * w == w;
    assert lo as real + w == hi as real;
    if 0.0 <= t <= 1.0 && lo <= hi {
      assert 0.0 <= t * w by { MulNonneg(t, w); }
      assert 0.0 <= (1.0 - t) * w by { MulNonneg(1.0 - t, w); }
    }
  }

  /** The conversion fails exactly when some record has no type. */
  lemma {:induction false} ConvertFails(b: Rect, records: seq<PathRecord>, cur: Current)
    ensures ConvertFrom(b, records, cur).Failure? <==> exists i | 0 <= i < |records| :: records[i].Unrecognised?
    ensures ConvertFrom(b, records, cur).Failure? ==> ConvertFrom(b, records, cur).error == UnknownRecord
    decreases |records|
  {
    if |records| > 0 {
      var rest := records[1..];
      assert forall i | 1 <= i < |records| :: records[i] == rest[i - 1];
      match records[0]
      case SubpathStart(closed, _, mode) => ConvertFails(b, rest, Current(closed, Some(mode), []));
      case Knot(_, _, back, anchor, front) =>
        ConvertFails(b, rest, cur.(knots := cur.knots + [KnotPoints(back, anchor, front)]));
      case Unrecognised =>
      case PathFillRule => ConvertFails(b, rest, cur);
      case Clipboard(_, _, _, _, _) => ConvertFails(b, rest, cur);
      case InitialFillRule(_) => ConvertFails(b, rest, cur);
    }
  }

  /** A subpath's knots processed one after another add to the current one. */
  ghost predicate KnotsOnly(records: seq<PathRecord>) {
    forall i | 0 <= i < |records| :: records[i].Knot?
  }

  function KnotsOf(records: seq<PathRecord>): (knots: seq<KnotPoints>)
    requires KnotsOnly(records)
    ensures |knots| == |records|
    ensures forall i | 0 <= i < |records| ::
      knots[i] == KnotPoints(records[i].back, records[i].anchor, records[i].front)
    decreases |records|
  {
    if |records| == 0 then []
    else
      var k := records[|records| - 1];
      KnotsOf(records[..|records| - 1]) + [KnotPoints(k.back, k.anchor, k.front)]
  }

  /** A run of knot records extends the current subpath by their knots, in order. */
  lemma {:induction false} KnotRun(b: Rect, knots: seq<PathRecord>, rest: seq<PathRecord>, cur: Current)
    requires KnotsOnly(knots)
    ensures ConvertFrom(b, knots + rest, cur) == ConvertFrom(b, rest, cur.(knots := cur.knots + KnotsOf(knots)))
    decreases |knots|
  {
    if |knots| > 0 {
      var k := knots[0];
      var cur' := cur.(knots := cur.knots + [KnotPoints(k.back, k.anchor, k.front)]);
      assert (knots + rest)[1..] == knots[1..] + rest;
      KnotRun(b, knots[1..], rest, cur');
      assert KnotsOf(knots) == [KnotPoints(k.back, k.anchor, k.front)] + KnotsOf(knots[1..]);
      assert cur.knots + KnotsOf(knots) == cur'.knots + KnotsOf(knots[1..]);
    } else {
      assert knots + rest == rest;
      assert cur.knots + KnotsOf(knots) == cur.knots;
    }
  }

  /** One subpath: a start record followed by k knot records gives one entry
      of its combine mode, a move and k - 1 cubics, and for a closed subpath a
      cubic back to the first knot and a close; with no knots, nothing. */
  lemma OneSubpath(b: Rect, closed: bool, count: int, mode: int, knots: seq<PathRecord>)
    requires KnotsOnly(knots)
    ensures |knots| == 0 ==> PathDataOf(b, [SubpathStart(closed, count, mode)] + knots) == Success([])
    ensures |knots| > 0 ==>
      PathDataOf(b, [SubpathStart(closed, count, mode)] + knots) ==
      Success([SubpathData(Some(mode), OpenSegments(b, KnotsOf(knots))
                                       + (if closed then ClosingSegments(b, KnotsOf(knots)) else []))])
  {
    var records := [SubpathStart(closed, count, mode)] + knots;
    var start := Current(closed, Some(mode), []);
    var cur := start.(knots := [] + KnotsOf(knots));
    assert records[0] == SubpathStart(closed, count, mode);
    assert records[1..] == knots + [];
    KnotRun(b, knots, [], start);
    assert ConvertFrom(b, records[1..], start) == ConvertFrom(b, [], cur) == Success(Finish(b, cur));
    assert PathDataOf(b, records) == Glue([], Success(Finish(b, cur)));
    assert [] + KnotsOf(knots) == KnotsOf(knots);
    GlueEmpty(Success(Finish(b, cur)));
  }

  /** Every entry the conversion produces has path data that starts with a move. */
  lemma {:induction false} EntriesStartWithMove(b: Rect, records: seq<PathRecord>, cur: Current)
    requires ConvertFrom(b, records, cur).Success?
    ensures forall j | 0 <= j < |ConvertFrom(b, records, cur).value| ::
      |ConvertFrom(b, records, cur).value[j].segments| > 0
      && ConvertFrom(b, records, cur).value[j].segments[0].MoveTo?
    decreases |records|
  {
    if |records| > 0 {
      var rest := records[1..];
      match records[0]
      case SubpathStart(closed, _, mode) => EntriesStartWithMove(b, rest, Current(closed, Some(mode), []));
      case Knot(_, _, back, anchor, front) =>
        EntriesStartWithMove(b, rest, cur.(knots := cur.knots + [KnotPoints(back, anchor, front)]));
      case PathFillRule => EntriesStartWithMove(b, rest, cur);
      case Clipboard(_, _, _, _, _) => EntriesStartWithMove(b, rest, cur);
      case InitialFillRule(_) => EntriesStartWithMove(b, rest, cur);
    }
  }

  // ---------------------------------------------------------------------------
  // Grouping subpaths by combine mode.

  datatype FillRule = NonZero | EvenOdd

  /** The grouping state: the filled and the subtracted subpaths and their rules. */
  datatype Groups = Groups(positive: seq<seq<Segment>>, negative: seq<seq<Segment>>,
                           positiveRule: Option<FillRule>, negativeRule: Option<FillRule>)

  const NoGroups := Groups([], [], None, Some(NonZero))

  /** A filled subpath under `rule`: only before any subtracted one, and only
      when the rule so far is unset or the same. */
  function AddPositive(g: Groups, segs: seq<Segment>, rule: FillRule): Result<Groups> {
    if |g.negative| != 0 then Failure(CombineModeConflict)
    else
      var r := if g.positiveRule.None? then Some(rule) else g.positiveRule;
      if r != Some(rule) then Failure(CombineModeConflict)
      else Success(g.(positive := g.positive + [segs], positiveRule := r))
  }

  /** One subpath sorted into the groups by its combine mode: 1 combine
      (non-zero), 0 exclude overlap (even-odd), 2 subtract, and -1 the
      continuation of the previous subpath, which switches a lone non-zero
      subpath to even-odd and is then treated as mode 0. */
  function SortEntry(g: Groups, e: SubpathData): Result<Groups> {
    if e.combineMode.None? then Failure(UnknownCombineMode)
    else
      var mode := e.combineMode.value;
      if mode == -1 then
        var rule := if g.positiveRule.None? || (g.positiveRule == Some(NonZero) && |g.positive| == 1)
                    then Some(EvenOdd) else g.positiveRule;
        if rule != Some(EvenOdd) then Failure(CombineModeConflict)
        else AddPositive(g.(positiveRule := rule), e.segments, EvenOdd)
      else if mode == 1 then AddPositive(g, e.segments, NonZero)
      else if mode == 0 then AddPositive(g, e.segments, EvenOdd)
      else if mode == 2 then Success(g.(negative := g.negative + [e.segments]))
      else Failure(UnknownCombineMode)
  }

  /** The subpaths sorted one after another. */
  function SortAll(g: Groups, entries: seq<SubpathData>): Result<Groups>
    decreases |entries|
  {
    if |entries| == 0 then Success(g)
    else
      var g' :- SortEntry(g, entries[0]);
      SortAll(g', entries[1..])
  }

  /** How a single subpath changes the groups, mode by mode. */
  lemma CombineRules(g: Groups, e: SubpathData)
    ensures e.combineMode.None? ==> SortEntry(g, e) == Failure(UnknownCombineMode)
    ensures e.combineMode.Some? && e.combineMode.value !in {-1, 0, 1, 2} ==> SortEntry(g, e) == Failure(UnknownCombineMode)
    ensures e.combineMode == Some(2) ==> SortEntry(g, e) == Success(g.(negative := g.negative + [e.segments]))
    ensures e.combineMode == Some(1) ==>
      (SortEntry(g, e).Success? <==> |g.negative| == 0 && g.positiveRule != Some(EvenOdd))
    ensures e.combineMode == Some(0) ==>
      (SortEntry(g, e).Success? <==> |g.negative| == 0 && g.positiveRule != Some(NonZero))
    ensures e.combineMode == Some(-1) ==>
      (SortEntry(g, e).Success? <==>
        |g.negative| == 0 && (g.positiveRule != Some(NonZero) || |g.positive| == 1))
    ensures e.combineMode.Some? && e.combineMode.value in {-1, 0, 1} && SortEntry(g, e).Success? ==>
      SortEntry(g, e).value == g.(positive := g.positive + [e.segments],
                                  positiveRule := Some(if e.combineMode.value == 1 then NonZero else EvenOdd))
    ensures SortEntry(g, e).Failure? ==> SortEntry(g, e).error in {UnknownCombineMode, CombineModeConflict}
  {
    if e.combineMode.Some? {
      match g.positiveRule
      case None =>
      case Some(rule) => assert rule == NonZero || rule == EvenOdd;
    }
  }

  /** The filled part of one subpath: itself unless it subtracts. */
  function FilledPart(e: SubpathData): seq<seq<Segment>> {
    if e.combineMode == Some(2) then [] else [e.segments]
  }

  /** The subtracted part of one subpath. */
  function SubtractedPart(e: SubpathData): seq<seq<Segment>> {
    if e.combineMode == Some(2) then [e.segments] else []
  }

  /** The filled subpaths: those whose combine mode is not subtract. */
  function PositiveOf(entries: seq<SubpathData>): seq<seq<Segment>>
    decreases |entries|
  {
    if |entries| == 0 then [] else FilledPart(entries[0]) + PositiveOf(entries[1..])
  }

  /** The subtracted subpaths. */
  function NegativeOf(entries: seq<SubpathData>): seq<seq<Segment>>
    decreases |entries|
  {
    if |entries| == 0 then [] else SubtractedPart(entries[0]) + NegativeOf(entries[1..])
  }

  /** One successful sorting step adds the subpath to its group. */
  lemma SortStep(g: Groups, e: SubpathData)
    requires SortEntry(g, e).Success?
    ensures SortEntry(g, e).value.positive == g.positive + FilledPart(e)
    ensures SortEntry(g, e).value.negative == g.negative + SubtractedPart(e)
    ensures SortEntry(g, e).value.negativeRule == g.negativeRule
    ensures SortEntry(g, e).value.positiveRule.Some? <==> g.positiveRule.Some? || e.combineMode != Some(2)
  {
    CombineRules(g, e);
    assert g.positive + [] == g.positive && g.negative + [] == g.negative;
  }

  /** A successful sort puts the filled subpaths, in order, after the ones
      already filled and the subtracted ones after the ones already subtracted;
      the subtract rule is untouched and the fill rule is set once a filled
      subpath has been seen. */
  lemma {:induction false} SortAllGroups(g: Groups, entries: seq<SubpathData>)
    requires SortAll(g, entries).Success?
    ensures SortAll(g, entries).value.positive == g.positive + PositiveOf(entries)
    ensures SortAll(g, entries).value.negative == g.negative + NegativeOf(entries)
    ensures SortAll(g, entries).value.negativeRule == g.negativeRule
    ensures SortAll(g, entries).value.positiveRule.Some? <==> g.positiveRule.Some? || |PositiveOf(entries)| > 0
    decreases |entries|
  {
    if |entries| > 0 {
      var e := entries[0];
      SortStep(g, e);
      var g' := SortEntry(g, e).value;
      SortAllGroups(g', entries[1..]);
      assert g.positive + FilledPart(e) + PositiveOf(entries[1..]) == g.positive + PositiveOf(entries);
      assert g.negative + SubtractedPart(e) + NegativeOf(entries[1..]) == g.negative + NegativeOf(entries);
    } else {
      assert g.positive + [] == g.positive && g.negative + [] == g.negative;
    }
  }

  /** A successful sort sees only known combine modes, and no filled subpath
      after a subtracted one. */
  lemma {:induction false} SortAllOrder(g: Groups, entries: seq<SubpathData>)
    requires SortAll(g, entries).Success?
    ensures forall j | 0 <= j < |entries| ::
      entries[j].combineMode.Some? && entries[j].combineMode.value in {-1, 0, 1, 2}
    ensures |g.negative| > 0 ==> forall j | 0 <= j < |entries| :: entries[j].combineMode == Some(2)
    ensures forall i, j | 0 <= i < j < |entries| && entries[i].combineMode == Some(2) ::
      entries[j].combineMode == Some(2)
    decreases |entries|
  {
    if |entries| > 0 {
      var e := entries[0];
      CombineRules(g, e);
      var g' := SortEntry(g, e).value;
      var rest := entries[1..];
      SortAllOrder(g', rest);
      assert forall j | 1 <= j < |entries| :: entries[j] == rest[j - 1];
      if e.combineMode == Some(2) {
        assert |g'.negative| > 0;
      }
    }
  }

  // ---------------------------------------------------------------------------
  // The path and its mask.

  /** A path's 'd': the subpaths joined by spaces, or the outline of the bounds. */
  datatype PathText = Subpaths(parts: seq<seq<Segment>>) | BoxOutline(text: string)

  /** The mask: a white box over the bounds and the subtracted subpaths in black. */
  datatype MaskOut = MaskOut(id: string, box: string, d: seq<seq<Segment>>, fillRule: Option<FillRule>)

  /** The built path: its data, its fill rule if set, and the mask it refers to. */
  datatype PathOut = PathOut(d: PathText, fillRule: Option<FillRule>, mask: Option<MaskOut>)

  /** build_path_from_data as a function; `maskId` is the id the mask would take. */
  function BuildPathOf(entries: seq<SubpathData>, invert: bool, b: Rect, maskId: string): Result<PathOut> {
    var sorted :- SortAll(NoGroups, entries);
    var g := if invert
             then Groups(sorted.negative, sorted.positive, sorted.negativeRule, sorted.positiveRule)
             else sorted;
    var mask := if |g.negative| > 0 then Some(MaskOut(maskId, BoxPathData(b), g.negative, g.negativeRule)) else None;
    var d := if |g.positive| == 0 then BoxOutline(BoxPathData(b)) else Subpaths(g.positive);
    Success(PathOut(d, g.positiveRule, mask))
  }

  /** What the built path holds: without inversion the filled subpaths form
      the path and the subtracted ones the mask; with inversion the two swap.
      A mask exists exactly when its side is non-empty, and then it has a fill
      rule; an empty path side falls back to the outline of the bounds; the
      path has a fill rule when inverted (the subtract rule) or when some
      subpath is filled. */
  lemma BuildPathShape(entries: seq<SubpathData>, invert: bool, b: Rect, maskId: string)
    requires BuildPathOf(entries, invert, b, maskId).Success?
    ensures var out := BuildPathOf(entries, invert, b, maskId).value;
      var shown := if invert then NegativeOf(entries) else PositiveOf(entries);
      var hidden := if invert then PositiveOf(entries) else NegativeOf(entries);
      && (out.mask.Some? <==> |hidden| > 0)
      && (out.mask.Some? ==> out.mask.value == MaskOut(maskId, BoxPathData(b), hidden, out.mask.value.fillRule)
                             && out.mask.value.fillRule.Some?)
      && out.d == (if |shown| == 0 then BoxOutline(BoxPathData(b)) else Subpaths(shown))
      && (out.fillRule.Some? <==> invert || |PositiveOf(entries)| > 0)
      && (invert ==> out.fillRule == Some(NonZero))
  {
    SortAllGroups(NoGroups, entries);
    assert [] + PositiveOf(entries) == PositiveOf(entries);
    assert [] + NegativeOf(entries) == NegativeOf(entries);
  }

  /** build_path_from_data over the source's own variables; a mask takes the
      generator's next id. */
  method BuildPathFromData(pathData: seq<SubpathData>, invert: bool, b: Rect, gen: IdGenerator)
    returns (r: Result<PathOut>)
    modifies gen
    ensures r == BuildPathOf(pathData, invert, b, IdOf(old(gen.last) + 1))
    ensures gen.last == old(gen.last) + (if r.Success? && r.value.mask.Some? then 1 else 0)
  {
    var positive: seq<seq<Segment>> := [];
    var negative: seq<seq<Segment>> := [];
    var positiveRule: Option<FillRule> := None;
    var negativeRule: Option<FillRule> := Some(NonZero);
    var i := 0;
    while i < |pathData|
      invariant 0 <= i <= |pathData|
      invariant SortAll(Groups(positive, negative, positiveRule, negativeRule), pathData[i..]) == SortAll(NoGroups, pathData)
    {
      var subpath := pathData[i];
      assert pathData[i..][1..] == pathData[i + 1..];
      if subpath.combineMode.None? {
        return Failure(UnknownCombineMode);
      }
      var combineMode := subpath.combineMode.value;
      if combineMode == -1 {
        if positiveRule.None? || (positiveRule == Some(NonZero) && |positive| == 1) {
          positiveRule := Some(EvenOdd);
        }
        if positiveRule != Some(EvenOdd) {
          return Failure(CombineModeConflict);
        }
        combineMode := 0;
      }
      if combineMode == 1 {
        if |negative| != 0 {
          return Failure(CombineModeConflict);
        }
        if positiveRule.None? {
          positiveRule := Some(NonZero);
        }
        if positiveRule != Some(NonZero) {
          return Failure(CombineModeConflict);
        }
        positive := positive + [subpath.segments];
      } else if combineMode == 0 {
        if |negative| != 0 {
          return Failure(CombineModeConflict);
        }
        if positiveRule.None? {
          positiveRule := Some(EvenOdd);
        }
        if positiveRule != Some(EvenOdd) {
          return Failure(CombineModeConflict);
        }
        positive := positive + [subpath.segments];
      } else if combineMode == 2 {
        negative := negative + [subpath.segments];
      } else {
        return Failure(UnknownCombineMode);
      }
      i := i + 1;
    }
    if invert {
      positive, negative := negative, positive;
      positiveRule, negativeRule := negativeRule, positiveRule;
    }
    var mask: Option<MaskOut> := None;
    if |negative| > 0 {
      var id := gen.NextId();
      mask := Some(MaskOut(id, BoxPathData(b), negative, negativeRule));
    }
    var d := if |positive| == 0 then BoxOutline(BoxPathData(b)) else Subpaths(positive);
    r := Success(PathOut(d, positiveRule, mask));
  }

  // ---------------------------------------------------------------------------
  // Vector-mask flags.

  /** Bit 0 of the vector-mask flags: the mask is inverted. */
  predicate Inverted(flags: nat) {
    flags % 2 == 1
  }

  /** Bit 2 of the vector-mask flags: the mask is disabled. */
  predicate MaskDisabled(flags: nat) {
    (flags / 4) % 2 == 1
  }

  /** construct_path as a function: a disabled mask contributes no subpaths. */
  function ConstructPathOf(records: seq<PathRecord>, flags: nat, b: Rect, maskId: string): Result<PathOut> {
    var data :- if MaskDisabled(flags) then Success([]) else PathDataOf(b, records);
    BuildPathOf(data, Inverted(flags), b, maskId)
  }

  /** A disabled vector mask draws the whole bounds, with no mask; inverted,
      it carries the non-zero rule. */
  lemma DisabledMask(records: seq<PathRecord>, flags: nat, b: Rect, maskId: string)
    requires MaskDisabled(flags)
    ensures ConstructPathOf(records, flags, b, maskId) ==
      Success(PathOut(BoxOutline(BoxPathData(b)), if Inverted(flags) then Some(NonZero) else None, None))
  {
    assert SortAll(NoGroups, []) == Success(NoGroups);
  }

  /** construct_path. */
  method ConstructPath(records: seq<PathRecord>, flags: nat, b: Rect, gen: IdGenerator) returns (r: Result<PathOut>)
    modifies gen
    ensures r == ConstructPathOf(records, flags, b, IdOf(old(gen.last) + 1))
    ensures gen.last == old(gen.last) + (if r.Success? && r.value.mask.Some? then 1 else 0)
  {
    var data: seq<SubpathData> := [];
    if !MaskDisabled(flags) {
      var converted := PathRecordsToPathData(records, b);
      if converted.Failure? {
        return Failure(converted.error);
      }
      data := converted.value;
    }
    r := BuildPathFromData(data, Inverted(flags), b, gen);
  }
}
