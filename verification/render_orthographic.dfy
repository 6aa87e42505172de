/**
 * The layout decisions of the orthographic PNG views (front, side and
 * plan): how each view frames the wall on the 2800 x 2000 canvas, which
 * dimension call-outs it draws and with what values, and how the data
 * panel assembles its sections and how tall it is. Pixels, strokes, fonts
 * and the WebGL render itself are not modelled.
 */
module Orthographic {
  import opened Base
  import Types
  import Compute
  import Projector

  type Geometry = Projector.Geometry

  // ---------------------------------------------------------------------
  // Canvas

  const CanvasW: int := 2800
  const CanvasH: int := 2000
  const Margin: int := 100

  /** Width kept free on the right for the data panel. */
  const PanelReserve: int := 440

  /** The area the render is fitted into. */
  const DrawAreaW: real := (CanvasW - 2 * Margin - PanelReserve) as real
  const DrawAreaH: real := (CanvasH - 200) as real

  /** The render fills at most this fraction of the drawing area. */
  const Fill: real := 0.82

  /** Left edge of the render. */
  const OriginX: real := (Margin + 60) as real

  /** Data panel: left edge, top edge, width. */
  const PanelX: int := CanvasW - Margin - 400
  const PanelY: int := 80
  const PanelW: int := 400

  /** Title block: top edge (it spans x from CanvasW - Margin - 360). */
  const TitleBlockY: int := CanvasH - Margin / 2 - 90

  // ---------------------------------------------------------------------
  // Millimetre labels

  /** The number a call-out prints: metres to whole millimetres, halves rounded up. */
  function ToMm(v: real): (n: int)
    ensures v * 1000.0 - 0.5 < n as real <= v * 1000.0 + 0.5
  {
    Round(v * 1000.0)
  }

  /** A length of whole millimetres converted to metres prints as itself. */
  lemma ToMmOfMetres(n: int)
    ensures ToMm(Projector.ToMetres(n as real)) == n
  {
    RoundOfInt(n);
  }

  /** Labels keep the order of the lengths they print. */
  lemma ToMmMonotone(u: real, v: real)
    requires u <= v
    ensures ToMm(u) <= ToMm(v)
  {
    RoundMonotone(u * 1000.0, v * 1000.0);
  }

  // ---------------------------------------------------------------------
  // Framing

  datatype View = Front | Side | Plan

  /** The two model lengths (metres) a view puts on the canvas's x and y. */
  datatype Extent = Extent(x: real, y: real)

  /** Wall height including the bottom bar. */
  function TotalHeight(g: Geometry): real {
    g.botBar + g.ledH
  }

  /** Depth of the side and plan views: to the back of the truss, plus the leg arm. */
  function ViewDepth(g: Geometry): real {
    g.zTb + g.legArm
  }

  function ViewExtent(g: Geometry, v: View): (e: Extent)
    ensures v == Front ==> e == Extent(g.ledW, TotalHeight(g))
    ensures v == Side ==> e == Extent(ViewDepth(g), TotalHeight(g))
    ensures v == Plan ==> e == Extent(g.ledW, ViewDepth(g))
  {
    match v
    case Front => Extent(g.ledW, TotalHeight(g))
    case Side => Extent(ViewDepth(g), TotalHeight(g))
    case Plan => Extent(g.ledW, ViewDepth(g))
  }

  /** The renderer divides by both extents. */
  predicate Drawable(e: Extent) {
    e.x > 0.0 && e.y > 0.0
  }

  /** Where and how large the render sits on the canvas. */
  datatype Frame = Frame(scale: real, renderW: int, renderH: int, ox: real, oy: real)

  /**
   * Scale-to-fit: the largest scale at which both extents fit the drawing
   * area, times the fill factor.
   */
  function FitScale(e: Extent): (s: real)
    requires Drawable(e)
    ensures s > 0.0
    ensures e.x * s <= Fill * DrawAreaW && e.y * s <= Fill * DrawAreaH
    ensures e.x * s == Fill * DrawAreaW || e.y * s == Fill * DrawAreaH
  {
    var sx := DrawAreaW / e.x;
    var sy := DrawAreaH / e.y;
    if sx <= sy then
      assert e.y * sx <= e.y * sy == DrawAreaH;
      sx * Fill
    else
      assert e.x * sy <= e.x * sx == DrawAreaW;
      sy * Fill
  }


  function FitFrame(e: Extent): (f: Frame)
    requires Drawable(e)
    ensures f.scale == FitScale(e)
    ensures 0 <= f.renderW <= 1771 && 0 <= f.renderH <= 1476
    ensures f.renderW == 1771 || f.renderH == 1476
    ensures f.renderW as real <= e.x * f.scale < f.renderW as real + 1.0
    ensures f.renderH as real <= e.y * f.scale < f.renderH as real + 1.0
    ensures f.ox == OriginX
    ensures (f.oy - 120.0) * 2.0 == DrawAreaH - f.renderH as real
  {
    var s := FitScale(e);
    var w := Floor(e.x * s);
    var h := Floor(e.y * s);
    FloorMonotone(e.x * s, Fill * DrawAreaW);
    FloorMonotone(e.y * s, Fill * DrawAreaH);
    assert Floor(Fill * DrawAreaW) == 1771 && Floor(Fill * DrawAreaH) == 1476;
    Frame(s, w, h, OriginX, 80.0 + (DrawAreaH - h as real) / 2.0 + 40.0)
  }

  /**
   * The render stays on the canvas, below the page header, left of the
   * data panel and above the title block, for every drawable extent.
   */
  lemma RenderClearOfPanels(e: Extent)
    requires Drawable(e)
    ensures var f := FitFrame(e);
      && f.ox + f.renderW as real < PanelX as real
      && 80.0 < f.oy
      && f.oy + f.renderH as real < TitleBlockY as real
  {
  }

  /**
   * Only the aspect ratio matters: the same extents in other units give the
   * same render size and origin, at the scale divided by the factor.
   */
  lemma FrameIgnoresUnits(e: Extent, k: real)
    requires Drawable(e) && k > 0.0
    ensures Drawable(Extent(k * e.x, k * e.y))
    ensures var f := FitFrame(e);
      var f' := FitFrame(Extent(k * e.x, k * e.y));
      && f'.scale * k == f.scale
      && f'.renderW == f.renderW && f'.renderH == f.renderH && f'.oy == f.oy
  {
    var e' := Extent(k * e.x, k * e.y);
    var s := FitScale(e);
    var s' := FitScale(e');
    ScaleUnits(e, k);
    Cancel(e.x, k, s');
    Cancel(e.y, k, s');
  }

  lemma ScaleUnits(e: Extent, k: real)
    requires Drawable(e) && k > 0.0
    ensures FitScale(Extent(k * e.x, k * e.y)) * k == FitScale(e)
  {
    var e' := Extent(k * e.x, k * e.y);
    assert DrawAreaW / e'.x == (DrawAreaW / e.x) / k;
    assert DrawAreaH / e'.y == (DrawAreaH / e.y) / k;
  }

  lemma Cancel(a: real, k: real, s: real)
    ensures (k * a) * s == a * (s * k)
  {
  }

  // ---------------------------------------------------------------------
  // Dimension call-outs

  datatype DimKind =
    | OverallWidth | OverallHeight | OverallDepth
    | LedHeight | BottomBarHeight | LegSpan | LedDepth | TrussDepth

  /**
   * One call-out: the measured segment in canvas pixels, the millimetres it
   * prints, whether its text runs horizontally, and its offset from the
   * segment.
   */
  datatype Dimension = Dimension(
    kind: DimKind,
    x1: real, y1: real, x2: real, y2: real,
    mm: int,
    horizontal: bool,
    offset: int
  )

  /** The model length (metres) a call-out of each kind measures. */
  function Quantity(g: Geometry, k: DimKind): real {
    match k
    case OverallWidth => g.ledW
    case OverallHeight => TotalHeight(g)
    case OverallDepth => ViewDepth(g)
    case LedHeight => g.ledH
    case BottomBarHeight => g.botBar
    case LegSpan => if |g.legX| >= 2 then g.legX[|g.legX| - 1] - g.legX[0] else 0.0
    case LedDepth => g.cabD
    case TrussDepth => g.zTb - g.zTf
  }

  /** Length of the drawn segment along its run (one of the two deltas is zero). */
  function Run(d: Dimension): real {
    (d.x2 - d.x1) + (d.y2 - d.y1)
  }

  predicate Shows(d: seq<Dimension>, k: DimKind) {
    exists x :: x in d && x.kind == k
  }

  /**
   * A call-out prints the quantity of its kind and is drawn to scale: the
   * overall call-outs span the whole render, the bottom bar takes whatever
   * the render height leaves under the LED, every other call-out is its
   * quantity times the scale.
   */
  predicate Faithful(g: Geometry, f: Frame, x: Dimension) {
    && x.mm == ToMm(Quantity(g, x.kind))
    && match x.kind
       case OverallWidth => Run(x) == f.renderW as real && x.horizontal
       case OverallHeight => Run(x) == f.renderH as real && !x.horizontal
       case OverallDepth => Run(x) == (if x.horizontal then f.renderW else f.renderH) as real
       case BottomBarHeight => Run(x) == f.renderH as real - g.ledH * f.scale && !x.horizontal
       case _ => Run(x) == Quantity(g, x.kind) * f.scale
  }

  predicate AllFaithful(g: Geometry, f: Frame, d: seq<Dimension>) {
    forall x :: x in d ==> Faithful(g, f, x)
  }

  function WidthDim(g: Geometry, f: Frame): (x: Dimension)
    ensures x.kind == OverallWidth && Faithful(g, f, x)
  {
    var bottomY := f.oy + f.renderH as real;
    Dimension(OverallWidth, f.ox, bottomY, f.ox + f.renderW as real, bottomY, ToMm(g.ledW), true, 40)
  }

  function HeightDim(g: Geometry, f: Frame): (x: Dimension)
    ensures x.kind == OverallHeight && Faithful(g, f, x)
  {
    Dimension(OverallHeight, f.ox, f.oy, f.ox, f.oy + f.renderH as real, ToMm(TotalHeight(g)), false, 50)
  }

  /** Overall depth: along x in the side view, along y in the plan. */
  function DepthDim(g: Geometry, f: Frame, horizontal: bool): (x: Dimension)
    ensures x.kind == OverallDepth && x.horizontal == horizontal && Faithful(g, f, x)
  {
    if horizontal then
      var bottomY := f.oy + f.renderH as real;
      Dimension(OverallDepth, f.ox, bottomY, f.ox + f.renderW as real, bottomY, ToMm(ViewDepth(g)), true, 40)
    else
      Dimension(OverallDepth, f.ox, f.oy, f.ox, f.oy + f.renderH as real, ToMm(ViewDepth(g)), false, 50)
  }

  function LedHeightDim(g: Geometry, f: Frame): (x: Dimension)
    ensures x.kind == LedHeight && Faithful(g, f, x)
  {
    Dimension(LedHeight, f.ox, f.oy, f.ox, f.oy + g.ledH * f.scale, ToMm(g.ledH), false, 100)
  }

  /**
   * The LED and bottom-bar sub-dimensions, drawn only when there is a bottom
   * bar; they meet at the LED's lower edge and end at the render's bottom.
   */
  function BarDims(g: Geometry, f: Frame): (d: seq<Dimension>)
    ensures |d| == (if g.botBar > 0.0 then 2 else 0)
    ensures AllFaithful(g, f, d)
    ensures |d| == 2 ==>
      && d[0].kind == LedHeight && d[1].kind == BottomBarHeight
      && d[0].y1 == f.oy && d[0].y2 == d[1].y1 && d[1].y2 == f.oy + f.renderH as real
  {
    if g.botBar > 0.0 then
      var ledBotY := f.oy + g.ledH * f.scale;
      var bar := Dimension(BottomBarHeight, f.ox, ledBotY, f.ox, f.oy + f.renderH as real, ToMm(g.botBar), false, 100);
      assert Faithful(g, f, bar);
      [LedHeightDim(g, f), bar]
    else []
  }

  /** The leg span, 30 px under the render, from the first to the last leg; only for two or more legs. */
  function SpanDims(g: Geometry, f: Frame): (d: seq<Dimension>)
    ensures |d| == (if |g.legX| >= 2 then 1 else 0)
    ensures AllFaithful(g, f, d)
    ensures forall x :: x in d ==> x.kind == LegSpan
  {
    if |g.legX| >= 2 then
      var y := f.oy + f.renderH as real + 30.0;
      var last := g.legX[|g.legX| - 1];
      var x := Dimension(LegSpan, f.ox + g.legX[0] * f.scale, y, f.ox + last * f.scale, y,
                         ToMm(last - g.legX[0]), true, 40);
      assert Run(x) == (last - g.legX[0]) * f.scale;
      [x]
    else []
  }

  function FrontDims(g: Geometry, f: Frame): (d: seq<Dimension>)
    ensures AllFaithful(g, f, d)
    ensures |d| == 2 + (if g.botBar > 0.0 then 2 else 0) + (if |g.legX| >= 2 then 1 else 0)
    ensures d[0].kind == OverallWidth && d[1].kind == OverallHeight
  {
    [WidthDim(g, f), HeightDim(g, f)] + BarDims(g, f) + SpanDims(g, f)
  }

  /** Truss back minus truss front, in pixels, as the side view compares it. */
  function TrussDepthPx(g: Geometry, f: Frame): real {
    g.zTb * f.scale - g.zTf * f.scale
  }

  /** The LED-depth call-out, only when wider than 30 px. */
  function LedDepthDims(g: Geometry, f: Frame): (d: seq<Dimension>)
    ensures |d| == (if g.cabD * f.scale > 30.0 then 1 else 0)
    ensures AllFaithful(g, f, d)
    ensures forall x :: x in d ==> x.kind == LedDepth
  {
    var below := f.oy + f.renderH as real + 30.0;
    var ledDepthPx := g.cabD * f.scale;
    if ledDepthPx > 30.0 then [Dimension(LedDepth, f.ox, below, f.ox + ledDepthPx, below, ToMm(g.cabD), true, 40)]
    else []
  }

  /** The truss-depth call-out, from truss front to back, only when wider than 20 px. */
  function TrussDepthDims(g: Geometry, f: Frame): (d: seq<Dimension>)
    ensures |d| == (if TrussDepthPx(g, f) > 20.0 then 1 else 0)
    ensures AllFaithful(g, f, d)
    ensures forall x :: x in d ==> x.kind == TrussDepth
  {
    var below := f.oy + f.renderH as real + 30.0;
    var zTfPx := g.zTf * f.scale;
    var zTbPx := g.zTb * f.scale;
    if zTbPx - zTfPx > 20.0 then
      var x := Dimension(TrussDepth, f.ox + zTfPx, below, f.ox + zTbPx, below, ToMm(g.zTb - g.zTf), true, 80);
      assert Run(x) == (g.zTb - g.zTf) * f.scale;
      [x]
    else []
  }

  /** The side view's LED height: with a bottom bar, but without the bar's own call-out. */
  function SideLedDims(g: Geometry, f: Frame): (d: seq<Dimension>)
    ensures |d| == (if g.botBar > 0.0 then 1 else 0)
    ensures AllFaithful(g, f, d)
    ensures forall x :: x in d ==> x.kind == LedHeight
  {
    if g.botBar > 0.0 then [LedHeightDim(g, f)] else []
  }

  function SideDims(g: Geometry, f: Frame): (d: seq<Dimension>)
    ensures AllFaithful(g, f, d)
    ensures |d| == 2 + (if g.cabD * f.scale > 30.0 then 1 else 0)
                     + (if TrussDepthPx(g, f) > 20.0 then 1 else 0)
                     + (if g.botBar > 0.0 then 1 else 0)
    ensures d[0].kind == OverallDepth && d[0].horizontal && d[1].kind == OverallHeight
  {
    var a := LedDepthDims(g, f);
    var b := TrussDepthDims(g, f);
    var c := SideLedDims(g, f);
    [DepthDim(g, f, true), HeightDim(g, f)] + a + b + c
  }

  function PlanDims(g: Geometry, f: Frame): (d: seq<Dimension>)
    ensures AllFaithful(g, f, d)
    ensures |d| == 2 + (if |g.legX| >= 2 then 1 else 0)
    ensures d[0].kind == OverallWidth && d[1].kind == OverallDepth && !d[1].horizontal
  {
    [WidthDim(g, f), DepthDim(g, f, false)] + SpanDims(g, f)
  }

  /**
   * The red leg ticks under the render, one per leg, at the leg's scaled
   * position; none for a single leg.
   */
  function LegTicks(g: Geometry, f: Frame): (t: seq<real>)
    ensures |g.legX| < 2 ==> t == []
    ensures |g.legX| >= 2 ==> |t| == |g.legX|
    ensures forall i :: 0 <= i < |t| ==> (t[i] - f.ox) == g.legX[i] * f.scale
  {
    if |g.legX| >= 2 then seq(|g.legX|, i requires 0 <= i < |g.legX| => f.ox + g.legX[i] * f.scale)
    else []
  }

  /** What one view draws besides the render and the page furniture. */
  datatype Layout = Layout(frame: Frame, dims: seq<Dimension>, ticks: seq<real>)

  function RenderView(g: Geometry, v: View): (l: Layout)
    requires Drawable(ViewExtent(g, v))
    ensures l.frame == FitFrame(ViewExtent(g, v))
    ensures AllFaithful(g, l.frame, l.dims)
    ensures v == Side ==> l.ticks == []
  {
    var f := FitFrame(ViewExtent(g, v));
    match v
    case Front => Layout(f, FrontDims(g, f), LegTicks(g, f))
    case Side => Layout(f, SideDims(g, f), [])
    case Plan => Layout(f, PlanDims(g, f), LegTicks(g, f))
  }

  /** Kinds drawn by a sequence of three parts. */
  lemma ShowsConcat(a: seq<Dimension>, b: seq<Dimension>, c: seq<Dimension>, k: DimKind)
    ensures Shows(a + b + c, k) <==> Shows(a, k) || Shows(b, k) || Shows(c, k)
  {
    if Shows(a + b + c, k) {
      var x :| x in a + b + c && x.kind == k;
      assert x in a || x in b || x in c;
    }
    if Shows(a, k) {
      var x :| x in a && x.kind == k;
      assert x in a + b + c;
    }
    if Shows(b, k) {
      var x :| x in b && x.kind == k;
      assert x in a + b + c;
    }
    if Shows(c, k) {
      var x :| x in c && x.kind == k;
      assert x in a + b + c;
    }
  }

  /** The call-outs of one view, as a set of kinds. */
  function Selected(g: Geometry, f: Frame, v: View): (ks: set<DimKind>)
    ensures OverallWidth in ks <==> v != Side
    ensures OverallDepth in ks <==> v != Front
    ensures OverallHeight in ks <==> v != Plan
    ensures LegSpan in ks <==> v != Side && |g.legX| >= 2
    ensures LedHeight in ks <==> v != Plan && g.botBar > 0.0
    ensures BottomBarHeight in ks <==> v == Front && g.botBar > 0.0
    ensures LedDepth in ks <==> v == Side && g.cabD * f.scale > 30.0
    ensures TrussDepth in ks <==> v == Side && TrussDepthPx(g, f) > 20.0
  {
    var span := if |g.legX| >= 2 then {LegSpan} else {};
    var bar := if g.botBar > 0.0 then {LedHeight, BottomBarHeight} else {};
    match v
    case Front => {OverallWidth, OverallHeight} + bar + span
    case Side =>
      {OverallDepth, OverallHeight}
      + (if g.cabD * f.scale > 30.0 then {LedDepth} else {})
      + (if TrussDepthPx(g, f) > 20.0 then {TrussDepth} else {})
      + (if g.botBar > 0.0 then {LedHeight} else {})
    case Plan => {OverallWidth, OverallDepth} + span
  }

  /**
   * Which call-outs each view draws: the leg span only in the front and plan
   * views and only for two or more legs; the LED height whenever there is a
   * bottom bar except in plan; the bar itself only in front; the LED and
   * truss depths only in the side view and only when wide enough to read.
   */
  lemma CalloutSelection(g: Geometry, v: View, k: DimKind)
    requires Drawable(ViewExtent(g, v))
    ensures var l := RenderView(g, v);
      Shows(l.dims, k) <==> k in Selected(g, l.frame, v)
  {
    var f := FitFrame(ViewExtent(g, v));
    match v
    case Front => FrontSelection(g, f, k);
    case Side => SideSelection(g, f, k);
    case Plan => PlanSelection(g, f, k);
  }

  lemma PairShows(a: Dimension, b: Dimension, k: DimKind)
    ensures Shows([a, b], k) <==> k == a.kind || k == b.kind
  {
    assert a in [a, b] && b in [a, b];
  }

  lemma FrontSelection(g: Geometry, f: Frame, k: DimKind)
    ensures Shows(FrontDims(g, f), k) <==> k in Selected(g, f, Front)
  {
    var two := [WidthDim(g, f), HeightDim(g, f)];
    var bar := BarDims(g, f);
    PairShows(two[0], two[1], k);
    ShowsConcat(two, bar, SpanDims(g, f), k);
    if |bar| == 2 {
      PairShows(bar[0], bar[1], k);
      assert bar == [bar[0], bar[1]];
    }
    SingleShows(SpanDims(g, f), LegSpan, k);
  }

  lemma SideSelection(g: Geometry, f: Frame, k: DimKind)
    ensures Shows(SideDims(g, f), k) <==> k in Selected(g, f, Side)
  {
    var two := [DepthDim(g, f, true), HeightDim(g, f)];
    PairShows(two[0], two[1], k);
    ShowsConcat(two + LedDepthDims(g, f), TrussDepthDims(g, f), SideLedDims(g, f), k);
    ShowsConcat(two, LedDepthDims(g, f), [], k);
    assert two + LedDepthDims(g, f) + [] == two + LedDepthDims(g, f);
    SingleShows(LedDepthDims(g, f), LedDepth, k);
    SingleShows(TrussDepthDims(g, f), TrussDepth, k);
    SingleShows(SideLedDims(g, f), LedHeight, k);
  }

  lemma PlanSelection(g: Geometry, f: Frame, k: DimKind)
    ensures Shows(PlanDims(g, f), k) <==> k in Selected(g, f, Plan)
  {
    var two := [WidthDim(g, f), DepthDim(g, f, false)];
    PairShows(two[0], two[1], k);
    ShowsConcat(two, SpanDims(g, f), [], k);
    assert two + SpanDims(g, f) + [] == two + SpanDims(g, f);
    SingleShows(SpanDims(g, f), LegSpan, k);
  }

  /** A part of at most one call-out of a fixed kind shows exactly that kind, when present. */
  lemma SingleShows(d: seq<Dimension>, kind: DimKind, k: DimKind)
    requires |d| <= 1 && forall x :: x in d ==> x.kind == kind
    ensures Shows(d, k) <==> |d| == 1 && k == kind
  {
    if |d| == 1 {
      assert d[0] in d;
    }
  }

  /** With legs in left-to-right order the ticks run left to right too. */
  lemma TicksIncreasing(g: Geometry, f: Frame)
    requires StrictlyIncreasing(g.legX) && f.scale > 0.0
    ensures StrictlyIncreasing(LegTicks(g, f))
  {
    var t := LegTicks(g, f);
    forall i, j | 0 <= i < j < |t|
      ensures t[i] < t[j]
    {
      assert g.legX[i] < g.legX[j];
      ShiftedScaleStrict(t[i], t[j], f.ox, g.legX[i], g.legX[j], f.scale);
    }
  }

  /** Two points scaled by the same positive factor about the same origin keep their order. */
  lemma ShiftedScaleStrict(ti: real, tj: real, ox: real, a: real, b: real, s: real)
    requires a < b && s > 0.0
    requires ti - ox == a * s && tj - ox == b * s
    ensures ti < tj
  {
    ScaleStrict(a, b, s);
  }

  lemma ScaleStrict(a: real, b: real, s: real)
    requires a < b && s > 0.0
    ensures a * s < b * s
  {
  }

  // ---------------------------------------------------------------------
  // Agreement with the metrics engine

  /** The front view frames exactly the engine's total height. */
  lemma FrontHeightIsEngineHeight(p: Types.Project)
    requires Projector.Fresh(p)
    ensures ViewExtent(Projector.ProjectToP(p), Front).y * 1000.0 == p.computed.totalHeightMm
  {
    Projector.HeightMatchesCompute(p);
  }

  /**
   * The side and plan views are deeper than the engine's total depth by
   * exactly the leg arm of a flat truss with legs, and agree with it
   * otherwise: the engine drops the flat truss's arm, the geometry keeps it.
   */
  lemma SideDepthOverEngine(p: Types.Project)
    requires Projector.Fresh(p)
    ensures var s := p.structure;
      ViewExtent(Projector.ProjectToP(p), Side).x * 1000.0 - p.computed.totalDepthMm
      == if s.trussModel == Types.FX30 && s.legs.Some? then s.legs.value.armLengthMm else 0.0
  {
    var g := Projector.ProjectToP(p);
    var s := p.structure;
    assert p.computed.totalDepthMm == Compute.TotalDepthMm(p.led, s);
    assert g.zTb * 1000.0 == p.led.tileDepthMm + Compute.GapMm(s) + Compute.TrussDepthMm(s);
    assert g.legArm * 1000.0 == (if s.legs.Some? then s.legs.value.armLengthMm else 0.0);
  }

  // ---------------------------------------------------------------------
  // Data panel

  /**
   * What the caller passes to the views. Optional texts are drawn only when
   * present and non-empty (JavaScript truthiness).
   */
  datatype RenderMeta = RenderMeta(
    projectName: string,
    date: string,
    designer: string,
    scale: string,
    ledSize: Option<string>,
    activeSize: Option<string>,
    pitch: Option<string>,
    cabinet: Option<string>,
    resolution: Option<string>,
    truss: Option<string>,
    legs: Option<string>,
    legSpacing: Option<string>,
    tubes: Option<string>,
    controller: Option<string>,
    power: Option<string>,
    network: Option<string>,
    ledWeight: Option<string>,
    totalWeight: Option<string>,
    bottomBar: Option<string>,
    totalHeight: Option<string>,
    totalDepth: Option<string>,
    deadRow: Option<string>,
    revision: Option<string>,
    client: Option<string>,
    location: Option<string>
  )

  datatype Row = Row(caption: string, value: string)
  datatype Section = Section(title: string, rows: seq<Row>)

  predicate Truthy(o: Option<string>) {
    o.Some? && o.value != ""
  }

  /** A labelled optional text. */
  datatype Field = Field(caption: string, text: Option<string>)

  /** The rows of the fields that are present, in field order. */
  function Present(fs: seq<Field>): (rows: seq<Row>)
    ensures |rows| <= |fs|
    ensures forall k :: 0 <= k < |rows| ==> rows[k].value != ""
    ensures |rows| == 0 <==> forall i :: 0 <= i < |fs| ==> !Truthy(fs[i].text)
    ensures |rows| == |fs| <==> forall i :: 0 <= i < |fs| ==> Truthy(fs[i].text)
  {
    if fs == [] then []
    else
      var rest := Present(fs[1..]);
      assert forall i :: 1 <= i < |fs| ==> fs[i] == fs[1..][i - 1];
      if Truthy(fs[0].text) then [Row(fs[0].caption, fs[0].text.value)] + rest else rest
  }

  /** Every row of `Present(fs)` carries the caption of one of the fields. */
  lemma {:induction false} PresentCaptions(fs: seq<Field>, c: string)
    requires forall i :: 0 <= i < |fs| ==> fs[i].caption != c
    ensures forall k :: 0 <= k < |Present(fs)| ==> Present(fs)[k].caption != c
  {
    if fs != [] {
      assert forall i :: 0 <= i < |fs[1..]| ==> fs[1..][i] == fs[i + 1];
      PresentCaptions(fs[1..], c);
    }
  }

  const Dash: string := "\U{2014}"

  function PanelTitle(m: RenderMeta): (t: string)
    ensures t != ""
    ensures m.projectName != "" ==> t == m.projectName
  {
    if m.projectName != "" then m.projectName else "Progetto"
  }

  /** The header: client and location when given, the date always, the designer unless a dash, the revision when given. */
  function HeaderRows(m: RenderMeta): (rows: seq<Row>)
    ensures Row("Data", m.date) in rows
    ensures (exists k :: 0 <= k < |rows| && rows[k].caption == "Progettista") <==> m.designer != Dash
    ensures 1 <= |rows| <= 5
  {
    var fsBefore := [Field("Cliente", m.client), Field("Location", m.location)];
    var fsAfter := [Field("Revisione", m.revision)];
    var before := Present(fsBefore);
    var designer := if m.designer != Dash then [Row("Progettista", m.designer)] else [];
    var after := Present(fsAfter);
    PresentCaptions(fsBefore, "Progettista");
    PresentCaptions(fsAfter, "Progettista");
    HeaderAssembly(before, Row("Data", m.date), designer, after, "Progettista");
    var rows := before + [Row("Data", m.date)] + designer + after;
    rows
  }

  /** Rows around the date keep it, and a caption missing from the optional rows occurs only in the middle part. */
  lemma HeaderAssembly(before: seq<Row>, data: Row, middle: seq<Row>, after: seq<Row>, c: string)
    requires forall k :: 0 <= k < |before| ==> before[k].caption != c
    requires forall k :: 0 <= k < |after| ==> after[k].caption != c
    requires data.caption != c
    requires forall k :: 0 <= k < |middle| ==> middle[k].caption == c
    ensures var rows := before + [data] + middle + after;
      && data in rows
      && ((exists k :: 0 <= k < |rows| && rows[k].caption == c) <==> |middle| > 0)
  {
    var rows := before + [data] + middle + after;
    assert rows[|before|] == data;
    if |middle| > 0 {
      assert rows[|before| + 1] == middle[0];
    }
    if |middle| == 0 {
      forall k | 0 <= k < |rows|
        ensures rows[k].caption != c
      {
        if k < |before| { assert rows[k] == before[k]; }
        else if k > |before| { assert rows[k] == after[k - |before| - 1]; }
      }
    }
  }

  function LedFields(m: RenderMeta): seq<Field> {
    [Field("Fisico", m.ledSize), Field("Attivo", m.activeSize), Field("Pitch", m.pitch),
     Field("Cabinet", m.cabinet), Field("Risoluzione", m.resolution), Field("Fila morta", m.deadRow)]
  }

  function StructureFields(m: RenderMeta): seq<Field> {
    [Field("H Totale", m.totalHeight), Field("Profondit\U{E0}", m.totalDepth),
     Field("Bottom bar", m.bottomBar), Field("Truss", m.truss), Field("Gambe", m.legs),
     Field("Interasse", m.legSpacing), Field("Tubi", m.tubes)]
  }

  function TechFields(m: RenderMeta): seq<Field> {
    [Field("Centralina", m.controller), Field("Corrente", m.power), Field("Rete", m.network),
     Field("Peso LED", m.ledWeight), Field("Carico tot.", m.totalWeight)]
  }

  /** A titled section when it has rows, nothing otherwise. */
  function Optional(title: string, rows: seq<Row>): (s: seq<Section>)
    ensures |s| == 1 <==> |rows| > 0
    ensures |s| == 0 <==> |rows| == 0
    ensures |s| == 1 ==> s[0] == Section(title, rows)
  {
    if |rows| > 0 then [Section(title, rows)] else []
  }

  const LedTitle: string := "LED WALL"
  const StructureTitle: string := "STRUTTURA"
  const TechTitle: string := "DATI TECNICI"

  /** Position of a fixed section title in the panel's order. */
  function Rank(title: string): int {
    if title == LedTitle then 1
    else if title == StructureTitle then 2
    else if title == TechTitle then 3
    else 0
  }

  /** The sections after the header: fixed titles, non-empty, in the panel's order. */
  predicate OrderedBody(ss: seq<Section>) {
    && (forall i :: 0 <= i < |ss| ==> |ss[i].rows| > 0 && Rank(ss[i].title) >= 1)
    && (forall i, j :: 0 <= i < j < |ss| ==> Rank(ss[i].title) < Rank(ss[j].title))
  }

  predicate HasSection(ss: seq<Section>, title: string) {
    exists i :: 0 <= i < |ss| && ss[i].title == title
  }

  /** The rows of a fixed section, as one titled section when there are any. */
  function FixedSection(title: string, fs: seq<Field>): (s: seq<Section>)
    ensures |s| <= 1 && TotalRows(s) <= |fs|
    ensures |s| == 1 <==> exists i :: 0 <= i < |fs| && Truthy(fs[i].text)
    ensures forall i :: 0 <= i < |s| ==> s[i].title == title && |s[i].rows| > 0
    ensures forall t :: HasSection(s, t) <==> |s| == 1 && t == title
  {
    var s := Optional(title, Present(fs));
    assert |s| == 1 ==> s[..0] == [] && s[0].title == title;
    s
  }

  function LedSection(m: RenderMeta): (s: seq<Section>)
    ensures |s| <= 1 && TotalRows(s) <= 6
    ensures |s| == 1 <==> exists i :: 0 <= i < 6 && Truthy(LedFields(m)[i].text)
    ensures forall i :: 0 <= i < |s| ==> s[i].title == LedTitle && |s[i].rows| > 0
    ensures forall t :: HasSection(s, t) <==> |s| == 1 && t == LedTitle
  {
    FixedSection(LedTitle, LedFields(m))
  }

  function StructureSection(m: RenderMeta): (s: seq<Section>)
    ensures |s| <= 1 && TotalRows(s) <= 7
    ensures |s| == 1 <==> exists i :: 0 <= i < 7 && Truthy(StructureFields(m)[i].text)
    ensures forall i :: 0 <= i < |s| ==> s[i].title == StructureTitle && |s[i].rows| > 0
    ensures forall t :: HasSection(s, t) <==> |s| == 1 && t == StructureTitle
  {
    FixedSection(StructureTitle, StructureFields(m))
  }

  function TechSection(m: RenderMeta): (s: seq<Section>)
    ensures |s| <= 1 && TotalRows(s) <= 5
    ensures |s| == 1 <==> exists i :: 0 <= i < 5 && Truthy(TechFields(m)[i].text)
    ensures forall i :: 0 <= i < |s| ==> s[i].title == TechTitle && |s[i].rows| > 0
    ensures forall t :: HasSection(s, t) <==> |s| == 1 && t == TechTitle
  {
    FixedSection(TechTitle, TechFields(m))
  }

  /** The LED, structure and technical sections, each only when it has rows. */
  function Body(m: RenderMeta): (ss: seq<Section>)
    ensures |ss| <= 3 && OrderedBody(ss)
  {
    BodyOrdered(LedSection(m), StructureSection(m), TechSection(m));
    LedSection(m) + StructureSection(m) + TechSection(m)
  }

  lemma BodyOrdered(led: seq<Section>, str: seq<Section>, tech: seq<Section>)
    requires |led| <= 1 && |str| <= 1 && |tech| <= 1
    requires forall i :: 0 <= i < |led| ==> led[i].title == LedTitle && |led[i].rows| > 0
    requires forall i :: 0 <= i < |str| ==> str[i].title == StructureTitle && |str[i].rows| > 0
    requires forall i :: 0 <= i < |tech| ==> tech[i].title == TechTitle && |tech[i].rows| > 0
    ensures OrderedBody(led + str + tech)
  {
    var ss := led + str + tech;
    assert forall i :: 0 <= i < |ss| ==>
      (i < |led| && ss[i] == led[i])
      || (|led| <= i < |led| + |str| && ss[i] == str[i - |led|])
      || (|led| + |str| <= i && ss[i] == tech[i - |led| - |str|]);
  }

  /** The panel: the header section first, then the body. */
  function PanelSections(m: RenderMeta): (ss: seq<Section>)
    ensures 1 <= |ss| <= 4
    ensures ss[0] == Section(PanelTitle(m), HeaderRows(m))
    ensures OrderedBody(ss[1..])
  {
    var body := Body(m);
    var ss := [Section(PanelTitle(m), HeaderRows(m))] + body;
    assert ss[1..] == body;
    ss
  }

  /**
   * Each fixed section is in the panel exactly when at least one of its
   * texts is present.
   */
  lemma SectionPresence(m: RenderMeta)
    ensures var body := PanelSections(m)[1..];
      && (HasSection(body, LedTitle) <==> exists i :: 0 <= i < 6 && Truthy(LedFields(m)[i].text))
      && (HasSection(body, StructureTitle) <==> exists i :: 0 <= i < 7 && Truthy(StructureFields(m)[i].text))
      && (HasSection(body, TechTitle) <==> exists i :: 0 <= i < 5 && Truthy(TechFields(m)[i].text))
  {
    var led, str, tech := LedSection(m), StructureSection(m), TechSection(m);
    assert PanelSections(m)[1..] == led + str + tech;
    TitleIn(led, str, tech, LedTitle);
    TitleIn(led, str, tech, StructureTitle);
    TitleIn(led, str, tech, TechTitle);
  }

  lemma TitleIn(a: seq<Section>, b: seq<Section>, c: seq<Section>, t: string)
    ensures HasSection(a + b + c, t) <==> HasSection(a, t) || HasSection(b, t) || HasSection(c, t)
  {
    var ss := a + b + c;
    if HasSection(ss, t) {
      var i :| 0 <= i < |ss| && ss[i].title == t;
      if i < |a| { assert a[i] == ss[i]; }
      else if i < |a| + |b| { assert b[i - |a|] == ss[i]; }
      else { assert c[i - |a| - |b|] == ss[i]; }
    }
    if HasSection(a, t) {
      var i :| 0 <= i < |a| && a[i].title == t;
      assert ss[i] == a[i];
    }
    if HasSection(b, t) {
      var i :| 0 <= i < |b| && b[i].title == t;
      assert ss[|a| + i] == b[i];
    }
    if HasSection(c, t) {
      var i :| 0 <= i < |c| && c[i].title == t;
      assert ss[|a| + |b| + i] == c[i];
    }
  }

  /** Rows over all sections. */
  function TotalRows(ss: seq<Section>): (n: nat)
    ensures ss == [] ==> n == 0
  {
    if ss == [] then 0 else TotalRows(ss[..|ss| - 1]) + |ss[|ss| - 1].rows|
  }

  lemma {:induction false} TotalRowsAppend(a: seq<Section>, b: seq<Section>)
    ensures TotalRows(a + b) == TotalRows(a) + TotalRows(b)
    decreases |b|
  {
    if b == [] {
      assert a + b == a;
    } else {
      var b' := b[..|b| - 1];
      assert (a + b)[..|a + b| - 1] == a + b';
      TotalRowsAppend(a, b');
    }
  }

  const LineH: int := 24
  const PadY: int := 10
  const HeaderH: int := 32
  const SectionGap: int := 8

  /** Panel height: padding, then per section a header, its rows and a gap. */
  method PanelHeight(ss: seq<Section>) returns (h: int)
    ensures h == 2 * PadY + (HeaderH + SectionGap) * |ss| + LineH * TotalRows(ss)
  {
    h := PadY;
    var i := 0;
    while i < |ss|
      invariant 0 <= i <= |ss|
      invariant h == PadY + (HeaderH + SectionGap) * i + LineH * TotalRows(ss[..i])
    {
      assert ss[..i + 1][..i] == ss[..i];
      h := h + HeaderH;
      h := h + |ss[i].rows| * LineH;
      h := h + SectionGap;
      i := i + 1;
    }
    assert ss[..|ss|] == ss;
    h := h + PadY;
  }

  /**
   * Whatever the meta, the panel and the view name under it end above the
   * title block: at most four sections and twenty-three rows.
   */
  lemma PanelClearOfTitleBlock(m: RenderMeta)
    ensures var ss := PanelSections(m);
      && TotalRows(ss) <= 23
      && PanelY + 2 * PadY + (HeaderH + SectionGap) * |ss| + LineH * TotalRows(ss) + 20 < TitleBlockY
  {
    var ss := PanelSections(m);
    PanelRowsBound(m);
    PanelFits(|ss|, TotalRows(ss));
  }

  /** The panel holds one to four sections and at most twenty-three rows. */
  lemma PanelRowsBound(m: RenderMeta)
    ensures var ss := PanelSections(m);
      1 <= |ss| <= 4 && 0 <= TotalRows(ss) <= 23
  {
    RowsOfParts(Section(PanelTitle(m), HeaderRows(m)), LedSection(m), StructureSection(m), TechSection(m));
  }

  /** Rows of the header and three sections add up to at most 5 + 6 + 7 + 5. */
  lemma RowsOfParts(hdr: Section, led: seq<Section>, str: seq<Section>, tech: seq<Section>)
    requires |hdr.rows| <= 5
    requires TotalRows(led) <= 6 && TotalRows(str) <= 7 && TotalRows(tech) <= 5
    ensures TotalRows([hdr] + (led + str + tech)) <= 23
  {
    TotalRowsAppend([hdr], led + str + tech);
    TotalRowsAppend(led + str, tech);
    TotalRowsAppend(led, str);
    assert TotalRows([hdr]) == |hdr.rows| by {
      assert [hdr][..0] == [];
    }
  }

  /** Four sections and twenty-three rows, plus the view name, still end above the title block. */
  lemma PanelFits(sections: int, rows: int)
    requires 1 <= sections <= 4 && 0 <= rows <= 23
    ensures PanelY + 2 * PadY + (HeaderH + SectionGap) * sections + LineH * rows + 20 < TitleBlockY
  {
  }

  // ---------------------------------------------------------------------
  // Row separators

  /**
   * Offsets, from the top of a section's rows, of the thin rules drawn
   * under rows k .. n-1: row i gets one at the bottom of its line when the
   * position `lookup(i)` found for it is before the last row.
   */
  function RulesFrom(n: nat, lookup: int -> int, k: nat): (ys: seq<int>)
    requires k <= n
    ensures |ys| <= n - k
    ensures forall j :: 0 <= j < |ys| ==> (k + 1) * LineH <= ys[j] <= n * LineH && ys[j] % LineH == 0
    decreases n - k
  {
    if k == n then []
    else (if lookup(k) < n - 1 then [(k + 1) * LineH] else []) + RulesFrom(n, lookup, k + 1)
  }

  /**
   * The row's position as the panel looks it up: `indexOf` with a pair
   * built on the spot, which JavaScript compares by identity and so never
   * finds.
   */
  function FreshPairIndex(i: int): int {
    -1
  }

  /** The rules as drawn: the lookup never finds the row. */
  function RulesAsWritten(rows: seq<Row>): seq<int> {
    RulesFrom(|rows|, FreshPairIndex, 0)
  }

  /** The rules as intended: row i is at position i, so every row but the last gets one. */
  function Rules(rows: seq<Row>): seq<int> {
    RulesFrom(|rows|, i => i, 0)
  }

  /**
   * As drawn, every row of a non-empty section gets a rule, the last one
   * included: it lies on the bottom edge of the section's rows.
   */
  lemma RuleUnderLastRow(rows: seq<Row>)
    requires |rows| >= 1
    ensures |RulesAsWritten(rows)| == |rows|
    ensures RulesAsWritten(rows)[|rows| - 1] == |rows| * LineH
  {
    AllRulesFrom(|rows|, 0);
  }

  lemma {:induction false} AllRulesFrom(n: nat, k: nat)
    requires 1 <= n && k <= n
    ensures var ys := RulesFrom(n, FreshPairIndex, k);
      |ys| == n - k && (k < n ==> ys[n - k - 1] == n * LineH)
    decreases n - k
  {
    if k < n {
      AllRulesFrom(n, k + 1);
    }
  }

  /**
   * As intended, a section of n rows gets n - 1 rules, one between each pair
   * of neighbouring rows, and none on its bottom edge.
   */
  lemma RulesBetweenRows(rows: seq<Row>)
    ensures |Rules(rows)| == MaxI(0, |rows| - 1)
    ensures forall j :: 0 <= j < |Rules(rows)| ==> Rules(rows)[j] == (j + 1) * LineH
    ensures forall j :: 0 <= j < |Rules(rows)| ==> Rules(rows)[j] < |rows| * LineH
  {
    InnerRulesFrom(|rows|, 0);
  }

  lemma {:induction false} InnerRulesFrom(n: nat, k: nat)
    requires k <= n
    ensures var ys := RulesFrom(n, i => i, k);
      && |ys| == MaxI(0, n - 1 - k)
      && forall j :: 0 <= j < |ys| ==> ys[j] == (k + j + 1) * LineH
    decreases n - k
  {
    if k < n {
      InnerRulesFrom(n, k + 1);
    }
  }
}
