/**
  The layout arithmetic of the base component: the pivot origin inside
  the rect, the placement of one glyph at the caret, the caret's advance,
  and the shrink-to-fit block both variants share.  Glyphs are laid from
  the origin leftward: the first glyph placed is the rightmost one.
 */
module Layout {
  import opened Common

  /**
    The anchor the caret starts from.  Horizontally the run of glyphs,
    `scaledWidth` wide, ends at the origin and extends to its left;
    vertically the origin is the reference line the glyphs align to.
   */
  function GetPivotOrigin(horizontal: HorizontalPivot, vertical: VerticalPivot, rect: Rect, pivot: Vec2,
                          scaledWidth: real): (origin: Vec3)
    // Left: the run starts at the rect's left edge
    ensures horizontal == Left ==> origin.x - scaledWidth == rect.XMin()
    // Right: the run ends at the rect's right edge, whatever its width
    ensures horizontal == Right ==> origin.x == rect.XMax()
    // Center: the run's midpoint is the rect's horizontal centre
    ensures horizontal == Center && PivotRect(rect, pivot) ==>
      origin.x - scaledWidth / 2.0 == rect.XMin() + rect.width / 2.0
    ensures vertical == Top ==> origin.y == rect.YMax()
    ensures vertical == Bottom ==> origin.y == rect.YMin()
    ensures vertical == Middle && PivotRect(rect, pivot) ==> origin.y == rect.YMin() + rect.height / 2.0
    ensures origin.z == 0.0
  {
    var x := match horizontal
      case Left => rect.XMin() + scaledWidth
      case Right => rect.XMax()
      case Center => scaledWidth / 2.0 - rect.width * (pivot.x - 0.5);
    var y := match vertical
      case Top => rect.YMax()
      case Bottom => rect.YMin()
      case Middle => -rect.height * (pivot.y - 0.5);
    Vec3(x, y, 0.0)
  }

  // ---------------------------------------------------------------------
  // Edges of a placed glyph

  /** Right edge of a glyph with bounds `b` drawn with transform `t`. */
  function RightEdge(t: Transform, b: Bounds): real
  {
    t.localPosition.x + (b.center.x + b.extents.x) * t.localScale.x
  }

  function LeftEdge(t: Transform, b: Bounds): real
  {
    t.localPosition.x + (b.center.x - b.extents.x) * t.localScale.x
  }

  function TopEdge(t: Transform, b: Bounds): real
  {
    t.localPosition.y + (b.center.y + b.extents.y) * t.localScale.y
  }

  function BottomEdge(t: Transform, b: Bounds): real
  {
    t.localPosition.y + (b.center.y - b.extents.y) * t.localScale.y
  }

  /**
    The vertical offset of a glyph from the caret.  Top puts the glyph's
    top edge on the caret line and Middle puts its pivot there.  Bottom
    is kept as written: the centre is added unscaled, so the bottom edge
    meets the caret line only for sprites centred on their pivot.
   */
  function VerticalOffset(vertical: VerticalPivot, b: Bounds, scale: real): (dy: real)
    ensures vertical == Top ==> dy + (b.center.y + b.extents.y) * scale == 0.0
    ensures vertical == Middle ==> dy == 0.0
    ensures vertical == Bottom ==> dy == b.center.y + b.extents.y * scale
  {
    match vertical
    case Top => -(b.center.y + b.extents.y) * scale
    case Bottom => b.center.y + b.extents.y * scale
    case Middle => 0.0
  }

  /** Bottom alignment holds exactly for sprites whose box is centred on the pivot. */
  lemma BottomAlignsWhenCentred(t: Transform, caret: Vec3, b: Bounds, scale: real)
    requires PlacedAt(t, caret, Bottom, b, scale)
    ensures b.center.y == 0.0 ==> BottomEdge(t, b) == caret.y
    ensures BottomEdge(t, b) == caret.y + b.center.y * (1.0 + scale)
  {
  }

  /**
    The transform that places a glyph with bounds `b` at `caret`: its
    right edge on the caret, its vertical offset as the pivot says,
    uniform scale.
   */
  function Placement(caret: Vec3, vertical: VerticalPivot, b: Bounds, scale: real): (t: Transform)
    ensures t.localScale == Vec3(scale, scale, 1.0)
    ensures RightEdge(t, b) == caret.x
    ensures t.localPosition.y == caret.y + VerticalOffset(vertical, b, scale)
    ensures t.localPosition.z == caret.z
  {
    var offset := Vec3(-(b.center.x + b.extents.x) * scale, VerticalOffset(vertical, b, scale), 0.0);
    Transform(caret.Plus(offset), Vec3(scale, scale, 1.0))
  }

  /** The four placement conditions determine the transform. */
  lemma PlacementUnique(t: Transform, caret: Vec3, vertical: VerticalPivot, b: Bounds, scale: real)
    requires t.localScale == Vec3(scale, scale, 1.0)
    requires RightEdge(t, b) == caret.x
    requires t.localPosition.y == caret.y + VerticalOffset(vertical, b, scale)
    requires t.localPosition.z == caret.z
    ensures t == Placement(caret, vertical, b, scale)
  {
  }

  /** `t` places a glyph with bounds `b` at `caret`. */
  ghost predicate PlacedAt(t: Transform, caret: Vec3, vertical: VerticalPivot, b: Bounds, scale: real)
  {
    t == Placement(caret, vertical, b, scale)
  }

  /**
    Place one glyph at the caret and move the caret left past it and one
    spacing further.  The caret is passed by reference in the source;
    here the new caret is returned.
   */
  method SetDisplayPosition(caret: Vec3, horizontal: HorizontalPivot, vertical: VerticalPivot, b: Bounds,
                            scale: real, spacing: real)
    returns (next: Vec3, t: Transform)
    ensures PlacedAt(t, caret, vertical, b, scale)
    ensures next == Vec3(LeftEdge(t, b) - spacing, caret.y, caret.z)
  {
    var offset := Vec3(-(b.center.x + b.extents.x) * scale, VerticalOffset(vertical, b, scale), 0.0);
    t := Transform(caret.Plus(offset), Vec3(scale, scale, 1.0));
    next := Vec3(caret.x - (b.Size().x * scale + spacing), caret.y, caret.z);
  }

  // ---------------------------------------------------------------------
  // A run of glyphs laid from an origin

  /** How far the caret moves while placing `bs`, spacing after each glyph included. */
  function Advance(bs: seq<Bounds>, scale: real, spacing: real): real
  {
    if |bs| == 0 then 0.0
    else Advance(bs[..|bs| - 1], scale, spacing) + (bs[|bs| - 1].Size().x * scale + spacing)
  }

  /** The caret before the k-th glyph of the run. */
  function CaretAt(origin: Vec3, bs: seq<Bounds>, scale: real, spacing: real, k: nat): Vec3
    requires k <= |bs|
  {
    Vec3(origin.x - Advance(bs[..k], scale, spacing), origin.y, origin.z)
  }

  /** The caret after one more glyph, as SetDisplayPosition moves it. */
  lemma CaretAtNext(origin: Vec3, bs: seq<Bounds>, scale: real, spacing: real, k: nat)
    requires k < |bs|
    ensures CaretAt(origin, bs, scale, spacing, k + 1).x
         == CaretAt(origin, bs, scale, spacing, k).x - (bs[k].Size().x * scale + spacing)
  {
    assert bs[..k + 1][..k] == bs[..k];
  }

  /** The transforms `ts` lay the glyphs `bs` leftward from `origin`, each one spacing after the last. */
  ghost predicate RunPlaced(origin: Vec3, vertical: VerticalPivot, bs: seq<Bounds>, scale: real, spacing: real,
                            ts: seq<Transform>)
  {
    && |ts| == |bs|
    && forall k :: 0 <= k < |bs| ==> PlacedAt(ts[k], CaretAt(origin, bs, scale, spacing, k), vertical, bs[k], scale)
  }

  /** The spacing between glyphs once the run has been shrunk by `spacingScale`. */
  function ScaledSpacing(spacing: real, spacingScale: real): real
  {
    spacing * spacingScale
  }

  /**
    The transforms SetDisplayPosition writes for the glyphs `bs` when it is
    called for each of them in turn, starting at `caret`: each glyph is
    placed at the caret, and the caret moves to its left edge less one
    spacing.
   */
  function LaidOut(caret: Vec3, vertical: VerticalPivot, bs: seq<Bounds>, scale: real, spacing: real)
    : (ts: seq<Transform>)
    ensures |ts| == |bs|
    ensures |bs| > 0 ==> RightEdge(ts[0], bs[0]) == caret.x
    decreases |bs|
  {
    if |bs| == 0 then []
    else
      var t := Placement(caret, vertical, bs[0], scale);
      [t] + LaidOut(Vec3(LeftEdge(t, bs[0]) - spacing, caret.y, caret.z), vertical, bs[1..], scale, spacing)
  }

  /** The k-th transform laid out is the glyph placed at the k-th caret. */
  lemma LaidOutAt(origin: Vec3, vertical: VerticalPivot, bs: seq<Bounds>, scale: real, spacing: real, k: nat)
    requires k < |bs|
    ensures LaidOut(origin, vertical, bs, scale, spacing)[k]
         == Placement(CaretAt(origin, bs, scale, spacing, k), vertical, bs[k], scale)
  {
    LaidOutIsRun(origin, vertical, bs, scale, spacing);
  }

  /** Moving the caret past glyph k as SetDisplayPosition does lands on the caret of glyph k + 1. */
  lemma CaretStep(origin: Vec3, vertical: VerticalPivot, bs: seq<Bounds>, scale: real, spacing: real, k: nat,
                  t: Transform)
    requires k < |bs|
    requires t == Placement(CaretAt(origin, bs, scale, spacing, k), vertical, bs[k], scale)
    ensures Vec3(LeftEdge(t, bs[k]) - spacing, origin.y, origin.z) == CaretAt(origin, bs, scale, spacing, k + 1)
  {
    PlacedLeftEdge(t, CaretAt(origin, bs, scale, spacing, k), vertical, bs[k], scale);
    CaretAtNext(origin, bs, scale, spacing, k);
  }

  /** After the first glyph, the caret stands where CaretAt puts the second. */
  lemma CaretShift(caret: Vec3, vertical: VerticalPivot, bs: seq<Bounds>, scale: real, spacing: real, k: nat)
    requires 1 <= k <= |bs|
    ensures var t := Placement(caret, vertical, bs[0], scale);
            CaretAt(Vec3(LeftEdge(t, bs[0]) - spacing, caret.y, caret.z), bs[1..], scale, spacing, k - 1)
            == CaretAt(caret, bs, scale, spacing, k)
  {
    var t := Placement(caret, vertical, bs[0], scale);
    PlacedLeftEdge(t, caret, vertical, bs[0], scale);
    assert bs[..k] == bs[..1] + bs[1..][..k - 1];
    AdvanceConcat(bs[..1], bs[1..][..k - 1], scale, spacing);
    assert bs[..1][..0] == [];
  }

  /** Laying the glyphs out one after another places each at its caret: the run is placed. */
  lemma {:induction false} LaidOutIsRun(caret: Vec3, vertical: VerticalPivot, bs: seq<Bounds>, scale: real,
                                        spacing: real)
    ensures RunPlaced(caret, vertical, bs, scale, spacing, LaidOut(caret, vertical, bs, scale, spacing))
    decreases |bs|
  {
    if |bs| > 0 {
      var ts := LaidOut(caret, vertical, bs, scale, spacing);
      var t := Placement(caret, vertical, bs[0], scale);
      var next := Vec3(LeftEdge(t, bs[0]) - spacing, caret.y, caret.z);
      var rest := LaidOut(next, vertical, bs[1..], scale, spacing);
      LaidOutIsRun(next, vertical, bs[1..], scale, spacing);
      forall k | 0 <= k < |bs|
        ensures PlacedAt(ts[k], CaretAt(caret, bs, scale, spacing, k), vertical, bs[k], scale)
      {
        if k == 0 {
          assert bs[..0] == [];
        } else {
          assert ts[k] == rest[k - 1];
          CaretShift(caret, vertical, bs, scale, spacing, k);
        }
      }
    }
  }

  /** Conversely, a placed run is the one laid out from its origin. */
  lemma RunIsLaidOut(origin: Vec3, vertical: VerticalPivot, bs: seq<Bounds>, scale: real, spacing: real,
                     ts: seq<Transform>)
    requires RunPlaced(origin, vertical, bs, scale, spacing, ts)
    ensures ts == LaidOut(origin, vertical, bs, scale, spacing)
  {
    var run := LaidOut(origin, vertical, bs, scale, spacing);
    LaidOutIsRun(origin, vertical, bs, scale, spacing);
    forall k | 0 <= k < |bs|
      ensures ts[k] == run[k]
    {
      assert PlacedAt(ts[k], CaretAt(origin, bs, scale, spacing, k), vertical, bs[k], scale);
      assert PlacedAt(run[k], CaretAt(origin, bs, scale, spacing, k), vertical, bs[k], scale);
    }
  }

  /** The width of a run: how far the caret moves over it, less the spacing after the last glyph. */
  function RunLength(bs: seq<Bounds>, scale: real, spacing: real): real
    requires |bs| >= 1
  {
    Advance(bs, scale, spacing) - spacing
  }

  lemma {:induction false} AdvanceIsSum(bs: seq<Bounds>, scale: real, spacing: real)
    ensures Advance(bs, scale, spacing) == SumWidth(bs) * scale + |bs| as real * spacing
    decreases |bs|
  {
    if |bs| > 0 {
      AdvanceIsSum(bs[..|bs| - 1], scale, spacing);
    }
  }

  /** The run's width is the scaled glyph widths plus one spacing per gap between glyphs. */
  lemma RunLengthIsSum(bs: seq<Bounds>, scale: real, spacing: real)
    requires |bs| >= 1
    ensures RunLength(bs, scale, spacing) == SumWidth(bs) * scale + (|bs| - 1) as real * spacing
  {
    AdvanceIsSum(bs, scale, spacing);
    assert |bs| as real * spacing == (|bs| - 1) as real * spacing + spacing;
  }

  lemma {:induction false} AdvanceConcat(a: seq<Bounds>, b: seq<Bounds>, scale: real, spacing: real)
    ensures Advance(a + b, scale, spacing) == Advance(a, scale, spacing) + Advance(b, scale, spacing)
    decreases |b|
  {
    if |b| == 0 {
      assert a + b == a;
    } else {
      var b' := b[..|b| - 1];
      assert (a + b)[..|a + b| - 1] == a + b';
      AdvanceConcat(a, b', scale, spacing);
    }
  }

  lemma {:induction false} AdvanceNonNegative(bs: seq<Bounds>, scale: real, spacing: real)
    requires scale >= 0.0 && spacing >= 0.0
    requires forall i :: 0 <= i < |bs| ==> bs[i].extents.x >= 0.0
    ensures Advance(bs, scale, spacing) >= 0.0
    decreases |bs|
  {
    if |bs| > 0 {
      AdvanceNonNegative(bs[..|bs| - 1], scale, spacing);
      NonNegativeProduct(bs[|bs| - 1].Size().x, scale);
    }
  }

  lemma NonNegativeProduct(a: real, b: real)
    requires a >= 0.0 && b >= 0.0
    ensures a * b >= 0.0
  {
  }

  /** Consecutive glyphs of a run are exactly one spacing apart. */
  lemma RunGap(origin: Vec3, vertical: VerticalPivot, bs: seq<Bounds>, scale: real, spacing: real,
               ts: seq<Transform>, k: nat)
    requires RunPlaced(origin, vertical, bs, scale, spacing, ts)
    requires k + 1 < |bs|
    ensures LeftEdge(ts[k], bs[k]) - RightEdge(ts[k + 1], bs[k + 1]) == spacing
  {
    CaretAtNext(origin, bs, scale, spacing, k);
  }

  /**
    A run starts at the origin and ends exactly RunLength to its left:
    the first glyph's right edge is the origin, the last glyph's left
    edge lies RunLength further left.
   */
  lemma RunEnds(origin: Vec3, vertical: VerticalPivot, bs: seq<Bounds>, scale: real, spacing: real,
                ts: seq<Transform>)
    requires RunPlaced(origin, vertical, bs, scale, spacing, ts)
    requires |bs| >= 1
    ensures RightEdge(ts[0], bs[0]) == origin.x
    ensures LeftEdge(ts[|bs| - 1], bs[|bs| - 1]) == origin.x - RunLength(bs, scale, spacing)
  {
    var n := |bs|;
    assert bs[..0] == [];
    assert PlacedAt(ts[0], CaretAt(origin, bs, scale, spacing, 0), vertical, bs[0], scale);
    var last := CaretAt(origin, bs, scale, spacing, n - 1);
    assert PlacedAt(ts[n - 1], last, vertical, bs[n - 1], scale);
    PlacedLeftEdge(ts[n - 1], last, vertical, bs[n - 1], scale);
    CaretAtNext(origin, bs, scale, spacing, n - 1);
    assert bs[..n] == bs;
  }

  /** The left edge of a placed glyph lies its scaled width left of the caret. */
  lemma PlacedLeftEdge(t: Transform, caret: Vec3, vertical: VerticalPivot, b: Bounds, scale: real)
    requires PlacedAt(t, caret, vertical, b, scale)
    ensures LeftEdge(t, b) == caret.x - b.Size().x * scale
  {
  }

  /** With non-negative scale and spacing, every glyph of a run lies within it. */
  lemma RunWithin(origin: Vec3, vertical: VerticalPivot, bs: seq<Bounds>, scale: real, spacing: real,
                  ts: seq<Transform>, k: nat)
    requires RunPlaced(origin, vertical, bs, scale, spacing, ts)
    requires scale >= 0.0 && spacing >= 0.0
    requires forall i :: 0 <= i < |bs| ==> bs[i].extents.x >= 0.0
    requires k < |bs|
    ensures origin.x - RunLength(bs, scale, spacing) <= LeftEdge(ts[k], bs[k])
    ensures LeftEdge(ts[k], bs[k]) <= RightEdge(ts[k], bs[k]) <= origin.x
  {
    RunEdges(origin, vertical, bs, scale, spacing, ts, k);
    CaretWithinRun(origin, bs, scale, spacing, k);
  }

  /** Glyph k of a run spans from the caret before it to its scaled width further left. */
  lemma RunEdges(origin: Vec3, vertical: VerticalPivot, bs: seq<Bounds>, scale: real, spacing: real,
                 ts: seq<Transform>, k: nat)
    requires RunPlaced(origin, vertical, bs, scale, spacing, ts)
    requires k < |bs|
    ensures RightEdge(ts[k], bs[k]) == CaretAt(origin, bs, scale, spacing, k).x
    ensures LeftEdge(ts[k], bs[k]) == CaretAt(origin, bs, scale, spacing, k).x - bs[k].Size().x * scale
  {
    var caret := CaretAt(origin, bs, scale, spacing, k);
    assert PlacedAt(ts[k], caret, vertical, bs[k], scale);
    PlacedLeftEdge(ts[k], caret, vertical, bs[k], scale);
  }

  /** The caret before glyph k, and the same caret less glyph k's width, both lie within the run. */
  lemma CaretWithinRun(origin: Vec3, bs: seq<Bounds>, scale: real, spacing: real, k: nat)
    requires scale >= 0.0 && spacing >= 0.0
    requires forall i :: 0 <= i < |bs| ==> bs[i].extents.x >= 0.0
    requires k < |bs|
    ensures origin.x - RunLength(bs, scale, spacing) <= CaretAt(origin, bs, scale, spacing, k).x - bs[k].Size().x * scale
    ensures 0.0 <= bs[k].Size().x * scale
    ensures CaretAt(origin, bs, scale, spacing, k).x <= origin.x
  {
    assert bs == bs[..k + 1] + bs[k + 1..];
    AdvanceConcat(bs[..k + 1], bs[k + 1..], scale, spacing);
    assert bs[..k + 1][..k] == bs[..k];
    AdvanceNonNegative(bs[..k], scale, spacing);
    AdvanceNonNegative(bs[k + 1..], scale, spacing);
    NonNegativeProduct(bs[k].Size().x, scale);
  }

  lemma {:induction false} SumWidthNonNegative(bs: seq<Bounds>)
    requires forall i :: 0 <= i < |bs| ==> bs[i].extents.x >= 0.0
    ensures SumWidth(bs) >= 0.0
    decreases |bs|
  {
    if |bs| > 0 {
      SumWidthNonNegative(bs[..|bs| - 1]);
    }
  }

  /**
    A run laid from the pivot origin computed for its own length is
    aligned as the horizontal pivot says: Left puts its left end on the
    rect's left edge, Right its right end on the right edge, Center its
    midpoint on the rect's centre.
   */
  lemma PivotAlignsRun(horizontal: HorizontalPivot, vertical: VerticalPivot, rect: Rect, pivot: Vec2,
                       bs: seq<Bounds>, scale: real, spacing: real, ts: seq<Transform>)
    requires |bs| >= 1 && PivotRect(rect, pivot)
    requires RunPlaced(GetPivotOrigin(horizontal, vertical, rect, pivot, RunLength(bs, scale, spacing)),
                       vertical, bs, scale, spacing, ts)
    ensures horizontal == Left ==> LeftEdge(ts[|bs| - 1], bs[|bs| - 1]) == rect.XMin()
    ensures horizontal == Right ==> RightEdge(ts[0], bs[0]) == rect.XMax()
    ensures horizontal == Center ==>
      (LeftEdge(ts[|bs| - 1], bs[|bs| - 1]) + RightEdge(ts[0], bs[0])) / 2.0 == rect.XMin() + rect.width / 2.0
  {
    var origin := GetPivotOrigin(horizontal, vertical, rect, pivot, RunLength(bs, scale, spacing));
    RunEnds(origin, vertical, bs, scale, spacing, ts);
  }

  /**
    A run no wider than the rect, laid from the pivot origin computed for
    its length, lies inside the rect horizontally, for every pivot.
   */
  lemma RunInsideRect(horizontal: HorizontalPivot, vertical: VerticalPivot, rect: Rect, pivot: Vec2,
                      bs: seq<Bounds>, scale: real, spacing: real, ts: seq<Transform>, k: nat)
    requires |bs| >= 1 && PivotRect(rect, pivot)
    requires scale >= 0.0 && spacing >= 0.0
    requires forall i :: 0 <= i < |bs| ==> bs[i].extents.x >= 0.0
    requires RunLength(bs, scale, spacing) <= rect.width
    requires RunPlaced(GetPivotOrigin(horizontal, vertical, rect, pivot, RunLength(bs, scale, spacing)),
                       vertical, bs, scale, spacing, ts)
    requires k < |bs|
    ensures rect.XMin() <= LeftEdge(ts[k], bs[k]) <= RightEdge(ts[k], bs[k]) <= rect.XMax()
  {
    var len := RunLength(bs, scale, spacing);
    var origin := GetPivotOrigin(horizontal, vertical, rect, pivot, len);
    RunWithin(origin, vertical, bs, scale, spacing, ts, k);
  }

  // ---------------------------------------------------------------------
  // Shrink to fit

  /** The outcome of the scale block: the factor applied to letters and spacing, and the width passed on. */
  datatype Fit = Fit(spacingScale: real, letterScale: real, scaledWidth: real)

  /**
    Shrink the run when the rect is narrower than it, never enlarge it:
    letters and spacing are multiplied by rect.width / widthWithSpace and
    the width passed on becomes exactly the rect's width.
   */
  function FitToRect(rectWidth: real, letterScale: real, widthWithSpace: real): (fit: Fit)
    requires rectWidth >= 0.0
    ensures fit.scaledWidth == Min(rectWidth, widthWithSpace)
    ensures 0.0 <= fit.spacingScale <= 1.0
    ensures fit.spacingScale == 1.0 <==> rectWidth >= widthWithSpace
    ensures fit.letterScale == letterScale * fit.spacingScale
    ensures fit.scaledWidth == widthWithSpace * fit.spacingScale
  {
    if rectWidth < widthWithSpace then
      var spacingScale := rectWidth / widthWithSpace;
      assert spacingScale * widthWithSpace == rectWidth;
      Fit(spacingScale, letterScale * spacingScale, rectWidth)
    else
      Fit(1.0, letterScale, widthWithSpace)
  }

  /** Scaling letters and spacing by the same factor scales the run's length by it. */
  lemma RunLengthScales(bs: seq<Bounds>, scale: real, spacing: real, k: real, scaled: real, spaced: real)
    requires |bs| >= 1
    requires scaled == scale * k && spaced == spacing * k
    ensures RunLength(bs, scaled, spaced) == RunLength(bs, scale, spacing) * k
  {
    RunLengthIsSum(bs, scale, spacing);
    RunLengthIsSum(bs, scaled, spaced);
    var w, g := SumWidth(bs), (|bs| - 1) as real;
    assert w * (scale * k) == (w * scale) * k;
    assert g * (spacing * k) == (g * spacing) * k;
  }

  /**
    Shrinking a run to fit: once letters and spacing are scaled, the run is
    exactly the width passed on, and no wider than the rect.
   */
  lemma FitRunLength(bs: seq<Bounds>, rectWidth: real, letterScale: real, spacing: real)
    requires |bs| >= 1 && rectWidth >= 0.0
    ensures var fit := FitToRect(rectWidth, letterScale, RunLength(bs, letterScale, spacing));
      && RunLength(bs, fit.letterScale, ScaledSpacing(spacing, fit.spacingScale)) == fit.scaledWidth
      && fit.scaledWidth <= rectWidth
  {
    var fit := FitToRect(rectWidth, letterScale, RunLength(bs, letterScale, spacing));
    RunLengthScales(bs, letterScale, spacing, fit.spacingScale, fit.letterScale,
                    ScaledSpacing(spacing, fit.spacingScale));
  }

  /**
    A run laid out from the pivot origin computed for its own length, no
    wider than the rect: every glyph lies inside the rect horizontally,
    and the run is aligned as the horizontal pivot says.
   */
  lemma LaidOutInsideRect(horizontal: HorizontalPivot, vertical: VerticalPivot, rect: Rect, pivot: Vec2,
                          bs: seq<Bounds>, scale: real, spacing: real, width: real, k: nat)
    requires |bs| >= 1 && PivotRect(rect, pivot)
    requires scale >= 0.0 && spacing >= 0.0
    requires forall i :: 0 <= i < |bs| ==> bs[i].extents.x >= 0.0
    requires RunLength(bs, scale, spacing) == width <= rect.width
    requires k < |bs|
    ensures var ts := LaidOut(GetPivotOrigin(horizontal, vertical, rect, pivot, width), vertical, bs, scale, spacing);
      && rect.XMin() <= LeftEdge(ts[k], bs[k]) <= RightEdge(ts[k], bs[k]) <= rect.XMax()
      && (horizontal == Left ==> LeftEdge(ts[|bs| - 1], bs[|bs| - 1]) == rect.XMin())
      && (horizontal == Right ==> RightEdge(ts[0], bs[0]) == rect.XMax())
      && (horizontal == Center ==>
            (LeftEdge(ts[|bs| - 1], bs[|bs| - 1]) + RightEdge(ts[0], bs[0])) / 2.0 == rect.XMin() + rect.width / 2.0)
  {
    var origin := GetPivotOrigin(horizontal, vertical, rect, pivot, width);
    var ts := LaidOut(origin, vertical, bs, scale, spacing);
    LaidOutIsRun(origin, vertical, bs, scale, spacing);
    RunInsideRect(horizontal, vertical, rect, pivot, bs, scale, spacing, ts, k);
    PivotAlignsRun(horizontal, vertical, rect, pivot, bs, scale, spacing, ts);
  }

  // ---------------------------------------------------------------------
  // Measuring before the fit

  /** The letter scale before fitting: digit 0's sprite height scaled to min(Size, rect height). */
  function LetterScale(s: Settings, m: Metrics): (ls: real)
    requires ValidMetrics(m)
    ensures ls * m(Digit(0)).Size().y == Min(s.size, s.rect.height)
  {
    Min(s.size, s.rect.height) / m(Digit(0)).Size().y
  }

  lemma LetterScaleNonNegative(s: Settings, m: Metrics)
    requires ValidMetrics(m) && s.size >= 0.0 && s.rect.height >= 0.0
    ensures LetterScale(s, m) >= 0.0
  {
    assert m(Digit(0)).Size().y > 0.0;
  }

  /**
    Scaled width plus one spacing per gap between the `count` glyphs
    before the minus, and one more before a shown minus, as both
    ApplyNumbers add it up.
   */
  function Measured(width: real, letterScale: real, count: nat, displayMinus: bool, spacing: real): (r: real)
    ensures var glyphs := count + (if displayMinus then 1 else 0);
      count >= 1 ==> r == width * letterScale + (glyphs - 1) as real * spacing
  {
    width * letterScale + (count as int - 1) as real * spacing + (if displayMinus then spacing else 0.0)
  }

  /** The measured width is the length of the run of those glyphs, the minus included. */
  lemma MeasuredRunLength(bs: seq<Bounds>, scale: real, spacing: real, count: nat, displayMinus: bool)
    requires count >= 1 && |bs| == count + (if displayMinus then 1 else 0)
    ensures RunLength(bs, scale, spacing) == Measured(SumWidth(bs), scale, count, displayMinus, spacing)
  {
    RunLengthIsSum(bs, scale, spacing);
    if displayMinus {
      assert (|bs| - 1) as real * spacing == (count - 1) as real * spacing + spacing;
    }
  }
}
