/**
  Types shared by the integer and the decimal sprite-digit components:
  glyphs and their bounding boxes, the slots (child displays) that show
  them, the configuration enums, and the rectangle the number is laid
  out in.
 */
module Common {

  datatype Option<+T> = None | Some(value: T)

  /** A decimal digit value: the index into the asset's number sprites. */
  type DigitValue = d: int | 0 <= d <= 9

  /** What a slot can show: one of the ten digit sprites, the minus sprite or the decimal point. */
  datatype Glyph = Digit(d: DigitValue) | Minus | Point

  datatype Vec2 = Vec2(x: real, y: real)

  datatype Vec3 = Vec3(x: real, y: real, z: real)
  {
    function Plus(other: Vec3): Vec3
    {
      Vec3(x + other.x, y + other.y, z + other.z)
    }
  }

  /** A sprite's bounding box in its own units: centre and half-extents. */
  datatype Bounds = Bounds(center: Vec2, extents: Vec2)
  {
    function Size(): Vec2
    {
      Vec2(2.0 * extents.x, 2.0 * extents.y)
    }
  }

  /** The glyph asset: for every glyph, the bounds of its sprite. */
  type Metrics = Glyph -> Bounds

  /** Every sprite of the asset has a non-degenerate box. */
  ghost predicate ValidMetrics(m: Metrics)
  {
    forall g :: m(g).extents.x > 0.0 && m(g).extents.y > 0.0
  }

  /** Local position and scale written into a slot's transform. */
  datatype Transform = Transform(localPosition: Vec3, localScale: Vec3)

  /** One child display: whether it is shown, the sprite bound to it, and where it stands. */
  datatype Display = Display(enabled: bool, sprite: Option<Glyph>, transform: Transform)

  /** A freshly created child display: hidden, no sprite, identity transform. */
  function NewDisplay(): Display
  {
    Display(false, None, Transform(Vec3(0.0, 0.0, 0.0), Vec3(1.0, 1.0, 1.0)))
  }

  /** `count` fresh displays, as appended when the pool grows. */
  function NewDisplays(count: int): (ds: seq<Display>)
    ensures |ds| == if count < 0 then 0 else count
    ensures forall i :: 0 <= i < |ds| ==> ds[i] == NewDisplay()
  {
    if count <= 0 then [] else NewDisplays(count - 1) + [NewDisplay()]
  }

  datatype PaddingMode = Pad | ZeroFill

  datatype HorizontalPivot = Left | Center | Right

  datatype VerticalPivot = Top | Middle | Bottom

  /** A rectangle given by its corner (x, y) and its size. */
  datatype Rect = Rect(x: real, y: real, width: real, height: real)
  {
    function XMin(): real { x }
    function XMax(): real { x + width }
    function YMin(): real { y }
    function YMax(): real { y + height }
  }

  /** The rect of a RectTransform: its corner is placed by the pivot, so (0, 0) is the pivot point. */
  ghost predicate PivotRect(rect: Rect, pivot: Vec2)
  {
    rect.x == -pivot.x * rect.width && rect.y == -pivot.y * rect.height
  }

  /** The base component's layout configuration and its RectTransform. */
  datatype Settings = Settings(
    size: real,
    spacing: real,
    horizontal: HorizontalPivot,
    vertical: VerticalPivot,
    rect: Rect,
    pivot: Vec2)

  function Min(a: real, b: real): real
  {
    if a <= b then a else b
  }

  /** Unscaled widths of the sprites in `bs`, added up. */
  function SumWidth(bs: seq<Bounds>): real
  {
    if |bs| == 0 then 0.0 else SumWidth(bs[..|bs| - 1]) + bs[|bs| - 1].Size().x
  }

  /** The bounds of each glyph of `gs`. */
  function BoundsOf(m: Metrics, gs: seq<Glyph>): (bs: seq<Bounds>)
    ensures |bs| == |gs|
    ensures forall i :: 0 <= i < |gs| ==> bs[i] == m(gs[i])
  {
    seq(|gs|, i requires 0 <= i < |gs| => m(gs[i]))
  }

  /** The digit glyphs for a sequence of digit values. */
  function DigitGlyphs(ds: seq<int>): (gs: seq<Glyph>)
    requires forall i :: 0 <= i < |ds| ==> 0 <= ds[i] <= 9
    ensures |gs| == |ds|
    ensures forall i {:trigger gs[i]} :: 0 <= i < |ds| ==> gs[i] == Digit(ds[i])
  {
    seq(|ds|, i requires 0 <= i < |ds| => Digit(ds[i]))
  }

  /** Every display of `ds` has a sprite bound. */
  ghost predicate AllHaveSprites(ds: seq<Display>)
  {
    forall i :: 0 <= i < |ds| ==> ds[i].sprite.Some?
  }

  /** The sprites bound to the displays `ds`. */
  function SpritesOf(ds: seq<Display>): (gs: seq<Glyph>)
    requires AllHaveSprites(ds)
    ensures |gs| == |ds|
    ensures forall i :: 0 <= i < |ds| ==> gs[i] == ds[i].sprite.value
  {
    seq(|ds|, i requires 0 <= i < |ds| && AllHaveSprites(ds) => ds[i].sprite.value)
  }

  /** The transforms of the displays `ds`. */
  function TransformsOf(ds: seq<Display>): (ts: seq<Transform>)
    ensures |ts| == |ds|
    ensures forall i :: 0 <= i < |ds| ==> ts[i] == ds[i].transform
  {
    seq(|ds|, i requires 0 <= i < |ds| => ds[i].transform)
  }

  /** `ds` with the transforms `ts` written into its first |ts| displays. */
  function Relaid(ds: seq<Display>, ts: seq<Transform>): (r: seq<Display>)
    requires |ts| <= |ds|
    ensures |r| == |ds|
    ensures forall i :: 0 <= i < |ds| ==> r[i] == if i < |ts| then ds[i].(transform := ts[i]) else ds[i]
  {
    seq(|ds|, i requires 0 <= i < |ds| => if i < |ts| then ds[i].(transform := ts[i]) else ds[i])
  }

  lemma {:induction false} SumWidthAppend(bs: seq<Bounds>, b: Bounds)
    ensures SumWidth(bs + [b]) == SumWidth(bs) + b.Size().x
  {
    assert (bs + [b])[..|bs|] == bs;
  }

  lemma {:induction false} SumWidthConcat(a: seq<Bounds>, b: seq<Bounds>)
    ensures SumWidth(a + b) == SumWidth(a) + SumWidth(b)
    decreases |b|
  {
    if |b| == 0 {
      assert a + b == a;
    } else {
      var b' := b[..|b| - 1];
      assert a + b == (a + b') + [b[|b| - 1]];
      assert b == b' + [b[|b| - 1]];
      SumWidthAppend(a + b', b[|b| - 1]);
      SumWidthAppend(b', b[|b| - 1]);
      SumWidthConcat(a, b');
    }
  }
}
