/**
  The decimal component (SpriteDigitsFloat): a value shown with a fixed
  number of decimal places.  Slots are laid out right to left: the
  fraction digits (smallest place rightmost), the decimal point, the
  integer digits ones first, then the minus sign.
 */
module DecimalDisplay {
  import opened Common
  import opened Numerals
  import opened Layout
  import opened DecimalRounding

  // ---------------------------------------------------------------------
  // Specification of what is shown

  /** The magnitude shown: the value with its sign dropped. */
  function Magnitude(value: real): (num: real)
    ensures num >= 0.0
    ensures num == value || num == -value
  {
    if value < 0.0 then -value else value
  }

  /**
    The number of digits before the point: one, and one more for every
    division by ten it takes to bring num below ten.
   */
  function DigitsBeforePoint(num: real): (d: nat)
    requires num >= 0.0
    ensures d >= 1 && num < Pow10(d) as real
    ensures d > 1 ==> Pow10(d - 1) as real <= num
    decreases num.Floor
  {
    if num < 10.0 then 1
    else
      FloorDiv(num, 10);
      1 + DigitsBeforePoint(num / 10.0)
  }

  /** The bounds above pin the number of digits before the point down. */
  lemma DigitsBeforePointUnique(num: real, d: nat)
    requires num >= 0.0
    requires d >= 1 && num < Pow10(d) as real
    requires d > 1 ==> Pow10(d - 1) as real <= num
    ensures d == DigitsBeforePoint(num)
  {
    var e := DigitsBeforePoint(num);
    if d < e {
      Pow10Monotone(d, e - 1);
    } else if e < d {
      Pow10Monotone(e, d - 1);
    }
  }

  /**
    What ApplyNumbers decides: the digits of the number slots, smallest
    place first (`places` fraction digits, then the integer digits), and
    whether a minus is shown.
   */
  datatype DecimalPlan = DecimalPlan(digits: seq<int>, places: nat, displayMinus: bool)

  ghost predicate WellFormed(p: DecimalPlan)
  {
    p.places <= |p.digits| && AreDigits(p.digits)
  }

  /**
    The plan for value with `places` decimal places: the digits of its
    magnitude as the sprite-setting loops write them, the minus exactly
    for a negative value.
   */
  function PlanOf(value: real, places: nat): (p: DecimalPlan)
    ensures WellFormed(p)
    ensures p.places == places
    ensures p.displayMinus <==> value < 0.0
    ensures var d := DigitsBeforePoint(Magnitude(value));
      places + d <= |p.digits| <= places + d + 1
  {
    var num := Magnitude(value);
    DecimalPlan(DecimalDigits(num, places, DigitsBeforePoint(num)), places, value < 0.0)
  }

  /**
    With at least one decimal place the digits shown are those of
    |value|·10^places rounded half to even, so that the signed digits
    read back to value within half a unit of the last place.
   */
  lemma PlanShowsRoundedValue(value: real, places: nat)
    requires places >= 1
    ensures var p := PlanOf(value, places);
            var num := Magnitude(value);
            var r := RoundHalfEven(ShiftUp(num, places));
      && ValueOf(p.digits) == r
      && p.digits == DigitsOf(r, |p.digits|)
      && ShiftUp(num, places) - 0.5 <= r as real <= ShiftUp(num, places) + 0.5
  {
    var num := Magnitude(value);
    DecimalDigitsValue(num, places, DigitsBeforePoint(num));
  }

  /**
    A digit is added in front of the d digits before the point exactly
    when the rounding reaches the next power of ten.
   */
  lemma PlanCarriesOut(value: real, places: nat, d: nat)
    requires places >= 1 && d == DigitsBeforePoint(Magnitude(value))
    ensures |PlanOf(value, places).digits| == places + d + 1
        <==> RoundHalfEven(ShiftUp(Magnitude(value), places)) >= Pow10(places + d)
  {
    DecimalDigitsValue(Magnitude(value), places, d);
  }

  /** A value with no more than `places` decimals is shown exactly. */
  lemma PlanShowsExactValue(value: real, places: nat)
    requires places >= 1
    requires ShiftUp(Magnitude(value), places).Floor as real == ShiftUp(Magnitude(value), places)
    ensures var p := PlanOf(value, places);
      ShiftDown(ValueOf(p.digits) as real, places) == Magnitude(value)
  {
    var num := Magnitude(value);
    DecimalExact(num, places, DigitsBeforePoint(num));
  }

  /** The glyphs shown, in placement order: fraction digits, point, integer digits, minus. */
  function PlanGlyphs(p: DecimalPlan): (gs: seq<Glyph>)
    requires WellFormed(p)
    ensures |gs| == |p.digits| + 1 + (if p.displayMinus then 1 else 0)
    ensures forall i :: 0 <= i < p.places ==> gs[i] == Digit(p.digits[i])
    ensures gs[p.places] == Point
    ensures forall i :: p.places < i <= |p.digits| ==> gs[i] == Digit(p.digits[i - 1])
    ensures p.displayMinus ==> gs[|gs| - 1] == Minus
  {
    DigitGlyphs(p.digits[..p.places]) + [Point] + DigitGlyphs(p.digits[p.places..])
      + (if p.displayMinus then [Minus] else [])
  }

  // ---------------------------------------------------------------------
  // Width, fit and layout of a plan

  /** The width ApplyNumbers measures: one spacing per gap between digits and point, one more before a minus. */
  function PlanMeasured(p: DecimalPlan, m: Metrics, letterScale: real, spacing: real): real
    requires WellFormed(p)
  {
    Measured(SumWidth(BoundsOf(m, PlanGlyphs(p))), letterScale, |p.digits| + 1, p.displayMinus, spacing)
  }

  /** Letter scale, spacing factor and width after the shrink-to-fit step. */
  function PlanFit(p: DecimalPlan, m: Metrics, s: Settings): Fit
    requires WellFormed(p) && ValidMetrics(m) && s.rect.width >= 0.0
  {
    FitToRect(s.rect.width, LetterScale(s, m), PlanMeasured(p, m, LetterScale(s, m), s.spacing))
  }

  /** The transforms of the shown slots: the plan's glyphs laid out from the pivot origin. */
  function PlanLayout(p: DecimalPlan, m: Metrics, s: Settings): (ts: seq<Transform>)
    requires WellFormed(p) && ValidMetrics(m) && s.rect.width >= 0.0
    ensures |ts| == |PlanGlyphs(p)|
  {
    var fit := PlanFit(p, m, s);
    LaidOut(GetPivotOrigin(s.horizontal, s.vertical, s.rect, s.pivot, fit.scaledWidth), s.vertical,
            BoundsOf(m, PlanGlyphs(p)), fit.letterScale, ScaledSpacing(s.spacing, fit.spacingScale))
  }

  /** Every shown glyph is placed at its caret along the run that starts at the pivot origin for the fitted width. */
  lemma PlanLayoutIsRun(p: DecimalPlan, m: Metrics, s: Settings)
    requires WellFormed(p) && ValidMetrics(m) && s.rect.width >= 0.0
    ensures var fit := PlanFit(p, m, s);
      RunPlaced(GetPivotOrigin(s.horizontal, s.vertical, s.rect, s.pivot, fit.scaledWidth), s.vertical,
                BoundsOf(m, PlanGlyphs(p)), fit.letterScale, ScaledSpacing(s.spacing, fit.spacingScale),
                PlanLayout(p, m, s))
  {
    var fit := PlanFit(p, m, s);
    LaidOutIsRun(GetPivotOrigin(s.horizontal, s.vertical, s.rect, s.pivot, fit.scaledWidth), s.vertical,
                 BoundsOf(m, PlanGlyphs(p)), fit.letterScale, ScaledSpacing(s.spacing, fit.spacingScale));
  }



  /**
    After shrink-to-fit the run of digits, point and minus is exactly as
    wide as the width handed to the pivot, and never wider than the rect.
   */
  lemma PlanFitsRect(p: DecimalPlan, m: Metrics, s: Settings)
    requires WellFormed(p) && ValidMetrics(m) && s.rect.width >= 0.0
    ensures var fit := PlanFit(p, m, s);
      && RunLength(BoundsOf(m, PlanGlyphs(p)), fit.letterScale, ScaledSpacing(s.spacing, fit.spacingScale))
         == fit.scaledWidth
      && fit.scaledWidth <= s.rect.width
  {
    var ls := LetterScale(s, m);
    var bs := BoundsOf(m, PlanGlyphs(p));
    MeasuredRunLength(bs, ls, s.spacing, |p.digits| + 1, p.displayMinus);
    FitRunLength(bs, s.rect.width, ls, s.spacing);
  }

  /**
    With a non-negative size and spacing, every shown glyph lies inside
    the rect horizontally, and the run sits where the horizontal pivot
    says.
   */
  lemma PlanInsideRect(p: DecimalPlan, m: Metrics, s: Settings, k: nat)
    requires WellFormed(p) && ValidMetrics(m) && s.rect.width >= 0.0 && s.rect.height >= 0.0
    requires s.size >= 0.0 && s.spacing >= 0.0 && PivotRect(s.rect, s.pivot)
    requires k < |PlanGlyphs(p)|
    ensures var bs := BoundsOf(m, PlanGlyphs(p));
            var ts := PlanLayout(p, m, s);
      && s.rect.XMin() <= LeftEdge(ts[k], bs[k]) <= RightEdge(ts[k], bs[k]) <= s.rect.XMax()
      && (s.horizontal == Left ==> LeftEdge(ts[|bs| - 1], bs[|bs| - 1]) == s.rect.XMin())
      && (s.horizontal == Right ==> RightEdge(ts[0], bs[0]) == s.rect.XMax())
      && (s.horizontal == Center ==>
            (LeftEdge(ts[|bs| - 1], bs[|bs| - 1]) + RightEdge(ts[0], bs[0])) / 2.0 == s.rect.XMin() + s.rect.width / 2.0)
  {
    var fit := PlanFit(p, m, s);
    var bs := BoundsOf(m, PlanGlyphs(p));
    PlanFitsRect(p, m, s);
    LetterScaleNonNegative(s, m);
    NonNegativeProduct(LetterScale(s, m), fit.spacingScale);
    NonNegativeProduct(s.spacing, fit.spacingScale);
    LaidOutInsideRect(s.horizontal, s.vertical, s.rect, s.pivot, bs, fit.letterScale,
                      ScaledSpacing(s.spacing, fit.spacingScale), fit.scaledWidth, k);
  }

  /** The fit ApplyNumbers computes from the width it measured is the plan's. */
  lemma FitOfPlan(p: DecimalPlan, m: Metrics, s: Settings, width: real, count: nat, letterScale: real)
    requires WellFormed(p) && ValidMetrics(m) && s.rect.width >= 0.0
    requires width == SumWidth(BoundsOf(m, PlanGlyphs(p))) && count == |p.digits| && letterScale == LetterScale(s, m)
    ensures FitToRect(s.rect.width, letterScale, Measured(width, letterScale, count + 1, p.displayMinus, s.spacing))
         == PlanFit(p, m, s)
  {
  }

  /**
    Once the sprites of num are set, the slots, the point, the minus and
    the shrink-to-fit step are those of its plan.
   */
  lemma SpritesSetForPlan(p: DecimalPlan, m: Metrics, s: Settings, ds: seq<int>, places: nat, before: nat,
                          displayMinus: bool, pool0: seq<Display>, pool: seq<Display>, nd: seq<Display>,
                          width: real, shown: nat, letterScale: real, fit: Fit)
    requires ValidMetrics(m) && s.rect.width >= 0.0 && places + before <= |pool0|
    requires AreDigits(ds) && places + before <= |ds| && p == DecimalPlan(ds, places, displayMinus)
    requires pool == GrownTo(pool0, |p.digits|)
    requires shown == |ds| - places
      && nd == Written(GrownTo(pool0, |ds|), ds)
      && width == SumWidth(BoundsOf(m, PlanGlyphs(DecimalPlan(ds, places, displayMinus))))
    requires letterScale == LetterScale(s, m)
    requires fit == FitToRect(s.rect.width, letterScale, Measured(width, letterScale, shown + places + 1, displayMinus,
                                                                 s.spacing))
    ensures WellFormed(p) && p.places == places && p.displayMinus == displayMinus
    ensures |p.digits| == places + shown <= |pool| && fit == PlanFit(p, m, s) && nd == Written(pool, p.digits)
  {
    FitOfPlan(p, m, s, width, shown + places, letterScale);
  }

  // ---------------------------------------------------------------------
  // The slots

  /** The slot pool grown to at least n slots with fresh displays, as PrepareNumberDisplays does. */
  function GrownTo(pool: seq<Display>, n: int): (r: seq<Display>)
    ensures |r| == if n <= |pool| then |pool| else n
    ensures r[..|pool|] == pool
    ensures forall i :: 0 <= i < |pool| ==> r[i] == pool[i]
    ensures forall i :: |pool| <= i < |r| ==> r[i] == NewDisplay()
  {
    pool + NewDisplays(n - |pool|)
  }

  /** A pool already large enough does not grow. */
  lemma GrownToNoop(pool: seq<Display>, n: int)
    requires n <= |pool|
    ensures GrownTo(pool, n) == pool
  {
    assert GrownTo(pool, n)[..|pool|] == pool;
  }

  /** Growing to a and then to b >= a is growing to b. */
  lemma GrownTwice(pool: seq<Display>, a: int, b: int)
    requires a <= b
    ensures GrownTo(GrownTo(pool, a), b) == GrownTo(pool, b)
  {
    var r, r' := GrownTo(GrownTo(pool, a), b), GrownTo(pool, b);
    assert |r| == |r'|;
    forall i | 0 <= i < |r|
      ensures r[i] == r'[i]
    {
      if i < |pool| {
        assert r[i] == r[..|pool|][i] && r'[i] == r'[..|pool|][i];
      }
    }
  }

  /** The pool after the sprite-setting loops: slot i below |ds| on with digit ds[i], every later slot off. */
  function Written(pool: seq<Display>, ds: seq<int>): (r: seq<Display>)
    requires |ds| <= |pool| && AreDigits(ds)
    ensures |r| == |pool|
    ensures forall i {:trigger r[i]} :: 0 <= i < |pool| ==>
      r[i] == if i < |ds| then pool[i].(enabled := true, sprite := Some(Digit(ds[i]))) else pool[i].(enabled := false)
  {
    seq(|pool|, i requires 0 <= i < |pool| =>
      if i < |ds| then pool[i].(enabled := true, sprite := Some(Digit(ds[i]))) else pool[i].(enabled := false))
  }

  /** The pool while the digit loops run: slot i below |ds| on with digit ds[i], every later slot untouched. */
  function Enabled(pool: seq<Display>, ds: seq<int>): (r: seq<Display>)
    requires |ds| <= |pool| && AreDigits(ds)
    ensures |r| == |pool|
    ensures forall i {:trigger r[i]} :: 0 <= i < |pool| ==>
      r[i] == if i < |ds| then pool[i].(enabled := true, sprite := Some(Digit(ds[i]))) else pool[i]
  {
    seq(|pool|, i requires 0 <= i < |pool| =>
      if i < |ds| then pool[i].(enabled := true, sprite := Some(Digit(ds[i]))) else pool[i])
  }

  /** Writing the next digit into the next slot. */
  lemma EnabledStep(pool: seq<Display>, ds: seq<int>, d: int)
    requires |ds| < |pool| && AreDigits(ds) && 0 <= d <= 9
    ensures var e := Enabled(pool, ds);
      e[|ds| := e[|ds|].(enabled := true, sprite := Some(Digit(d)))] == Enabled(pool, ds + [d])
  {
  }

  /**
    One pass of either digit loop: the carry step on the raw digit at k
    extends the digits written so far by one and switches on slot k.
   */
  lemma CarryLoopStep(raw: seq<int>, k: nat, pool: seq<Display>, written: seq<int>, carryUp: bool)
    requires AreRoundedDigits(raw) && k < |raw| && k < |pool|
    requires written == CarryPrefix(raw, k).0 && carryUp == CarryPrefix(raw, k).1
    ensures var step := CarryStep(raw[k], carryUp);
            var e := Enabled(pool, written);
      && CarryPrefix(raw, k + 1) == (written + [step.0], step.1)
      && e[k := e[k].(enabled := true, sprite := Some(Digit(step.0)))] == Enabled(pool, written + [step.0])
  {
    CarryPrefixNext(raw, k);
    EnabledStep(pool, written, CarryStep(raw[k], carryUp).0);
  }

  /** Growing the pool commutes with the digits already written. */
  lemma EnabledGrown(pool: seq<Display>, ds: seq<int>, n: int)
    requires |ds| <= |pool| && AreDigits(ds)
    ensures GrownTo(Enabled(pool, ds), n) == Enabled(GrownTo(pool, n), ds)
  {
    var a, b := GrownTo(Enabled(pool, ds), n), Enabled(GrownTo(pool, n), ds);
    assert |a| == |b|;
    forall i | 0 <= i < |a|
      ensures a[i] == b[i]
    {
    }
  }

  /** The disable loop part way: slots from |ds| below k switched off. */
  function DisabledUpTo(pool: seq<Display>, ds: seq<int>, k: nat): (r: seq<Display>)
    requires |ds| <= k <= |pool| && AreDigits(ds)
    ensures |r| == |pool|
    ensures forall i :: 0 <= i < |pool| ==>
      r[i] == if i < |ds| then pool[i].(enabled := true, sprite := Some(Digit(ds[i])))
              else if i < k then pool[i].(enabled := false) else pool[i]
  {
    seq(|pool|, i requires 0 <= i < |pool| =>
      if i < |ds| then pool[i].(enabled := true, sprite := Some(Digit(ds[i])))
      else if i < k then pool[i].(enabled := false) else pool[i])
  }

  /** The disable loop starts from the written digits, moves one slot at a time, and ends with Written. */
  lemma DisabledSteps(pool: seq<Display>, ds: seq<int>, k: nat)
    requires |ds| <= k <= |pool| && AreDigits(ds)
    ensures DisabledUpTo(pool, ds, |ds|) == Enabled(pool, ds)
    ensures k < |pool| ==>
      var e := DisabledUpTo(pool, ds, k);
      e[k := e[k].(enabled := false)] == DisabledUpTo(pool, ds, k + 1)
    ensures DisabledUpTo(pool, ds, |pool|) == Written(pool, ds)
  {
  }

  /** The slots that take part in the layout, in placement order. */
  function Shown(numberDisplays: seq<Display>, point: Display, minus: Display, places: nat, count: nat,
                 displayMinus: bool): (r: seq<Display>)
    requires places <= count <= |numberDisplays|
    ensures |r| == count + 1 + (if displayMinus then 1 else 0)
    ensures forall i :: 0 <= i < places ==> r[i] == numberDisplays[i]
    ensures r[places] == point
    ensures forall i :: places < i <= count ==> r[i] == numberDisplays[i - 1]
    ensures displayMinus ==> r[count + 1] == minus
  {
    numberDisplays[..places] + [point] + numberDisplays[places..count] + (if displayMinus then [minus] else [])
  }

  /**
    The transforms SetupSpritePositions gives the shown slots: their
    sprites laid out from the pivot origin of a run scaledWidth wide.
   */
  function ShownLayout(s: Settings, m: Metrics, shown: seq<Display>, letterScale: real, spacingScale: real,
                       scaledWidth: real): (run: seq<Transform>)
    requires AllHaveSprites(shown)
    ensures |run| == |shown|
  {
    LaidOut(GetPivotOrigin(s.horizontal, s.vertical, s.rect, s.pivot, scaledWidth), s.vertical,
            BoundsOf(m, SpritesOf(shown)), letterScale, ScaledSpacing(s.spacing, spacingScale))
  }

  /** Slots that carry a plan's glyphs, laid out with the plan's fit, are where the plan's layout puts them. */
  lemma ShownLayoutOfPlan(p: DecimalPlan, m: Metrics, s: Settings, shown: seq<Display>, fit: Fit)
    requires WellFormed(p) && ValidMetrics(m) && s.rect.width >= 0.0
    requires AllHaveSprites(shown) && SpritesOf(shown) == PlanGlyphs(p) && fit == PlanFit(p, m, s)
    ensures ShownLayout(s, m, shown, fit.letterScale, fit.spacingScale, fit.scaledWidth) == PlanLayout(p, m, s)
  {
  }

  /**
    The slots display plan p: the first |digits| number slots are on and
    every later one off, the point is on, the minus is on exactly when
    the plan shows it, and the shown slots carry the plan's glyphs where
    its layout puts them.
   */
  ghost predicate ShowsPlan(p: DecimalPlan, m: Metrics, s: Settings, ds: seq<Display>, point: Display,
                            minus: Display)
    requires WellFormed(p) && ValidMetrics(m) && s.rect.width >= 0.0
  {
    && |p.digits| <= |ds|
    && (forall i :: 0 <= i < |ds| ==> (ds[i].enabled <==> i < |p.digits|))
    && point.enabled
    && minus.enabled == p.displayMinus
    && var shown := Shown(ds, point, minus, p.places, |p.digits|, p.displayMinus);
    && AllHaveSprites(shown)
    && SpritesOf(shown) == PlanGlyphs(p)
    && TransformsOf(shown) == PlanLayout(p, m, s)
  }

  /** The shown slots after the sprite-setting loops carry the plan's glyphs. */
  lemma WrittenGlyphs(pool: seq<Display>, p: DecimalPlan, point: Display, minus: Display)
    requires WellFormed(p) && |p.digits| <= |pool|
    requires point.sprite == Some(Point)
    requires p.displayMinus ==> minus.sprite == Some(Minus)
    ensures var shown := Shown(Written(pool, p.digits), point, minus, p.places, |p.digits|, p.displayMinus);
      && AllHaveSprites(shown)
      && SpritesOf(shown) == PlanGlyphs(p)
  {
  }

  /** Relaying the shown slots rewrites their transforms and nothing else. */
  lemma RelaidShown(ds: seq<Display>, point: Display, minus: Display, places: nat, count: nat, displayMinus: bool,
                    run: seq<Transform>)
    requires places <= count <= |ds|
    requires |run| == count + 1 + (if displayMinus then 1 else 0)
    ensures var point' := point.(transform := run[places]);
            var minus' := if displayMinus then minus.(transform := run[count + 1]) else minus;
            var ds' := Relaid(ds, run[..places] + run[places + 1..count + 1]);
            var before := Shown(ds, point, minus, places, count, displayMinus);
            var after := Shown(ds', point', minus', places, count, displayMinus);
      && |after| == |before|
      && (forall i :: 0 <= i < |after| ==> after[i] == before[i].(transform := run[i]))
      && TransformsOf(after) == run
  {
    var point' := point.(transform := run[places]);
    var minus' := if displayMinus then minus.(transform := run[count + 1]) else minus;
    var ts := run[..places] + run[places + 1..count + 1];
    var ds' := Relaid(ds, ts);
    var before := Shown(ds, point, minus, places, count, displayMinus);
    var after := Shown(ds', point', minus', places, count, displayMinus);
    forall i | 0 <= i < |after|
      ensures after[i] == before[i].(transform := run[i])
    {
      if i < places {
        assert ts[i] == run[i];
      } else if places < i <= count {
        assert ts[i - 1] == run[i];
      }
    }
  }

  /**
    Writing p's digits into the pool and then the transforms `run` into
    the shown slots leaves those slots with p's glyphs and with exactly
    the transforms of `run`.
   */
  lemma SetThenLaid(p: DecimalPlan, pool: seq<Display>, point: Display, minus: Display, run: seq<Transform>,
                    ds: seq<Display>, point': Display, minus': Display)
    requires WellFormed(p) && |p.digits| <= |pool|
    requires point.sprite == Some(Point)
    requires p.displayMinus ==> minus.sprite == Some(Minus)
    requires |run| == |p.digits| + 1 + (if p.displayMinus then 1 else 0)
    requires ds == Relaid(Written(pool, p.digits), run[..p.places] + run[p.places + 1..|p.digits| + 1])
    requires point' == point.(transform := run[p.places])
    requires minus' == if p.displayMinus then minus.(transform := run[|p.digits| + 1]) else minus
    ensures |ds| == |pool|
    ensures forall i :: 0 <= i < |pool| ==> ds[i].enabled == (i < |p.digits|)
    ensures forall i :: |p.digits| <= i < |pool| ==> ds[i] == pool[i].(enabled := false)
    ensures var shown := Shown(ds, point', minus', p.places, |p.digits|, p.displayMinus);
      && AllHaveSprites(shown)
      && SpritesOf(shown) == PlanGlyphs(p)
      && TransformsOf(shown) == run
  {
    var digits := Written(pool, p.digits);
    WrittenGlyphs(pool, p, point, minus);
    RelaidShown(digits, point, minus, p.places, |p.digits|, p.displayMinus, run);
    SameSprites(Shown(digits, point, minus, p.places, |p.digits|, p.displayMinus),
                Shown(ds, point', minus', p.places, |p.digits|, p.displayMinus), run);
  }

  /** Displays that differ only in their transforms carry the same sprites. */
  lemma SameSprites(before: seq<Display>, after: seq<Display>, run: seq<Transform>)
    requires |after| == |before| == |run|
    requires forall i :: 0 <= i < |after| ==> after[i] == before[i].(transform := run[i])
    requires AllHaveSprites(before)
    ensures AllHaveSprites(after) && SpritesOf(after) == SpritesOf(before)
  {
  }

  /** Setting the sprites for p and then laying the shown slots out by p's layout makes the slots show p. */
  lemma SetThenLaidShowsPlan(p: DecimalPlan, m: Metrics, s: Settings, pool: seq<Display>, nd0: seq<Display>,
                             point: Display, minus: Display, fit: Fit, run: seq<Transform>, places: nat, shown: nat,
                             displayMinus: bool, ds: seq<Display>, point': Display, minus': Display)
    requires WellFormed(p) && ValidMetrics(m) && s.rect.width >= 0.0
    requires p.places == places && p.displayMinus == displayMinus && |p.digits| == places + shown <= |pool|
    requires fit == PlanFit(p, m, s) && nd0 == Written(pool, p.digits)
    requires point.enabled && point.sprite == Some(Point)
    requires minus.enabled == displayMinus && (displayMinus ==> minus.sprite == Some(Minus))
    requires AllHaveSprites(Shown(nd0, point, minus, places, places + shown, displayMinus))
    requires run == ShownLayout(s, m, Shown(nd0, point, minus, places, places + shown, displayMinus),
                                fit.letterScale, fit.spacingScale, fit.scaledWidth)
    requires ds == Relaid(nd0, run[..places] + run[places + 1..places + shown + 1])
    requires point' == point.(transform := run[places])
    requires minus' == if displayMinus then minus.(transform := run[places + shown + 1]) else minus
    ensures ShowsPlan(p, m, s, ds, point', minus')
    ensures |ds| == |pool|
    ensures forall i :: |p.digits| <= i < |pool| ==> ds[i] == pool[i].(enabled := false)
  {
    WrittenGlyphs(pool, p, point, minus);
    ShownLayoutOfPlan(p, m, s, Shown(nd0, point, minus, places, places + shown, displayMinus), fit);
    SetThenLaid(p, pool, point, minus, PlanLayout(p, m, s), ds, point', minus');
  }

  /** The slots written for plan p, with the point and the minus, all carry a sprite. */
  lemma WrittenShownSprites(pool: seq<Display>, p: DecimalPlan, nd0: seq<Display>, point: Display, minus: Display,
                            places: nat, shown: nat, displayMinus: bool)
    requires WellFormed(p) && p.places == places && p.displayMinus == displayMinus
    requires |p.digits| == places + shown <= |pool| && nd0 == Written(pool, p.digits)
    requires point.sprite == Some(Point) && (displayMinus ==> minus.sprite == Some(Minus))
    ensures AllHaveSprites(Shown(nd0, point, minus, places, places + shown, displayMinus))
  {
    WrittenGlyphs(pool, p, point, minus);
  }



  // ---------------------------------------------------------------------
  // Helpers of the sprite-setting loops

  /** Adding one glyph adds its width. */
  lemma WidthAppend(m: Metrics, gs: seq<Glyph>, g: Glyph)
    ensures SumWidth(BoundsOf(m, gs + [g])) == SumWidth(BoundsOf(m, gs)) + m(g).Size().x
  {
    assert BoundsOf(m, gs + [g]) == BoundsOf(m, gs) + [m(g)];
    SumWidthAppend(BoundsOf(m, gs), m(g));
  }

  /** Another fraction digit adds its width. */
  lemma FractionWidthStep(m: Metrics, written: seq<int>, d: int)
    requires AreDigits(written) && 0 <= d <= 9
    ensures DigitRunWidth(m, written + [d])
         == DigitRunWidth(m, written) + m(Digit(d)).Size().x
  {
    assert DigitGlyphs(written + [d]) == DigitGlyphs(written) + [Digit(d)];
    WidthAppend(m, DigitGlyphs(written), Digit(d));
  }

  /** Another digit before the point adds its width to that of the integer digits. */
  lemma TailWidthStep(m: Metrics, written: seq<int>, places: nat, d: int)
    requires AreDigits(written) && places <= |written| && 0 <= d <= 9
    ensures DigitRunWidth(m, (written + [d])[places..])
         == DigitRunWidth(m, written[places..]) + m(Digit(d)).Size().x
  {
    assert (written + [d])[places..] == written[places..] + [d];
    FractionWidthStep(m, written[places..], d);
  }

  /** The unscaled width of a run of digit glyphs laid side by side. */
  function DigitRunWidth(m: Metrics, ds: seq<int>): real
    requires AreDigits(ds)
  {
    SumWidth(BoundsOf(m, DigitGlyphs(ds)))
  }

  /** The width invariant of the integer-digit loop survives one more digit. */
  lemma TailWidthInvariant(m: Metrics, written: seq<int>, places: nat, d: int, width0: real, width: real)
    requires AreDigits(written) && places <= |written| && 0 <= d <= 9
    requires width == width0 + DigitRunWidth(m, written[places..])
    ensures width + m(Digit(d)).Size().x == width0 + DigitRunWidth(m, (written + [d])[places..])
  {
    TailWidthStep(m, written, places, d);
  }

  /** A plan is as wide as its fraction digits, the point, its integer digits and the minus if shown. */
  lemma PlanWidthParts(m: Metrics, ds: seq<int>, places: nat, displayMinus: bool)
    requires AreDigits(ds) && places <= |ds|
    ensures SumWidth(BoundsOf(m, PlanGlyphs(DecimalPlan(ds, places, displayMinus))))
         == DigitRunWidth(m, ds[..places]) + m(Point).Size().x
            + DigitRunWidth(m, ds[places..])
            + (if displayMinus then m(Minus).Size().x else 0.0)
  {
    var a, b := DigitGlyphs(ds[..places]) + [Point], DigitGlyphs(ds[places..]);
    var c: seq<Glyph> := if displayMinus then [Minus] else [];
    assert PlanGlyphs(DecimalPlan(ds, places, displayMinus)) == (a + b) + c;
    assert BoundsOf(m, (a + b) + c) == BoundsOf(m, a + b) + BoundsOf(m, c);
    assert BoundsOf(m, a + b) == BoundsOf(m, a) + BoundsOf(m, b);
    SumWidthConcat(BoundsOf(m, a + b), BoundsOf(m, c));
    SumWidthConcat(BoundsOf(m, a), BoundsOf(m, b));
    WidthAppend(m, DigitGlyphs(ds[..places]), Point);
    if displayMinus {
      WidthAppend(m, [], Minus);
      assert BoundsOf(m, c) == BoundsOf(m, [] + [Minus]);
    } else {
      assert BoundsOf(m, c) == [];
    }
  }

  /**
    The width the sprite-setting loops add up, corrected for the final
    carry and with the minus added when shown, is the width of the plan.
   */
  lemma ShownWidth(m: Metrics, written: seq<int>, ds: seq<int>, places: nat, displayMinus: bool,
                   loopsWidth: real, carriedWidth: real)
    requires AreDigits(ds) && AreDigits(written) && places <= |ds| && places <= |written|
    requires ds[..places] == written[..places]
    requires loopsWidth == DigitRunWidth(m, written[..places]) + m(Point).Size().x
                           + DigitRunWidth(m, written[places..])
    requires carriedWidth == loopsWidth + DigitRunWidth(m, ds[places..])
                             - DigitRunWidth(m, written[places..])
    ensures carriedWidth + (if displayMinus then m(Minus).Size().x else 0.0)
         == SumWidth(BoundsOf(m, PlanGlyphs(DecimalPlan(ds, places, displayMinus))))
  {
    PlanWidthParts(m, ds, places, displayMinus);
  }

  /**
    Slots from .. from + count - 1 have sprites whose bounds are bs[first],
    bs[first + 1], ..., one slot at a time.
   */
  ghost predicate SlotBounds(m: Metrics, ds: seq<Display>, from: nat, count: nat, bs: seq<Bounds>, first: nat)
    decreases count
  {
    && from + count <= |ds| && first + count <= |bs|
    && (count > 0 ==>
          && ds[from].sprite.Some? && m(ds[from].sprite.value) == bs[first]
          && SlotBounds(m, ds, from + 1, count - 1, bs, first + 1))
  }

  /**
    Number slots from .. from + count - 1, all on the same side of the
    point, have the bounds of the positions they are shown at: the same
    position below the point (shift 0), one further up above it (shift 1).
   */
  lemma {:induction false} ShownSlotBounds(m: Metrics, ds: seq<Display>, point: Display, minus: Display, places: nat,
                                           before: nat, displayMinus: bool, from: nat, count: nat, shift: nat)
    requires places + before <= |ds|
    requires AllHaveSprites(Shown(ds, point, minus, places, places + before, displayMinus))
    requires (shift == 0 && from + count <= places) || (shift == 1 && places <= from && from + count <= places + before)
    ensures SlotBounds(m, ds, from, count,
                       BoundsOf(m, SpritesOf(Shown(ds, point, minus, places, places + before, displayMinus))),
                       from + shift)
    decreases count
  {
    if count > 0 {
      var shown := Shown(ds, point, minus, places, places + before, displayMinus);
      assert shown[from + shift] == ds[from];
      BoundAt(m, shown, from + shift);
      ShownSlotBounds(m, ds, point, minus, places, before, displayMinus, from + 1, count - 1, shift);
    }
  }

  /** ds with slots from .. from + count - 1 moved to positions first .. first + count - 1 of run. */
  function PlacedSlots(ds: seq<Display>, from: nat, count: nat, run: seq<Transform>, first: nat): (r: seq<Display>)
    requires from + count <= |ds| && first + count <= |run|
  {
    seq(|ds|, j requires 0 <= j < |ds| =>
      if from <= j < from + count then ds[j].(transform := run[first + (j - from)]) else ds[j])
  }

  /** Moving slots leaves every sprite where it was. */
  lemma {:induction false} PlacedSlotsKeepBounds(m: Metrics, ds: seq<Display>, from: nat, count: nat,
                                                run: seq<Transform>, first: nat,
                                                from': nat, count': nat, bs: seq<Bounds>, first': nat)
    requires from + count <= |ds| && first + count <= |run|
    requires SlotBounds(m, ds, from', count', bs, first')
    ensures SlotBounds(m, PlacedSlots(ds, from, count, run, first), from', count', bs, first')
    decreases count'
  {
    if count' > 0 {
      PlacedSlotsKeepBounds(m, ds, from, count, run, first, from' + 1, count' - 1, bs, first' + 1);
    }
  }

  /**
    The number slots after both placement loops: the places after the
    point take the run's first positions, the digits before it those
    after the point's.
   */
  lemma PlacedTwice(ds: seq<Display>, places: nat, before: nat, run: seq<Transform>)
    requires places + before <= |ds| && places + before + 1 <= |run|
    ensures PlacedSlots(PlacedSlots(ds, 0, places, run, 0), places, before, run, places + 1)
         == Relaid(ds, run[..places] + run[places + 1..places + before + 1])
  {
    var a := PlacedSlots(PlacedSlots(ds, 0, places, run, 0), places, before, run, places + 1);
    var ts := run[..places] + run[places + 1..places + before + 1];
    var b := Relaid(ds, ts);
    forall j | 0 <= j < |ds|
      ensures a[j] == b[j]
    {
      if j < places {
        assert ts[j] == run[j];
      } else if j < places + before {
        assert ts[j] == run[places + 1..places + before + 1][j - places];
        assert ts[j] == run[j + 1];
      }
    }
  }

  /** The bound at position i of a run of slots is that of the sprite of slot i. */
  lemma BoundAt(m: Metrics, shown: seq<Display>, i: nat)
    requires AllHaveSprites(shown) && i < |shown|
    ensures shown[i].sprite.Some? && m(shown[i].sprite.value) == BoundsOf(m, SpritesOf(shown))[i]
  {
  }

  /** The bounds of the shown slots, slot by slot, in placement order. */
  lemma ShownBounds(m: Metrics, ds: seq<Display>, point: Display, minus: Display, places: nat, before: nat,
                    displayMinus: bool)
    requires places + before <= |ds|
    requires AllHaveSprites(Shown(ds, point, minus, places, places + before, displayMinus))
    ensures var bs := BoundsOf(m, SpritesOf(Shown(ds, point, minus, places, places + before, displayMinus)));
      && SlotBounds(m, ds, 0, places, bs, 0)
      && point.sprite.Some? && m(point.sprite.value) == bs[places]
      && SlotBounds(m, ds, places, before, bs, places + 1)
      && (displayMinus ==> minus.sprite.Some? && m(minus.sprite.value) == bs[places + before + 1])
  {
    var shown := Shown(ds, point, minus, places, places + before, displayMinus);
    ShownSlotBounds(m, ds, point, minus, places, before, displayMinus, 0, places, 0);
    BoundAt(m, shown, places);
    ShownSlotBounds(m, ds, point, minus, places, before, displayMinus, places, before, 1);
    if displayMinus {
      BoundAt(m, shown, places + before + 1);
    }
  }

  /**
    A glyph placed at the caret of position k of a run is where the run
    puts it, and the caret SetDisplayPosition returns is that of k + 1.
   */
  lemma PlacedInRun(origin: Vec3, vertical: VerticalPivot, bs: seq<Bounds>, scale: real, spacing: real, k: nat,
                    t: Transform, next: Vec3)
    requires k < |bs|
    requires PlacedAt(t, CaretAt(origin, bs, scale, spacing, k), vertical, bs[k], scale)
    requires next == Vec3(LeftEdge(t, bs[k]) - spacing, origin.y, origin.z)
    ensures t == LaidOut(origin, vertical, bs, scale, spacing)[k]
    ensures next == CaretAt(origin, bs, scale, spacing, k + 1)
  {
    CaretStep(origin, vertical, bs, scale, spacing, k, t);
    LaidOutAt(origin, vertical, bs, scale, spacing, k);
  }

  // ---------------------------------------------------------------------
  // The component

  class SpriteDigitsFloat {
    var value: real
    var displayDecimalPlaces: nat
    var settings: Settings
    var numberDisplays: seq<Display>
    var minusDisplay: Display
    var decimalPointDisplay: Display

    /** What the component displays: the plan of Value and DisplayDecimalPlaces. */
    ghost predicate Shows(m: Metrics)
      reads this
    {
      && ValidMetrics(m) && settings.rect.width >= 0.0
      && ShowsPlan(PlanOf(value, displayDecimalPlaces), m, settings, numberDisplays, decimalPointDisplay,
                   minusDisplay)
    }

    /** Enabling the component: create the minus and point slots and one number slot per place and one more. */
    constructor(value: real, displayDecimalPlaces: nat, settings: Settings)
      ensures this.value == value && this.displayDecimalPlaces == displayDecimalPlaces && this.settings == settings
      ensures minusDisplay == NewDisplay() && decimalPointDisplay == NewDisplay()
      ensures numberDisplays == NewDisplays(displayDecimalPlaces + 1)
    {
      this.value := value;
      this.displayDecimalPlaces := displayDecimalPlaces;
      this.settings := settings;
      minusDisplay := NewDisplay();
      decimalPointDisplay := NewDisplay();
      numberDisplays := NewDisplays(displayDecimalPlaces + 1);
    }

    /** Grow the slot pool to at least requiredNumber slots; existing slots are kept as they are. */
    method PrepareNumberDisplays(requiredNumber: int)
      modifies this
      ensures numberDisplays == GrownTo(old(numberDisplays), requiredNumber)
      ensures value == old(value) && displayDecimalPlaces == old(displayDecimalPlaces) && settings == old(settings)
      ensures minusDisplay == old(minusDisplay) && decimalPointDisplay == old(decimalPointDisplay)
    {
      numberDisplays := GrowPool(numberDisplays, requiredNumber);
    }

    /** The loop of PrepareNumberDisplays: add fresh slots until there are requiredNumber of them. */
    static method GrowPool(pool: seq<Display>, requiredNumber: int) returns (displays: seq<Display>)
      ensures displays == GrownTo(pool, requiredNumber)
    {
      displays := pool;
      if |displays| >= requiredNumber {
        assert NewDisplays(requiredNumber - |pool|) == [];
        assert pool + [] == pool;
        return;
      }
      var i := |displays|;
      while i < requiredNumber
        invariant |pool| <= i <= requiredNumber
        invariant displays == pool + NewDisplays(i - |pool|)
      {
        displays := displays + [NewDisplay()];
        i := i + 1;
      }
    }

    /** The carry from the digit below goes into this one, and a digit past 9 wraps and carries on. */
    static method CarryInto(number: int, carryUp: bool) returns (digit: int, carryOut: bool)
      requires 0 <= number <= 10
      ensures (digit, carryOut) == CarryStep(number, carryUp)
    {
      digit := number;
      if carryUp {
        digit := digit + 1;
      }
      if digit > 9 {
        digit := digit - 10;
        carryOut := true;
      } else {
        carryOut := false;
      }
    }

    /** The digit for slot i below the point: decimal place places - i, rounded for the smallest place only. */
    static method DigitAfterPoint(num: real, places: nat, i: nat) returns (number: int)
      requires i < places
      ensures number == RawDigit(num, places, i) && 0 <= number <= 10
    {
      var place := places - i;
      number := if i == 0 then RoundNumberOfPlaceAfterPoint(num, place) else GetNumberOfPlaceAfterPoint(num, place);
    }

    /** The digit for slot places + i: the 10^i digit, rounded for every digit when there are no places. */
    static method DigitBeforePoint(num: real, places: nat, i: nat) returns (number: int)
      ensures number == RawDigit(num, places, places + i) && 0 <= number <= 10
    {
      number := if places == 0 then RoundNumberOfPlaceBeforePoint(num, i) else GetNumberOfPlaceBeforePoint(num, i);
    }

    /**
      One pass of either digit loop: the carry from below goes into the
      digit, and slot k shows the result.
     */
    static method WriteSlot(ghost raw: seq<int>, ghost k: nat, rendererIndex: nat, ghost pool: seq<Display>,
                            displays0: seq<Display>, number: int, carry0: bool, ghost written0: seq<int>)
      returns (displays: seq<Display>, digit: int, carryUp: bool, ghost written: seq<int>)
      requires AreRoundedDigits(raw) && k < |raw| && k < |pool| && rendererIndex == k && number == raw[k]
      requires written0 == CarryPrefix(raw, k).0 && carry0 == CarryPrefix(raw, k).1
      requires displays0 == Enabled(pool, written0)
      ensures written == CarryPrefix(raw, k + 1).0 && carryUp == CarryPrefix(raw, k + 1).1
      ensures written == written0 + [digit] && 0 <= digit <= 9
      ensures displays == Enabled(pool, written)
    {
      CarryLoopStep(raw, k, pool, written0, carry0);
      digit, carryUp := CarryInto(number, carry0);
      displays := displays0[rendererIndex := displays0[rendererIndex].(enabled := true, sprite := Some(Digit(digit)))];
      written := written0 + [digit];
    }

    /**
      The loop over the places after the point: slot i gets the digit
      places - i of num, the last place rounded half to even, plus the
      carry from the slot before.  Returns the slots, the carry into the
      units place and the unscaled width of the digits written.
     */
    static method WriteFractionDigits(num: real, ghost raw: seq<int>, places: nat, pool: seq<Display>, m: Metrics)
      returns (displays: seq<Display>, carryUp: bool, width: real)
      requires places <= |raw| && places <= |pool| && AreRoundedDigits(raw)
      requires forall j :: 0 <= j < places ==> raw[j] == RawDigit(num, places, j)
      ensures var pre := CarryPrefix(raw, places);
        && displays == Enabled(pool, pre.0) && carryUp == pre.1
        && width == DigitRunWidth(m, pre.0)
    {
      ghost var written: seq<int> := [];
      displays := pool;
      width := 0.0;
      carryUp := false;
      var i := 0;
      while i < places
        invariant 0 <= i <= places
        invariant written == CarryPrefix(raw, i).0 && carryUp == CarryPrefix(raw, i).1
        invariant displays == Enabled(pool, written)
        invariant width == DigitRunWidth(m, written)
      {
        var number := DigitAfterPoint(num, places, i);
        displays, number, carryUp, written := WriteSlot(raw, i, i, pool, displays, number, carryUp, written);
        FractionWidthStep(m, written[..i], number);
        width := width + m(Digit(number)).Size().x;
        i := i + 1;
      }
    }

    /**
      The loop over the places before the point: slot places + i gets the
      digit i of num (every one rounded when there are no places) plus the
      carry from below.  Continues the slots and carry left by the
      fraction loop and adds the width of the digits it writes.
     */
    static method WriteIntegerDigits(num: real, ghost raw: seq<int>, places: nat, before: nat, pool: seq<Display>,
                                     m: Metrics, displays0: seq<Display>, carry0: bool, width0: real)
      returns (displays: seq<Display>, carryUp: bool, width: real)
      requires |raw| == places + before <= |pool| && AreRoundedDigits(raw)
      requires forall j :: places <= j < |raw| ==> raw[j] == RawDigit(num, places, j)
      requires var pre := CarryPrefix(raw, places); displays0 == Enabled(pool, pre.0) && carry0 == pre.1
      ensures var post := CarryPrefix(raw, places + before);
        && displays == Enabled(pool, post.0) && carryUp == post.1
        && width == width0 + DigitRunWidth(m, post.0[places..])
    {
      ghost var written := CarryPrefix(raw, places).0;
      displays, carryUp, width := displays0, carry0, width0;
      assert DigitGlyphs(written[places..]) == [];
      var i := 0;
      ghost var k := places;
      while i < before
        invariant 0 <= i <= before && k == places + i
        invariant written == CarryPrefix(raw, k).0 && carryUp == CarryPrefix(raw, k).1
        invariant displays == Enabled(pool, written)
        invariant width == width0 + DigitRunWidth(m, written[places..])
      {
        var number := DigitBeforePoint(num, places, i);
        var rendererIndex := i + places;
        ghost var before := written;
        displays, number, carryUp, written := WriteSlot(raw, k, rendererIndex, pool, displays, number, carryUp, written);
        TailWidthInvariant(m, before, places, number, width0, width);
        width := width + m(Digit(number)).Size().x;
        i := i + 1;
        k := k + 1;
      }
    }

    /**
      The two digit loops one after the other: the fraction digits, the
      carry handed on to the integer digits, and the width of both runs
      of digits with the point between them.
     */
    static method WriteDigits(num: real, places: nat, before: nat, pool: seq<Display>, m: Metrics)
      returns (displays: seq<Display>, carryUp: bool, width: real)
      requires places + before <= |pool|
      ensures var raw := RawDigits(num, places, before);
              var post := CarryPrefix(raw, |raw|);
        && displays == Enabled(pool, post.0) && carryUp == post.1
        && width == DigitRunWidth(m, post.0[..places]) + m(Point).Size().x
                    + DigitRunWidth(m, post.0[places..])
    {
      ghost var raw := RawDigits(num, places, before);
      displays, carryUp, width := WriteFractionDigits(num, raw, places, pool, m);
      width := width + m(Point).Size().x;
      displays, carryUp, width := WriteIntegerDigits(num, raw, places, before, pool, m, displays, carryUp, width);
      CarryPrefixPrefix(raw, places, places + before);
    }

    /** The loop that switches off every slot from `from` on. */
    static method DisableFrom(displays0: seq<Display>, from: nat, ghost pool: seq<Display>, ghost ds: seq<int>)
      returns (displays: seq<Display>)
      requires from == |ds| <= |pool| && AreDigits(ds) && displays0 == Enabled(pool, ds)
      ensures displays == Written(pool, ds)
    {
      displays := displays0;
      var i := from;
      DisabledSteps(pool, ds, i);
      while i < |displays|
        invariant |ds| <= i <= |displays| == |pool|
        invariant displays == DisabledUpTo(pool, ds, i)
      {
        DisabledSteps(pool, ds, i);
        displays := displays[i := displays[i].(enabled := false)];
        i := i + 1;
      }
      DisabledSteps(pool, ds, i);
    }

    /**
      The end of the digit loops: a carry left over takes one more slot,
      grown if need be, showing a leading 1, and every slot after the
      digits is switched off.  Leaves the pool holding the rippled digits
      of `raw`, and adds the width of the leading 1 when there is one.
     */
    static method WriteCarryAndDisable(ghost raw: seq<int>, places: nat, before: nat, displays0: seq<Display>,
                                       carryUp: bool, width0: real, m: Metrics, ghost pool: seq<Display>)
      returns (displays: seq<Display>, width: real, digitsShown: nat)
      requires AreRoundedDigits(raw) && |raw| == places + before <= |pool| && places <= |raw|
      requires var post := CarryPrefix(raw, |raw|);
        displays0 == Enabled(pool, post.0) && carryUp == post.1
      ensures var ds := Ripple(raw, false);
              var post := CarryPrefix(raw, |raw|);
        && digitsShown == |ds| - places
        && displays == Written(GrownTo(pool, |ds|), ds)
        && ds[..places] == post.0[..places]
        && width == width0 + DigitRunWidth(m, ds[places..])
                    - DigitRunWidth(m, post.0[places..])
    {
      ghost var ds := Ripple(raw, false);
      ghost var written := CarryPrefix(raw, |raw|).0;
      CarryPrefixComplete(raw);
      displays := displays0;
      width := width0;
      digitsShown := before;
      ghost var grown := GrownTo(pool, |ds|);
      if carryUp {
        var finalIndex := places + before;
        displays := GrowPool(displays, finalIndex + 1);
        EnabledGrown(pool, written, finalIndex + 1);
        EnabledStep(grown, written, 1);
        displays := displays[finalIndex := displays[finalIndex].(enabled := true, sprite := Some(Digit(1)))];
        TailWidthStep(m, written, places, 1);
        width := width + m(Digit(1)).Size().x;
        assert written[..places] == (written + [1])[..places];
        digitsShown := digitsShown + 1;
      } else {
        assert written == ds;
        GrownToNoop(pool, |ds|);
      }

      // disabled
      displays := DisableFrom(displays, places + digitsShown, grown, ds);
    }

    /**
      Write the digits of num into the number slots: the fraction digits,
      then digitsBeforePoint integer digits, one carry rippling upward and
      a leading 1 in a further slot when it runs off the top.  Show the
      point, disable every later slot, show or hide the minus, and return
      the unscaled width of everything shown with the number of digits
      now before the point.
     */
    method SetNumberSpriteToDisplays(num: real, digitsBeforePoint: nat, displayMinus: bool, m: Metrics)
      returns (width: real, digitsShown: nat)
      requires displayDecimalPlaces + digitsBeforePoint <= |numberDisplays|
      modifies this
      ensures value == old(value) && displayDecimalPlaces == old(displayDecimalPlaces) && settings == old(settings)
      ensures var ds := DecimalDigits(num, displayDecimalPlaces, digitsBeforePoint);
              var p := DecimalPlan(ds, displayDecimalPlaces, displayMinus);
        && digitsShown == |ds| - displayDecimalPlaces
        && numberDisplays == Written(GrownTo(old(numberDisplays), |ds|), ds)
        && decimalPointDisplay == old(decimalPointDisplay).(enabled := true, sprite := Some(Point))
        && minusDisplay == (if displayMinus then old(minusDisplay).(enabled := true, sprite := Some(Minus))
                            else old(minusDisplay).(enabled := false))
        && width == SumWidth(BoundsOf(m, PlanGlyphs(p)))
    {
      numberDisplays, decimalPointDisplay, minusDisplay, width, digitsShown :=
        WriteSprites(num, displayDecimalPlaces, digitsBeforePoint, displayMinus, numberDisplays, decimalPointDisplay,
                     minusDisplay, m);
    }

    /**
      The body of SetNumberSpriteToDisplays on the slots themselves: the
      fraction digits, the point, the integer digits, the final carry,
      the slots switched off and the minus, with the unscaled width of
      everything shown and the number of digits now before the point.
     */
    static method WriteSprites(num: real, places: nat, before: nat, displayMinus: bool, pool: seq<Display>,
                               point0: Display, minus0: Display, m: Metrics)
      returns (displays: seq<Display>, point: Display, minus: Display, width: real, digitsShown: nat)
      requires places + before <= |pool|
      ensures var ds := DecimalDigits(num, places, before);
        && digitsShown == |ds| - places
        && displays == Written(GrownTo(pool, |ds|), ds)
        && point == point0.(enabled := true, sprite := Some(Point))
        && minus == (if displayMinus then minus0.(enabled := true, sprite := Some(Minus)) else minus0.(enabled := false))
        && width == SumWidth(BoundsOf(m, PlanGlyphs(DecimalPlan(ds, places, displayMinus))))
    {
      ghost var raw := RawDigits(num, places, before);
      ghost var ds := DecimalDigits(num, places, before);
      assert ds == Ripple(raw, false);

      var carryUp;
      displays, carryUp, width := WriteDigits(num, places, before, pool, m);
      ghost var written := CarryPrefix(raw, |raw|).0;
      ghost var loopsWidth := width;

      // the point, then the final carry and the slots switched off
      point := point0.(enabled := true, sprite := Some(Point));
      displays, width, digitsShown := WriteCarryAndDisable(raw, places, before, displays, carryUp, width, m, pool);
      ShownWidth(m, written, ds, places, displayMinus, loopsWidth, width);

      // minus
      minus := minus0.(enabled := displayMinus);
      if displayMinus {
        minus := minus.(sprite := Some(Minus));
        width := width + m(Minus).Size().x;
      }
    }

    /**
      SetDisplayPosition on a slot at position k of the run: the slot takes
      the run's transform k and the caret moves to position k + 1.
     */
    static method PlaceSlot(d: Display, caret: Vec3, s: Settings, letterScale: real, spacing: real, m: Metrics,
                            ghost origin: Vec3, ghost bs: seq<Bounds>, ghost run: seq<Transform>, ghost k: nat)
      returns (d': Display, next: Vec3)
      requires k < |bs| && d.sprite.Some? && m(d.sprite.value) == bs[k]
      requires run == LaidOut(origin, s.vertical, bs, letterScale, spacing)
      requires caret == CaretAt(origin, bs, letterScale, spacing, k)
      ensures d' == d.(transform := run[k])
      ensures next == CaretAt(origin, bs, letterScale, spacing, k + 1)
    {
      var t;
      next, t := SetDisplayPosition(caret, s.horizontal, s.vertical, m(d.sprite.value), letterScale, spacing);
      PlacedInRun(origin, s.vertical, bs, letterScale, spacing, k, t, next);
      d' := d.(transform := t);
    }

    /**
      One of the two placement loops of SetupSpritePositions: the slots
      from .. from + count - 1 go to positions first .. first + count - 1
      of the run, and the caret moves on past them.
     */
    static method PlaceSlots(displays0: seq<Display>, from: nat, count: nat, caret0: Vec3, s: Settings,
                             letterScale: real, spacing: real, m: Metrics,
                             ghost origin: Vec3, ghost bs: seq<Bounds>, ghost run: seq<Transform>, ghost first: nat,
                             ghost last: nat)
      returns (displays: seq<Display>, caret: Vec3)
      requires SlotBounds(m, displays0, from, count, bs, first) && last == first + count
      requires run == LaidOut(origin, s.vertical, bs, letterScale, spacing)
      requires caret0 == CaretAt(origin, bs, letterScale, spacing, first)
      ensures first + count <= |run| && displays == PlacedSlots(displays0, from, count, run, first)
      ensures caret == CaretAt(origin, bs, letterScale, spacing, last)
    {
      displays, caret := displays0, caret0;
      for i := 0 to count
        invariant SlotBounds(m, displays0, from + i, count - i, bs, first + i)
        invariant |displays| == |displays0|
        invariant forall j :: 0 <= j < |displays| ==>
          displays[j] == if from <= j < from + i then displays0[j].(transform := run[first + (j - from)])
                         else displays0[j]
        invariant caret == CaretAt(origin, bs, letterScale, spacing, first + i)
      {
        var index := i + from;
        var placed;
        placed, caret := PlaceSlot(displays[index], caret, s, letterScale, spacing, m, origin, bs, run, first + i);
        displays := displays[index := placed];
      }
    }

    /**
      The body of SetupSpritePositions on the slots themselves: the
      places after the point, the point, the digits before it and the
      minus when it is shown go, in that order, to consecutive positions
      of the run laid out from origin.
     */
    static method PlaceShown(numberDisplays: seq<Display>, point0: Display, minus0: Display, places: nat,
                             before: nat, displayMinus: bool, origin: Vec3, s: Settings, letterScale: real,
                             spacing: real, m: Metrics, ghost spacingScale: real, ghost scaledWidth: real,
                             ghost run: seq<Transform>)
      returns (displays: seq<Display>, point: Display, minus: Display)
      requires places + before <= |numberDisplays|
      requires AllHaveSprites(Shown(numberDisplays, point0, minus0, places, places + before, displayMinus))
      requires origin == GetPivotOrigin(s.horizontal, s.vertical, s.rect, s.pivot, scaledWidth)
      requires spacing == ScaledSpacing(s.spacing, spacingScale)
      requires run == ShownLayout(s, m, Shown(numberDisplays, point0, minus0, places, places + before, displayMinus),
                                  letterScale, spacingScale, scaledWidth)
      ensures |run| == places + before + 1 + (if displayMinus then 1 else 0)
      ensures displays == Relaid(numberDisplays, run[..places] + run[places + 1..places + before + 1])
      ensures point == point0.(transform := run[places])
      ensures minus == if displayMinus then minus0.(transform := run[places + before + 1]) else minus0
    {
      ghost var bs := BoundsOf(m, SpritesOf(Shown(numberDisplays, point0, minus0, places, places + before,
                                                  displayMinus)));
      ShownBounds(m, numberDisplays, point0, minus0, places, before, displayMinus);
      // after point
      var caret;
      displays, caret := PlaceSlots(numberDisplays, 0, places, origin, s, letterScale, spacing, m,
                                    origin, bs, run, 0, places);
      // point
      point, caret := PlaceSlot(point0, caret, s, letterScale, spacing, m, origin, bs, run, places);
      // before point
      PlacedSlotsKeepBounds(m, numberDisplays, 0, places, run, 0, places, before, bs, places + 1);
      displays, caret := PlaceSlots(displays, places, before, caret, s, letterScale, spacing, m,
                                    origin, bs, run, places + 1, places + before + 1);
      // minus
      minus := minus0;
      if displayMinus {
        minus, caret := PlaceSlot(minus, caret, s, letterScale, spacing, m, origin, bs, run, places + before + 1);
      }
      PlacedTwice(numberDisplays, places, before, run);
    }

    /**
      Lay out the shown slots right to left from the pivot origin: the
      places after the point, the point, the digitsBeforePoint digits
      before it, then the minus when it is shown.  Each gets the
      transform of its position in the run; nothing else changes.
     */
    method SetupSpritePositions(letterScale: real, spacingScale: real, scaledWidth: real, digitsBeforePoint: nat,
                                displayMinus: bool, m: Metrics)
      requires displayDecimalPlaces + digitsBeforePoint <= |numberDisplays|
      requires AllHaveSprites(Shown(numberDisplays, decimalPointDisplay, minusDisplay, displayDecimalPlaces,
                                    displayDecimalPlaces + digitsBeforePoint, displayMinus))
      modifies this
      ensures value == old(value) && displayDecimalPlaces == old(displayDecimalPlaces) && settings == old(settings)
      ensures var places := old(displayDecimalPlaces);
              var count := places + digitsBeforePoint;
              var run := old(ShownLayout(settings, m, Shown(numberDisplays, decimalPointDisplay, minusDisplay, places,
                                                            count, displayMinus),
                                         letterScale, spacingScale, scaledWidth));
        && numberDisplays == Relaid(old(numberDisplays), run[..places] + run[places + 1..count + 1])
        && decimalPointDisplay == old(decimalPointDisplay).(transform := run[places])
        && minusDisplay == if displayMinus then old(minusDisplay).(transform := run[count + 1])
                           else old(minusDisplay)
    {
      var origin := GetPivotOrigin(settings.horizontal, settings.vertical, settings.rect, settings.pivot, scaledWidth);
      var spacing := ScaledSpacing(settings.spacing, spacingScale);
      ghost var run := ShownLayout(settings, m, Shown(numberDisplays, decimalPointDisplay, minusDisplay,
                                                      displayDecimalPlaces, displayDecimalPlaces + digitsBeforePoint,
                                                      displayMinus),
                                   letterScale, spacingScale, scaledWidth);
      numberDisplays, decimalPointDisplay, minusDisplay :=
        PlaceShown(numberDisplays, decimalPointDisplay, minusDisplay, displayDecimalPlaces, digitsBeforePoint,
                   displayMinus, origin, settings, letterScale, spacing, m, spacingScale, scaledWidth, run);
    }

    /**
      Recompute everything shown from Value and DisplayDecimalPlaces: the
      sign and magnitude, the digits before the point, enough number
      slots, the letter scale from Size and the rect height, the sprites,
      the shrink-to-fit step and the positions.
     */
    method ApplyNumbers(m: Metrics)
      requires ValidMetrics(m) && settings.rect.width >= 0.0
      modifies this
      ensures Shows(m)
      ensures value == old(value) && displayDecimalPlaces == old(displayDecimalPlaces) && settings == old(settings)
      ensures var p := PlanOf(value, displayDecimalPlaces);
              var pool := GrownTo(old(numberDisplays), |p.digits|);
        && |numberDisplays| == |pool|
        && forall i :: |p.digits| <= i < |pool| ==> numberDisplays[i] == pool[i].(enabled := false)
    {
      var num := value;
      var displayMinus := false;
      if num < 0.0 {
        num := -num;
        displayMinus := true;
      }
      var digitsBeforePoint := CalcDigitsBeforeDecimalPoint(num);
      PrepareNumberDisplays(displayDecimalPlaces + digitsBeforePoint);
      ghost var p := PlanOf(value, displayDecimalPlaces);
      assert num == Magnitude(value) && displayMinus == (value < 0.0);
      GrownTwice(old(numberDisplays), displayDecimalPlaces + digitsBeforePoint, |p.digits|);
      DrawDigits(num, digitsBeforePoint, displayMinus, m, p);
    }

    /**
      The rest of ApplyNumbers once the slots are there: the letter scale,
      the sprites and their width, the shrink-to-fit step and the
      positions.
     */
    method DrawDigits(num: real, digitsBeforePoint: nat, displayMinus: bool, m: Metrics, ghost p: DecimalPlan)
      requires ValidMetrics(m) && settings.rect.width >= 0.0
      requires displayDecimalPlaces + digitsBeforePoint <= |numberDisplays|
      requires p == DecimalPlan(DecimalDigits(num, displayDecimalPlaces, digitsBeforePoint), displayDecimalPlaces,
                                displayMinus)
      modifies this
      ensures value == old(value) && displayDecimalPlaces == old(displayDecimalPlaces) && settings == old(settings)
      ensures WellFormed(p) && ShowsPlan(p, m, settings, numberDisplays, decimalPointDisplay, minusDisplay)
      ensures var pool := GrownTo(old(numberDisplays), |p.digits|);
        && |numberDisplays| == |pool|
        && forall i :: |p.digits| <= i < |pool| ==> numberDisplays[i] == pool[i].(enabled := false)
    {
      var places := displayDecimalPlaces;
      var spriteHeight := m(Digit(0)).Size().y;
      var size := Min(settings.size, settings.rect.height);
      var letterScale := size / spriteHeight;
      assert letterScale == LetterScale(settings, m);

      ghost var pool0 := numberDisplays;
      ghost var pool := GrownTo(numberDisplays, |p.digits|);
      var originalWidth, shown := SetNumberSpriteToDisplays(num, digitsBeforePoint, displayMinus, m);
      var widthWithSpace := Measured(originalWidth, letterScale, shown + places + 1, displayMinus, settings.spacing);
      var fit := FitToRect(settings.rect.width, letterScale, widthWithSpace);
      SpritesSetForPlan(p, m, settings, DecimalDigits(num, places, digitsBeforePoint), places, digitsBeforePoint, displayMinus, pool0, pool, numberDisplays,
                        originalWidth, shown, letterScale, fit);

      LayOutPlan(fit, shown, displayMinus, m, p, pool);
    }

    /**
      The last step of ApplyNumbers: with the sprites set as plan p has
      them and the fit of its width, lay the shown slots out.
     */
    method LayOutPlan(fit: Fit, shown: nat, displayMinus: bool, m: Metrics, ghost p: DecimalPlan,
                      ghost pool: seq<Display>)
      requires ValidMetrics(m) && settings.rect.width >= 0.0
      requires WellFormed(p) && p.places == displayDecimalPlaces && p.displayMinus == displayMinus
      requires |p.digits| == displayDecimalPlaces + shown <= |pool|
      requires fit == PlanFit(p, m, settings)
      requires numberDisplays == Written(pool, p.digits)
      requires decimalPointDisplay.enabled && decimalPointDisplay.sprite == Some(Point)
      requires minusDisplay.enabled == displayMinus && (displayMinus ==> minusDisplay.sprite == Some(Minus))
      modifies this
      ensures value == old(value) && displayDecimalPlaces == old(displayDecimalPlaces) && settings == old(settings)
      ensures ShowsPlan(p, m, settings, numberDisplays, decimalPointDisplay, minusDisplay)
      ensures |numberDisplays| == |pool|
      ensures forall i :: |p.digits| <= i < |pool| ==> numberDisplays[i] == pool[i].(enabled := false)
    {
      ghost var nd0, point, minus := numberDisplays, decimalPointDisplay, minusDisplay;
      WrittenShownSprites(pool, p, nd0, point, minus, displayDecimalPlaces, shown, displayMinus);
      ghost var run := ShownLayout(settings, m, Shown(numberDisplays, decimalPointDisplay, minusDisplay,
                                                      displayDecimalPlaces, displayDecimalPlaces + shown, displayMinus),
                                   fit.letterScale, fit.spacingScale, fit.scaledWidth);
      SetupSpritePositions(fit.letterScale, fit.spacingScale, fit.scaledWidth, shown, displayMinus, m);
      SetThenLaidShowsPlan(p, m, settings, pool, nd0, point, minus, fit, run, displayDecimalPlaces, shown,
                           displayMinus, numberDisplays, decimalPointDisplay, minusDisplay);
    }

    /** A new Value: the number is redrawn. */
    method SetValue(value: real, m: Metrics)
      requires ValidMetrics(m) && settings.rect.width >= 0.0
      modifies this
      ensures Shows(m)
      ensures this.value == value && displayDecimalPlaces == old(displayDecimalPlaces) && settings == old(settings)
      ensures var p := PlanOf(value, displayDecimalPlaces);
              var pool := GrownTo(old(numberDisplays), |p.digits|);
        && |numberDisplays| == |pool|
        && forall i :: |p.digits| <= i < |pool| ==> numberDisplays[i] == pool[i].(enabled := false)
    {
      this.value := value;
      ApplyNumbers(m);
    }

    /** A new DisplayDecimalPlaces: the number is redrawn. */
    method SetDisplayDecimalPlaces(displayDecimalPlaces: nat, m: Metrics)
      requires ValidMetrics(m) && settings.rect.width >= 0.0
      modifies this
      ensures Shows(m)
      ensures this.displayDecimalPlaces == displayDecimalPlaces && value == old(value) && settings == old(settings)
      ensures var p := PlanOf(value, displayDecimalPlaces);
              var pool := GrownTo(old(numberDisplays), |p.digits|);
        && |numberDisplays| == |pool|
        && forall i :: |p.digits| <= i < |pool| ==> numberDisplays[i] == pool[i].(enabled := false)
    {
      this.displayDecimalPlaces := displayDecimalPlaces;
      ApplyNumbers(m);
    }

    /** Ten to the power p by repeated multiplication; 1 for a negative power. */
    static method Power10(p: int) returns (r: real)
      ensures p < 0 ==> r == 1.0
      ensures p >= 0 ==> r == Pow10(p) as real
    {
      if p < 0 {
        return 1.0;
      }
      r := 1.0;
      var i := 0;
      while i < p
        invariant 0 <= i <= p
        invariant r == Pow10(i) as real
      {
        r := r * 10.0;
        i := i + 1;
      }
    }

    /** The digits before the point, counted by dividing by ten while the number is ten or more. */
    static method CalcDigitsBeforeDecimalPoint(num: real) returns (r: nat)
      ensures num < 10.0 ==> r == 1
      ensures num >= 0.0 ==> r == DigitsBeforePoint(num)
    {
      r := 1;
      var n := num;
      while n >= 10.0
        invariant r >= 1
        invariant num < 10.0 ==> r == 1 && n == num
        invariant num >= 0.0 ==> n >= 0.0 && DigitsBeforePoint(num) == r - 1 + DigitsBeforePoint(n)
        decreases n.Floor
      {
        FloorDiv(n, 10);
        r := r + 1;
        n := n / 10.0;
      }
    }
  }
}
