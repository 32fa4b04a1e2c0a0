/**
  The integer component (SpriteDigits): a signed 64-bit value shown as
  one digit sprite per decimal place, ones digit rightmost, an optional
  minus sprite to the left, an optional counter-stop at MaxDigitNum
  digits, and zero fill up to MaxDigitNum digits.
 */
module IntegerDisplay {
  import opened Common
  import opened Numerals
  import opened Layout

  /** The range of a C# long. */
  const LongMin: int := -0x8000_0000_0000_0000
  const LongMax: int := 0x7FFF_FFFF_FFFF_FFFF

  /** The glyph asset as the component sees it: sprite bounds, and whether a minus sprite exists. */
  datatype Asset = Asset(metrics: Metrics, hasMinusSprite: bool)

  /** MaxDigitNum is -1 (unlimited) or a positive number of digits. */
  predicate ValidMaxDigitNum(maxDigitNum: int)
  {
    maxDigitNum == -1 || maxDigitNum >= 1
  }

  // ---------------------------------------------------------------------
  // Specification of the number plan

  /** The magnitude shown: -value for a negative value with a minus sprite, 0 without one. */
  function Magnitude(value: int, hasMinusSprite: bool): (num: nat)
    ensures value >= 0 ==> num == value
    ensures value < 0 ==> num == (if hasMinusSprite then -value else 0)
  {
    if value >= 0 then value else if hasMinusSprite then -value else 0
  }

  /** What ApplyNumbers decides before touching any slot. */
  datatype Plan = Plan(num: nat, digitNum: nat, displayDigitNum: nat, displayMinus: bool)

  /**
    Sign, digit count, counter-stop and padding.  A value with more
    digits than a bounded MaxDigitNum is replaced by the largest number
    that fits (all nines); ZeroFill shows MaxDigitNum digits whatever the
    value.
   */
  function NumberPlan(value: int, hasMinusSprite: bool, maxDigitNum: int, padding: PaddingMode): (p: Plan)
    requires ValidMaxDigitNum(maxDigitNum)
    ensures p.displayMinus <==> value < 0 && hasMinusSprite
    ensures 1 <= p.digitNum <= p.displayDigitNum
    ensures p.num < Pow10(p.digitNum)
    ensures maxDigitNum != -1 ==> p.displayDigitNum <= maxDigitNum
    ensures p.displayDigitNum == (if maxDigitNum != -1 && padding == ZeroFill then maxDigitNum else p.digitNum)
  {
    var mag := Magnitude(value, hasMinusSprite);
    var count := DigitCount(mag);
    var stop := maxDigitNum != -1 && maxDigitNum < count;
    var num := if stop then Pow(10, maxDigitNum) - 1 else mag;
    var digitNum := if stop then maxDigitNum else count;
    PowTenIsPow10(if maxDigitNum < 0 then 0 else maxDigitNum);
    Plan(num, digitNum, if maxDigitNum != -1 && padding == ZeroFill then maxDigitNum else digitNum,
         value < 0 && hasMinusSprite)
  }

  /** The glyphs shown, in placement order: ones digit first, minus sign last. */
  function PlanGlyphs(p: Plan): (gs: seq<Glyph>)
    ensures |gs| == p.displayDigitNum + (if p.displayMinus then 1 else 0)
    ensures forall i :: 0 <= i < p.displayDigitNum ==> gs[i] == Digit(DigitAt(p.num, i))
    ensures p.displayMinus ==> gs[|gs| - 1] == Minus
  {
    DigitGlyphs(DigitsOf(p.num, p.displayDigitNum)) + (if p.displayMinus then [Minus] else [])
  }

  /** A value that fits is shown exactly: its digits read back to its magnitude. */
  lemma PlanShowsValue(value: int, hasMinusSprite: bool, maxDigitNum: int, padding: PaddingMode)
    requires ValidMaxDigitNum(maxDigitNum)
    requires maxDigitNum == -1 || Magnitude(value, hasMinusSprite) < Pow10(maxDigitNum)
    ensures var p := NumberPlan(value, hasMinusSprite, maxDigitNum, padding);
      && p.num == Magnitude(value, hasMinusSprite)
      && p.digitNum == DigitCount(p.num)
      && ValueOf(DigitsOf(p.num, p.displayDigitNum)) == p.num
      && (value >= 0 || hasMinusSprite ==> (if p.displayMinus then -(p.num as int) else p.num as int) == value)
  {
    var p := NumberPlan(value, hasMinusSprite, maxDigitNum, padding);
    var mag := Magnitude(value, hasMinusSprite);
    if maxDigitNum != -1 {
      DigitCountLeast(mag, maxDigitNum);
    }
    Pow10Monotone(p.digitNum, p.displayDigitNum);
    ValueOfDigits(p.num, p.displayDigitNum);
  }

  /** A value too long for a bounded MaxDigitNum is shown as MaxDigitNum nines. */
  lemma PlanCounterStop(value: int, hasMinusSprite: bool, maxDigitNum: int, padding: PaddingMode)
    requires maxDigitNum >= 1
    requires Magnitude(value, hasMinusSprite) >= Pow10(maxDigitNum)
    ensures var p := NumberPlan(value, hasMinusSprite, maxDigitNum, padding);
      && p.num == Pow10(maxDigitNum) - 1
      && p.digitNum == p.displayDigitNum == maxDigitNum
      && forall i :: 0 <= i < maxDigitNum ==> DigitAt(p.num, i) == 9
  {
    var p := NumberPlan(value, hasMinusSprite, maxDigitNum, padding);
    var mag := Magnitude(value, hasMinusSprite);
    PowTenIsPow10(maxDigitNum);
    assert maxDigitNum < DigitCount(mag) by {
      if DigitCount(mag) <= maxDigitNum {
        Pow10Monotone(DigitCount(mag), maxDigitNum);
      }
    }
    forall i | 0 <= i < maxDigitNum
      ensures DigitAt(p.num, i) == 9
    {
      AllNines(maxDigitNum, i);
    }
  }

  /** Every digit of 10^k - 1 below position k is 9. */
  lemma {:induction false} AllNines(k: nat, i: nat)
    requires i < k
    ensures DigitAt(Pow10(k) - 1, i) == 9
    decreases i
  {
    DivModUnique(Pow10(k) - 1, 10, Pow10(k - 1) - 1, 9);
    if i > 0 {
      DigitAtNext(Pow10(k) - 1, i - 1);
      AllNines(k - 1, i - 1);
    }
  }

  /** With ZeroFill, the slots above the number's own digits show 0. */
  lemma PlanZeroFill(value: int, hasMinusSprite: bool, maxDigitNum: int, i: nat)
    requires maxDigitNum >= 1
    ensures var p := NumberPlan(value, hasMinusSprite, maxDigitNum, ZeroFill);
      p.digitNum <= i < p.displayDigitNum ==> DigitAt(p.num, i) == 0
  {
    var p := NumberPlan(value, hasMinusSprite, maxDigitNum, ZeroFill);
    if p.digitNum <= i {
      Pow10Monotone(p.digitNum, i);
      DigitAtBeyond(p.num, i);
    }
  }

  /** Negating a long above long.MinValue, and the counter-stop's power of ten, both stay within a long. */
  lemma PlanFitsInLong(value: int, hasMinusSprite: bool, maxDigitNum: int, padding: PaddingMode)
    requires LongMin < value <= LongMax
    requires ValidMaxDigitNum(maxDigitNum)
    ensures Magnitude(value, hasMinusSprite) <= LongMax
    ensures maxDigitNum != -1 && maxDigitNum < DigitCount(Magnitude(value, hasMinusSprite)) ==>
      Pow10(maxDigitNum) <= LongMax
  {
    var mag := Magnitude(value, hasMinusSprite);
    if maxDigitNum != -1 && maxDigitNum < DigitCount(mag) {
      assert Pow10(9) == 1_000_000_000;
      Pow10Add(9, 9);
      Pow10Add(18, 1);
      DigitCountLeast(mag, 19);
      Pow10Monotone(maxDigitNum, 18);
    }
  }

  // ---------------------------------------------------------------------
  // Widths

  /** Unscaled width of the first k digits of num, ones digit first. */
  function DigitsWidth(m: Metrics, num: nat, k: nat): real
  {
    if k == 0 then 0.0 else DigitsWidth(m, num, k - 1) + m(Digit(DigitAt(num, k - 1))).Size().x
  }

  /** The width the sprite-setting loop accumulates is the width of the glyph run. */
  lemma {:induction false} DigitsWidthIsSum(m: Metrics, num: nat, k: nat)
    ensures DigitsWidth(m, num, k) == SumWidth(BoundsOf(m, DigitGlyphs(DigitsOf(num, k))))
    decreases k
  {
    if k > 0 {
      DigitsWidthIsSum(m, num, k - 1);
      var bs := BoundsOf(m, DigitGlyphs(DigitsOf(num, k)));
      assert bs[..k - 1] == BoundsOf(m, DigitGlyphs(DigitsOf(num, k - 1)));
    }
  }

  /** The unscaled width of a plan's glyphs, as the sprite-setting loop adds it up. */
  lemma PlanWidth(m: Metrics, p: Plan)
    ensures SumWidth(BoundsOf(m, PlanGlyphs(p)))
         == DigitsWidth(m, p.num, p.displayDigitNum) + (if p.displayMinus then m(Minus).Size().x else 0.0)
  {
    var digits := DigitGlyphs(DigitsOf(p.num, p.displayDigitNum));
    var tail := if p.displayMinus then [Minus] else [];
    assert BoundsOf(m, PlanGlyphs(p)) == BoundsOf(m, digits) + BoundsOf(m, tail);
    SumWidthConcat(BoundsOf(m, digits), BoundsOf(m, tail));
    DigitsWidthIsSum(m, p.num, p.displayDigitNum);
    if p.displayMinus {
      assert BoundsOf(m, tail) == [] + [m(Minus)];
      SumWidthAppend([], m(Minus));
    } else {
      assert BoundsOf(m, tail) == [];
    }
  }

  /** The width ApplyNumbers measures for a plan, before any shrinking. */
  function WidthWithSpace(p: Plan, m: Metrics, spacing: real, letterScale: real): real
  {
    var minusWidth := if p.displayMinus then m(Minus).Size().x else 0.0;
    Measured(DigitsWidth(m, p.num, p.displayDigitNum) + minusWidth, letterScale, p.displayDigitNum, p.displayMinus,
             spacing)
  }

  /** The run of a plan's glyphs is exactly as long as ApplyNumbers measures it. */
  lemma PlanRunLength(m: Metrics, p: Plan, letterScale: real, spacing: real)
    requires p.displayDigitNum >= 1
    ensures RunLength(BoundsOf(m, PlanGlyphs(p)), letterScale, spacing) == WidthWithSpace(p, m, spacing, letterScale)
  {
    var bs := BoundsOf(m, PlanGlyphs(p));
    PlanWidth(m, p);
    MeasuredRunLength(bs, letterScale, spacing, p.displayDigitNum, p.displayMinus);
  }

  // ---------------------------------------------------------------------
  // Scale, fit and layout of a plan

  /** Letter scale, spacing factor and width after the shrink-to-fit step. */
  function PlanFit(p: Plan, m: Metrics, s: Settings): Fit
    requires ValidMetrics(m) && s.rect.width >= 0.0
  {
    FitToRect(s.rect.width, LetterScale(s, m), WidthWithSpace(p, m, s.spacing, LetterScale(s, m)))
  }

  /** The transforms of the shown slots: the plan's glyphs laid out from the pivot origin. */
  function PlanLayout(p: Plan, m: Metrics, s: Settings): (ts: seq<Transform>)
    requires ValidMetrics(m) && s.rect.width >= 0.0
    ensures |ts| == |PlanGlyphs(p)|
  {
    var fit := PlanFit(p, m, s);
    LaidOut(GetPivotOrigin(s.horizontal, s.vertical, s.rect, s.pivot, fit.scaledWidth), s.vertical,
            BoundsOf(m, PlanGlyphs(p)), fit.letterScale, ScaledSpacing(s.spacing, fit.spacingScale))
  }

  /** Every shown glyph is placed at its caret along the run that starts at the pivot origin for the fitted width. */
  lemma PlanLayoutIsRun(p: Plan, m: Metrics, s: Settings)
    requires ValidMetrics(m) && s.rect.width >= 0.0
    ensures var fit := PlanFit(p, m, s);
      RunPlaced(GetPivotOrigin(s.horizontal, s.vertical, s.rect, s.pivot, fit.scaledWidth), s.vertical,
                BoundsOf(m, PlanGlyphs(p)), fit.letterScale, ScaledSpacing(s.spacing, fit.spacingScale),
                PlanLayout(p, m, s))
  {
    var fit := PlanFit(p, m, s);
    LaidOutIsRun(GetPivotOrigin(s.horizontal, s.vertical, s.rect, s.pivot, fit.scaledWidth), s.vertical,
                 BoundsOf(m, PlanGlyphs(p)), fit.letterScale, ScaledSpacing(s.spacing, fit.spacingScale));
  }



  /**
    After shrink-to-fit the run is exactly as wide as the width handed to
    the pivot, and never wider than the rect.
   */
  lemma PlanFitsRect(p: Plan, m: Metrics, s: Settings)
    requires ValidMetrics(m) && s.rect.width >= 0.0
    requires p.displayDigitNum >= 1
    ensures var fit := PlanFit(p, m, s);
      && RunLength(BoundsOf(m, PlanGlyphs(p)), fit.letterScale, ScaledSpacing(s.spacing, fit.spacingScale))
         == fit.scaledWidth
      && fit.scaledWidth <= s.rect.width
  {
    var fit := PlanFit(p, m, s);
    var ls := LetterScale(s, m);
    var bs := BoundsOf(m, PlanGlyphs(p));
    PlanRunLength(m, p, ls, s.spacing);
    assert fit == FitToRect(s.rect.width, ls, RunLength(bs, ls, s.spacing));
    FitRunLength(bs, s.rect.width, ls, s.spacing);
  }

  /**
    With a non-negative size and spacing, every shown glyph lies inside
    the rect horizontally, and the run sits where the horizontal pivot
    says.
   */
  lemma PlanInsideRect(p: Plan, m: Metrics, s: Settings, k: nat)
    requires ValidMetrics(m) && s.rect.width >= 0.0 && s.rect.height >= 0.0
    requires s.size >= 0.0 && s.spacing >= 0.0 && PivotRect(s.rect, s.pivot)
    requires p.displayDigitNum >= 1
    requires k < |PlanGlyphs(p)|
    ensures var bs := BoundsOf(m, PlanGlyphs(p));
            var ts := PlanLayout(p, m, s);
      && s.rect.XMin() <= LeftEdge(ts[k], bs[k]) <= RightEdge(ts[k], bs[k]) <= s.rect.XMax()
      && (s.horizontal == Left ==> LeftEdge(ts[|bs| - 1], bs[|bs| - 1]) == s.rect.XMin())
      && (s.horizontal == Right ==> RightEdge(ts[0], bs[0]) == s.rect.XMax())
      && (s.horizontal == Center ==>
            (LeftEdge(ts[|bs| - 1], bs[|bs| - 1]) + RightEdge(ts[0], bs[0])) / 2.0 == s.rect.XMin() + s.rect.width / 2.0)
  {
    var fit := PlanFit(p, m, s);
    var bs := BoundsOf(m, PlanGlyphs(p));
    PlanFitsRect(p, m, s);
    LetterScaleNonNegative(s, m);
    NonNegativeProduct(LetterScale(s, m), fit.spacingScale);
    NonNegativeProduct(s.spacing, fit.spacingScale);
    LaidOutInsideRect(s.horizontal, s.vertical, s.rect, s.pivot, bs, fit.letterScale,
                      ScaledSpacing(s.spacing, fit.spacingScale), fit.scaledWidth, k);
  }

  // ---------------------------------------------------------------------
  // The slots after the sprite-setting loop

  /** Slot i below `shown` is enabled and shows digit i of num; every other slot is disabled. */
  ghost predicate DigitsSet(before: seq<Display>, after: seq<Display>, num: nat, shown: nat)
  {
    && |after| == |before|
    && forall i :: 0 <= i < |after| ==>
         after[i] == (if i < shown then before[i].(enabled := true, sprite := Some(Digit(DigitAt(num, i))))
                      else before[i].(enabled := false))
  }

  /** 10^(i+1) digits step: the quotient by 10^i, divided by 10, is the quotient by 10^(i+1). */
  lemma ShiftDown(num: nat, i: nat)
    ensures num / Pow10(i) / 10 == num / Pow10(i + 1)
  {
    DivDiv(num, Pow10(i), 10);
  }

  /** The slots that take part in the layout: the digit slots shown, then the minus slot when shown. */
  function Shown(numberDisplays: seq<Display>, minusDisplay: Display, shown: nat, displayMinus: bool): seq<Display>
    requires shown <= |numberDisplays|
  {
    numberDisplays[..shown] + (if displayMinus then [minusDisplay] else [])
  }

  /** The slot pool after ApplyNumbers: grown to digitNum slots when MaxDigitNum is unlimited. */
  function Grown(pool: seq<Display>, maxDigitNum: int, digitNum: nat): (r: seq<Display>)
    ensures |r| >= |pool| && r[..|pool|] == pool
    ensures maxDigitNum == -1 ==> |r| >= digitNum
    ensures forall i :: |pool| <= i < |r| ==> r[i] == NewDisplay()
  {
    if maxDigitNum == -1 then pool + NewDisplays(digitNum - |pool|) else pool
  }

  /** Rewriting transforms with Relaid leaves the shown slots as they were except for their transforms. */
  lemma RelaidShown(ds: seq<Display>, minus: Display, shown: nat, displayMinus: bool, run: seq<Transform>)
    requires shown <= |ds| && |run| == shown + (if displayMinus then 1 else 0)
    ensures var minus' := if displayMinus then minus.(transform := run[shown]) else minus;
            var before := Shown(ds, minus, shown, displayMinus);
            var after := Shown(Relaid(ds, run[..shown]), minus', shown, displayMinus);
      && |after| == |before|
      && (forall i :: 0 <= i < |after| ==> after[i] == before[i].(transform := run[i]))
      && TransformsOf(after) == run
  {
    var minus' := if displayMinus then minus.(transform := run[shown]) else minus;
    var before := Shown(ds, minus, shown, displayMinus);
    var after := Shown(Relaid(ds, run[..shown]), minus', shown, displayMinus);
    forall i | 0 <= i < |after|
      ensures after[i] == before[i].(transform := run[i])
    {
      if i < shown {
        assert after[i] == Relaid(ds, run[..shown])[i];
      }
    }
  }

  /** After the sprite-setting loop, the shown slots carry exactly the plan's glyphs. */
  lemma ShownGlyphs(before: seq<Display>, after: seq<Display>, minus: Display, p: Plan)
    requires p.displayDigitNum <= |before|
    requires DigitsSet(before, after, p.num, p.displayDigitNum)
    requires p.displayMinus ==> minus.sprite == Some(Minus)
    ensures AllHaveSprites(Shown(after, minus, p.displayDigitNum, p.displayMinus))
    ensures SpritesOf(Shown(after, minus, p.displayDigitNum, p.displayMinus)) == PlanGlyphs(p)
  {
    var shown := Shown(after, minus, p.displayDigitNum, p.displayMinus);
    assert forall i :: 0 <= i < p.displayDigitNum ==> shown[i] == after[i];
  }

  /**
    The slots display plan p: the first displayDigitNum slots are on and
    every later one off, the minus slot is on exactly for a shown minus,
    and the shown slots carry the plan's glyphs where its layout puts them.
   */
  ghost predicate ShowsPlan(p: Plan, m: Metrics, s: Settings, ds: seq<Display>, minus: Display)
    requires ValidMetrics(m) && s.rect.width >= 0.0
  {
    && p.displayDigitNum <= |ds|
    && (forall i :: 0 <= i < |ds| ==> (ds[i].enabled <==> i < p.displayDigitNum))
    && minus.enabled == p.displayMinus
    && var shown := Shown(ds, minus, p.displayDigitNum, p.displayMinus);
    && AllHaveSprites(shown)
    && SpritesOf(shown) == PlanGlyphs(p)
    && TransformsOf(shown) == PlanLayout(p, m, s)
  }

  /** Setting the sprites for p and then laying the shown slots out by p's layout makes the slots show p. */
  lemma SetThenLaidShowsPlan(p: Plan, m: Metrics, s: Settings, pool: seq<Display>, digits: seq<Display>,
                             minus: Display, ds: seq<Display>, minus': Display)
    requires ValidMetrics(m) && s.rect.width >= 0.0
    requires p.displayDigitNum <= |pool|
    requires DigitsSet(pool, digits, p.num, p.displayDigitNum)
    requires minus.enabled == p.displayMinus && (p.displayMinus ==> minus.sprite == Some(Minus))
    requires |PlanLayout(p, m, s)| == |PlanGlyphs(p)|
    requires ds == Relaid(digits, PlanLayout(p, m, s)[..p.displayDigitNum])
    requires minus' == if p.displayMinus then minus.(transform := PlanLayout(p, m, s)[p.displayDigitNum]) else minus
    ensures ShowsPlan(p, m, s, ds, minus')
    ensures |ds| == |pool|
    ensures forall i :: p.displayDigitNum <= i < |pool| ==> ds[i] == pool[i].(enabled := false)
  {
    var run := PlanLayout(p, m, s);
    ShownGlyphs(pool, digits, minus, p);
    RelaidShown(digits, minus, p.displayDigitNum, p.displayMinus, run);
    var before := Shown(digits, minus, p.displayDigitNum, p.displayMinus);
    var after := Shown(ds, minus', p.displayDigitNum, p.displayMinus);
    assert forall i :: 0 <= i < |after| ==> after[i].sprite == before[i].sprite;
  }

  class SpriteDigits {
    var value: int
    var maxDigitNum: int
    var paddingMode: PaddingMode
    var settings: Settings
    var numberDisplays: seq<Display>
    var minusDisplay: Display

    /** Value is a long other than long.MinValue, MaxDigitNum is valid, and a bounded MaxDigitNum has its slots. */
    ghost predicate Valid()
      reads this
    {
      && LongMin < value <= LongMax
      && ValidMaxDigitNum(maxDigitNum)
      && (maxDigitNum != -1 ==> |numberDisplays| >= maxDigitNum)
    }

    /** What the component displays for its value: the plan of Value, MaxDigitNum and PaddingMode. */
    ghost predicate Shows(asset: Asset)
      reads this
    {
      && ValidMaxDigitNum(maxDigitNum) && ValidMetrics(asset.metrics) && settings.rect.width >= 0.0
      && ShowsPlan(NumberPlan(value, asset.hasMinusSprite, maxDigitNum, paddingMode), asset.metrics, settings,
                   numberDisplays, minusDisplay)
    }

    /** Enabling the component: create the minus slot and the slots MaxDigitNum asks for. */
    constructor(value: int, maxDigitNum: int, paddingMode: PaddingMode, settings: Settings)
      requires LongMin < value <= LongMax
      requires ValidMaxDigitNum(maxDigitNum)
      ensures Valid()
      ensures this.value == value && this.maxDigitNum == maxDigitNum
      ensures this.paddingMode == paddingMode && this.settings == settings
      ensures minusDisplay == NewDisplay()
      ensures numberDisplays == NewDisplays(maxDigitNum)
    {
      this.value := value;
      this.maxDigitNum := maxDigitNum;
      this.paddingMode := paddingMode;
      this.settings := settings;
      minusDisplay := NewDisplay();
      numberDisplays := NewDisplays(maxDigitNum);
    }

    /** Grow the slot pool to at least digitNum slots; existing slots are kept as they are. */
    method PrepareNumberRenderers(digitNum: int)
      modifies this
      ensures numberDisplays == old(numberDisplays) + NewDisplays(digitNum - |old(numberDisplays)|)
      ensures |numberDisplays| >= digitNum
      ensures value == old(value) && maxDigitNum == old(maxDigitNum) && paddingMode == old(paddingMode)
      ensures settings == old(settings) && minusDisplay == old(minusDisplay)
    {
      if |numberDisplays| >= digitNum {
        assert NewDisplays(digitNum - |numberDisplays|) == [];
        assert numberDisplays + [] == numberDisplays;
        return;
      }
      var i := |numberDisplays|;
      while i < digitNum
        invariant |old(numberDisplays)| <= i <= digitNum
        invariant numberDisplays == old(numberDisplays) + NewDisplays(i - |old(numberDisplays)|)
        invariant value == old(value) && maxDigitNum == old(maxDigitNum) && paddingMode == old(paddingMode)
        invariant settings == old(settings) && minusDisplay == old(minusDisplay)
      {
        numberDisplays := numberDisplays + [NewDisplay()];
        i := i + 1;
      }
    }

    /**
      Write the digits of num into the first displayDigitNum slots (ones
      digit first), disable the remaining slots, show or hide the minus
      slot, and return the unscaled width of everything shown.
     */
    method SetNumberSpriteToDisplays(num: nat, displayDigitNum: nat, displayMinus: bool, asset: Asset)
      returns (width: real)
      modifies this
      ensures DigitsSet(old(numberDisplays), numberDisplays, num, displayDigitNum)
      ensures minusDisplay == (if !displayMinus then old(minusDisplay).(enabled := false)
                               else old(minusDisplay).(enabled := true,
                                      sprite := if asset.hasMinusSprite then Some(Minus) else None))
      ensures width == DigitsWidth(asset.metrics, num, if displayDigitNum <= |numberDisplays| then displayDigitNum
                                                       else |numberDisplays|)
                       + (if displayMinus && asset.hasMinusSprite then asset.metrics(Minus).Size().x else 0.0)
      ensures value == old(value) && maxDigitNum == old(maxDigitNum) && paddingMode == old(paddingMode)
      ensures settings == old(settings)
    {
      width := 0.0;
      var n := num;
      var i := 0;
      while i < |numberDisplays|
        invariant 0 <= i <= |numberDisplays| == |old(numberDisplays)|
        invariant n == num / Pow10(if i <= displayDigitNum then i else displayDigitNum)
        invariant width == DigitsWidth(asset.metrics, num, if i <= displayDigitNum then i else displayDigitNum)
        invariant forall j :: 0 <= j < i ==>
          numberDisplays[j] == (if j < displayDigitNum
                                then old(numberDisplays)[j].(enabled := true, sprite := Some(Digit(DigitAt(num, j))))
                                else old(numberDisplays)[j].(enabled := false))
        invariant forall j :: i <= j < |numberDisplays| ==> numberDisplays[j] == old(numberDisplays)[j]
        invariant value == old(value) && maxDigitNum == old(maxDigitNum) && paddingMode == old(paddingMode)
        invariant settings == old(settings) && minusDisplay == old(minusDisplay)
      {
        var disp := numberDisplays[i];
        if i >= displayDigitNum {
          numberDisplays := numberDisplays[i := disp.(enabled := false)];
          i := i + 1;
          continue;
        }
        var count := n % 10;
        numberDisplays := numberDisplays[i := disp.(enabled := true, sprite := Some(Digit(count)))];
        ShiftDown(num, i);
        n := n / 10;
        width := width + asset.metrics(Digit(count)).Size().x;
        i := i + 1;
      }
      if displayMinus {
        var sprite := if asset.hasMinusSprite then Some(Minus) else None;
        minusDisplay := minusDisplay.(enabled := true, sprite := sprite);
        if asset.hasMinusSprite {
          width := width + asset.metrics(Minus).Size().x;
        }
      } else {
        minusDisplay := minusDisplay.(enabled := false);
      }
    }

    /**
      Lay the shown slots leftward from the pivot origin: the digit slots
      ones digit first, then the minus slot.  Only their transforms change.
     */
    method SetupSpritePositions(letterScale: real, spacingScale: real, scaledWidth: real,
                                displayDigitNum: nat, displayMinus: bool, m: Metrics)
      requires displayDigitNum <= |numberDisplays|
      requires AllHaveSprites(Shown(numberDisplays, minusDisplay, displayDigitNum, displayMinus))
      modifies this
      ensures var run := LaidOut(GetPivotOrigin(settings.horizontal, settings.vertical, settings.rect, settings.pivot,
                                                scaledWidth),
                                 settings.vertical,
                                 BoundsOf(m, SpritesOf(old(Shown(numberDisplays, minusDisplay, displayDigitNum, displayMinus)))),
                                 letterScale, ScaledSpacing(settings.spacing, spacingScale));
              && numberDisplays == Relaid(old(numberDisplays), run[..displayDigitNum])
              && minusDisplay == if displayMinus then old(minusDisplay).(transform := run[displayDigitNum])
                                 else old(minusDisplay)
      ensures value == old(value) && maxDigitNum == old(maxDigitNum) && paddingMode == old(paddingMode)
      ensures settings == old(settings)
    {
      var origin := GetPivotOrigin(settings.horizontal, settings.vertical, settings.rect, settings.pivot, scaledWidth);
      var caret := origin;
      var spacing := ScaledSpacing(settings.spacing, spacingScale);
      var vertical := settings.vertical;
      ghost var bs := BoundsOf(m, SpritesOf(Shown(numberDisplays, minusDisplay, displayDigitNum, displayMinus)));
      ghost var run := LaidOut(origin, vertical, bs, letterScale, spacing);
      var displays := numberDisplays;
      ghost var before := displays;
      var i := 0;
      while i < displayDigitNum
        invariant 0 <= i <= displayDigitNum
        invariant unchanged(this)
        invariant |displays| == |before|
        invariant forall j :: 0 <= j < |displays| ==>
          displays[j] == if j < i then before[j].(transform := run[j]) else before[j]
        invariant caret == CaretAt(origin, bs, letterScale, spacing, i)
      {
        assert Shown(numberDisplays, minusDisplay, displayDigitNum, displayMinus)[i] == displays[i];
        var b := m(displays[i].sprite.value);
        assert b == bs[i];
        var next, t := SetDisplayPosition(caret, settings.horizontal, vertical, b, letterScale, spacing);
        CaretStep(origin, vertical, bs, letterScale, spacing, i, t);
        LaidOutAt(origin, vertical, bs, letterScale, spacing, i);
        displays := displays[i := displays[i].(transform := t)];
        caret := next;
        i := i + 1;
      }
      var minus := minusDisplay;
      if displayMinus {
        assert Shown(numberDisplays, minusDisplay, displayDigitNum, displayMinus)[displayDigitNum] == minus;
        var b := m(minus.sprite.value);
        assert b == bs[displayDigitNum];
        var next, t := SetDisplayPosition(caret, settings.horizontal, vertical, b, letterScale, spacing);
        LaidOutAt(origin, vertical, bs, letterScale, spacing, displayDigitNum);
        minus := minus.(transform := t);
      }
      numberDisplays := displays;
      minusDisplay := minus;
    }
  
    /**
      Recompute everything shown from Value, MaxDigitNum and PaddingMode:
      sign, digit count, counter-stop, padding, the letter scale from Size
      and the rect height, the sprites, the shrink-to-fit step, and the
      positions.
     */
    method ApplyNumbers(asset: Asset)
      requires Valid() && ValidMetrics(asset.metrics) && settings.rect.width >= 0.0
      modifies this
      ensures Valid() && Shows(asset)
      ensures value == old(value) && maxDigitNum == old(maxDigitNum) && paddingMode == old(paddingMode)
      ensures settings == old(settings)
      ensures var p := NumberPlan(value, asset.hasMinusSprite, maxDigitNum, paddingMode);
              var pool := Grown(old(numberDisplays), maxDigitNum, p.digitNum);
        && |numberDisplays| == |pool|
        && forall i :: p.displayDigitNum <= i < |pool| ==> numberDisplays[i] == pool[i].(enabled := false)
    {
      var num, digitNum, displayMinus := SignAndCounterStop(asset);
      var displayDigitNum := digitNum;
      if maxDigitNum == -1 {
        PrepareNumberRenderers(digitNum);
      } else if paddingMode == ZeroFill {
        displayDigitNum := maxDigitNum;
      }
      ghost var p := NumberPlan(value, asset.hasMinusSprite, maxDigitNum, paddingMode);
      assert num == p.num && displayDigitNum == p.displayDigitNum && displayMinus == p.displayMinus;
      assert numberDisplays == Grown(old(numberDisplays), maxDigitNum, p.digitNum);
      DrawDigits(num, displayDigitNum, displayMinus, asset, p);
    }

    /**
      The rest of ApplyNumbers once the plan is known: the letter scale
      from Size and the rect height, the sprites and their width, the
      shrink-to-fit step, and the positions.
     */
    method DrawDigits(num: nat, displayDigitNum: nat, displayMinus: bool, asset: Asset, ghost p: Plan)
      requires ValidMetrics(asset.metrics) && settings.rect.width >= 0.0
      requires displayDigitNum <= |numberDisplays|
      requires p.num == num && p.displayDigitNum == displayDigitNum && p.displayMinus == displayMinus
      requires displayMinus ==> asset.hasMinusSprite
      modifies this
      ensures value == old(value) && maxDigitNum == old(maxDigitNum) && paddingMode == old(paddingMode)
      ensures settings == old(settings)
      ensures ShowsPlan(p, asset.metrics, settings, numberDisplays, minusDisplay)
      ensures |numberDisplays| == |old(numberDisplays)|
      ensures forall i :: displayDigitNum <= i < |numberDisplays| ==>
        numberDisplays[i] == old(numberDisplays)[i].(enabled := false)
    {
      ghost var pool := numberDisplays;
      var m := asset.metrics;
      var spriteHeight := m(Digit(0)).Size().y;
      var size := Min(settings.size, settings.rect.height);
      var letterScale := size / spriteHeight;
      assert letterScale == LetterScale(settings, m);

      var originalWidth := SetNumberSpriteToDisplays(num, displayDigitNum, displayMinus, asset);
      assert originalWidth == DigitsWidth(m, p.num, p.displayDigitNum) + (if p.displayMinus then m(Minus).Size().x else 0.0);
      var widthWithSpace := Measured(originalWidth, letterScale, displayDigitNum, displayMinus, settings.spacing);
      assert widthWithSpace == WidthWithSpace(p, m, settings.spacing, letterScale);
      var fit := FitToRect(settings.rect.width, letterScale, widthWithSpace);
      assert fit == PlanFit(p, m, settings);

      ghost var digits := numberDisplays;
      ghost var minus := minusDisplay;
      ShownGlyphs(pool, digits, minus, p);
      SetupSpritePositions(fit.letterScale, fit.spacingScale, fit.scaledWidth, displayDigitNum, displayMinus, m);
      assert LaidOut(GetPivotOrigin(settings.horizontal, settings.vertical, settings.rect, settings.pivot, fit.scaledWidth),
                     settings.vertical, BoundsOf(m, SpritesOf(Shown(digits, minus, displayDigitNum, displayMinus))),
                     fit.letterScale, ScaledSpacing(settings.spacing, fit.spacingScale))
          == PlanLayout(p, m, settings);
      SetThenLaidShowsPlan(p, m, settings, pool, digits, minus, numberDisplays, minusDisplay);
    }

    /** A new MaxDigitNum: the pool grows to it, then the number is redrawn. */
    method SetMaxDigitNum(maxDigitNum: int, asset: Asset)
      requires Valid() && ValidMaxDigitNum(maxDigitNum)
      requires ValidMetrics(asset.metrics) && settings.rect.width >= 0.0
      modifies this
      ensures Valid() && Shows(asset)
      ensures this.maxDigitNum == maxDigitNum
      ensures value == old(value) && paddingMode == old(paddingMode) && settings == old(settings)
      ensures var p := NumberPlan(value, asset.hasMinusSprite, maxDigitNum, paddingMode);
              var pool := Grown(old(numberDisplays) + NewDisplays(maxDigitNum - |old(numberDisplays)|), maxDigitNum, p.digitNum);
        && |numberDisplays| == |pool|
        && forall i :: p.displayDigitNum <= i < |pool| ==> numberDisplays[i] == pool[i].(enabled := false)
    {
      this.maxDigitNum := maxDigitNum;
      PrepareNumberRenderers(maxDigitNum);
      ApplyNumbers(asset);
    }

    /** A new Value: the number is redrawn. */
    method SetValue(value: int, asset: Asset)
      requires Valid() && LongMin < value <= LongMax
      requires ValidMetrics(asset.metrics) && settings.rect.width >= 0.0
      modifies this
      ensures Valid() && Shows(asset)
      ensures this.value == value
      ensures maxDigitNum == old(maxDigitNum) && paddingMode == old(paddingMode) && settings == old(settings)
      ensures var p := NumberPlan(value, asset.hasMinusSprite, maxDigitNum, paddingMode);
              var pool := Grown(old(numberDisplays), maxDigitNum, p.digitNum);
        && |numberDisplays| == |pool|
        && forall i :: p.displayDigitNum <= i < |pool| ==> numberDisplays[i] == pool[i].(enabled := false)
    {
      this.value := value;
      ApplyNumbers(asset);
    }

    /** A new PaddingMode: the number is redrawn. */
    method SetPaddingMode(paddingMode: PaddingMode, asset: Asset)
      requires Valid() && ValidMetrics(asset.metrics) && settings.rect.width >= 0.0
      modifies this
      ensures Valid() && Shows(asset)
      ensures this.paddingMode == paddingMode
      ensures value == old(value) && maxDigitNum == old(maxDigitNum) && settings == old(settings)
      ensures var p := NumberPlan(value, asset.hasMinusSprite, maxDigitNum, paddingMode);
              var pool := Grown(old(numberDisplays), maxDigitNum, p.digitNum);
        && |numberDisplays| == |pool|
        && forall i :: p.displayDigitNum <= i < |pool| ==> numberDisplays[i] == pool[i].(enabled := false)
    {
      this.paddingMode := paddingMode;
      ApplyNumbers(asset);
    }

    /**
      The first steps of ApplyNumbers: the magnitude to show (0 for a
      negative value without a minus sprite), whether a minus is shown,
      the digit count, and the counter-stop that replaces a number longer
      than a bounded MaxDigitNum by MaxDigitNum nines.
     */
    method SignAndCounterStop(asset: Asset) returns (num: nat, digitNum: nat, displayMinus: bool)
      requires Valid()
      ensures var p := NumberPlan(value, asset.hasMinusSprite, maxDigitNum, paddingMode);
        num == p.num && digitNum == p.digitNum && displayMinus == p.displayMinus
    {
      var n := value;
      displayMinus := false;
      if n < 0 {
        if !asset.hasMinusSprite {
          n := 0;
        } else {
          n := -n;
          displayMinus := true;
        }
      }
      digitNum := GetDigitNumber(n);
      if maxDigitNum != -1 && maxDigitNum < digitNum {
        var power := Power(10, maxDigitNum);
        PowTenIsPow10(maxDigitNum);
        n := power - 1;
        digitNum := maxDigitNum;
      }
      num := n;
    }

    /** b^p by repeated multiplication; 0 for a negative exponent. */
    static method Power(b: int, p: int) returns (r: int)
      ensures r == if p < 0 then 0 else Pow(b, p)
    {
      if p < 0 {
        return 0;
      }
      r := 1;
      var i := 0;
      while i < p
        invariant 0 <= i <= p
        invariant r == Pow(b, i)
      {
        r := r * b;
        i := i + 1;
      }
    }

    /** The number of decimal digits of num, counted by dividing toward zero; 0 has one digit. */
    static method GetDigitNumber(num: int) returns (digitNum: nat)
      ensures digitNum == DigitCount(Abs(num))
    {
      digitNum := 0;
      var n := num;
      while n != 0
        invariant digitNum + (if n == 0 then 0 else DigitCount(Abs(n))) == (if num == 0 then 0 else DigitCount(Abs(num)))
        decreases Abs(n)
      {
        digitNum := digitNum + 1;
        n := TruncDiv(n, 10);
      }
      if digitNum == 0 {
        digitNum := 1;
      }
    }
  }
}
