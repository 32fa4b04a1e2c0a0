# SpriteDigits: numbers drawn as rows of glyph sprites

SpriteDigits shows a number as a row of child displays ("slots"), each
holding one glyph sprite: a digit 0-9, a minus sign or a decimal point.
This project models the part of it that turns a number into glyphs and
places them:

- **SpriteDigits** (integer component, module `IntegerDisplay`, class
  `SpriteDigits`): a `long` value shown with its sign, its natural number
  of digits, a counter-stop that replaces a number longer than a bounded
  `MaxDigitNum` by all nines, and `Pad` or `ZeroFill` padding. Slots are
  filled ones digit first from a pool that only grows.
- **SpriteDigitsFloat** (decimal component, module `DecimalDisplay`,
  class `SpriteDigitsFloat`): a value shown with `DisplayDecimalPlaces`
  decimals. Each decimal place is taken with a floor, and only the
  smallest shown place is rounded, half to even as `Math.Round` does on a
  `decimal`. One carry ripples up through the fraction digits and then
  the integer digits. A carry out of the top digit takes one more slot,
  showing a 1. The digit arithmetic is in module `DecimalRounding`.
- **SpriteDigitsBase** layout (module `Layout`): the pivot origin inside
  the rect, the placement of one glyph at a caret that moves leftward,
  and the shrink-to-fit step both components share.
- Module `Numerals` holds powers of ten, digit expansions,
  round-half-to-even and the carry chain. Module `Common` holds the glyph,
  slot, bounds and rect types.

Each component is a class whose fields are the ones the source updates:
the value, the settings, the slot pool (`seq<Display>`) and the minus and
point slots. `ApplyNumbers` is proved against a specification. The
number is first turned into a plan: the digits, the count of digit slots
and whether a minus is shown. The plan is then laid out by a recursive
function (`Layout.LaidOut`). After `ApplyNumbers`, exactly the plan's
slots are enabled, they carry the plan's glyphs, and their transforms are
the plan's layout. Lemmas then say what the plan means:

- the digits read back to the value, or to the rounded value;
- the counter-stop shows all nines;
- the run is exactly as wide as the measured width, lies inside the rect
  and is aligned as the pivot says.

Glyph metrics are a total function from glyph to sprite bounds with
positive extents (`Common.ValidMetrics`). That precondition stands for
the asset readiness checks. Sizes and positions are exact `real`s. The
decimal value is an exact `real`.

## Model

| member | source | states |
|---|---|---|
| `Layout.GetPivotOrigin` | Unity-R3/SpriteDigits/Runtime/SpriteDigitsBase.cs:319-352 | Left puts the start of a `scaledWidth` run on the rect's left edge; Right puts the origin on the right edge whatever the width; Center puts the run's midpoint on the rect's centre when the rect sits around its pivot; Top/Bottom/Middle give yMax, yMin and the vertical centre; z is 0 |
| `Layout.VerticalOffset` | Unity-R3/SpriteDigits/Runtime/SpriteDigitsBase.cs:359-367 | Top puts the glyph's scaled top edge on the caret line, Middle adds no offset, Bottom adds the unscaled centre plus the scaled half-height, as written |
| `Layout.BottomAlignsWhenCentred` | Unity-R3/SpriteDigits/Runtime/SpriteDigitsBase.cs:363-365 | with Bottom the glyph's bottom edge lies center.y·(1+scale) above the caret line, so it meets the line exactly for sprites centred on their pivot |
| `Layout.Placement` | Unity-R3/SpriteDigits/Runtime/SpriteDigitsBase.cs:356-370 | the transform puts the glyph's scaled right edge on caret.x, applies the vertical offset and caret.z, and has scale (s, s, 1) |
| `Layout.PlacementUnique` | Unity-R3/SpriteDigits/Runtime/SpriteDigitsBase.cs:356-370 | those four conditions determine the transform |
| `Layout.SetDisplayPosition` | Unity-R3/SpriteDigits/Runtime/SpriteDigitsBase.cs:354-373 | the transform written places the glyph at the caret, and the new caret is the glyph's left edge less one spacing, with y and z kept (caret.x falls by size.x·scale + spacing) |
| `Layout.LaidOut` | Unity-R3/SpriteDigits/Runtime/SpriteDigits.cs:201-221 | SetupSpritePositions' calls give one transform per glyph, the first glyph's right edge on the starting caret; where every later glyph lands is stated by LaidOutIsRun |
| `Layout.LaidOutIsRun` | Unity-R3/SpriteDigits/Runtime/SpriteDigitsBase.cs:354-373 | laying glyphs out one after another places glyph k at the caret reached after the first k glyphs |
| `Layout.RunIsLaidOut` | Unity-R3/SpriteDigits/Runtime/SpriteDigitsBase.cs:354-373 | conversely, any run placed that way is the laid-out run |
| `Layout.RunGap` | Unity-R3/SpriteDigits/Runtime/SpriteDigitsBase.cs:358-372 | consecutive glyphs of a run are exactly one spacing apart |
| `Layout.RunEnds` | Unity-R3/SpriteDigits/Runtime/SpriteDigitsBase.cs:358-372 | the first glyph's right edge is the origin and the last glyph's left edge lies the run length further left |
| `Layout.RunLengthIsSum` | Unity-R3/SpriteDigits/Runtime/SpriteDigits.cs:147-149 | a run is as long as its scaled glyph widths plus one spacing per gap |
| `Layout.RunWithin` | Unity-R3/SpriteDigits/Runtime/SpriteDigitsBase.cs:358-372 | with non-negative scale and spacing every glyph lies between the run's two ends |
| `Layout.PivotAlignsRun` | Unity-R3/SpriteDigits/Runtime/SpriteDigitsBase.cs:323-335 | a run laid from the origin computed for its own length starts at the left edge (Left), ends at the right edge (Right) or is centred (Center) |
| `Layout.RunInsideRect` | Unity-R3/SpriteDigits/Runtime/SpriteDigitsBase.cs:319-373 | a run no wider than the rect, laid from that origin, lies inside the rect horizontally for every pivot |
| `Layout.FitToRect` | Unity-R3/SpriteDigits/Runtime/SpriteDigits.cs:151-158 | shrink-to-fit only shrinks: the factor is 1 exactly when the rect is wide enough and lies in [0, 1]; letters are scaled by it; the width passed on is min(rect width, measured width) |
| `Layout.FitRunLength` | Unity-R3/SpriteDigits/Runtime/SpriteDigits.cs:147-161 | after the fit, the run with scaled letters and spacing is exactly the width passed on, and no wider than the rect |
| `Layout.LaidOutInsideRect` | Unity-R3/SpriteDigits/Runtime/SpriteDigits.cs:151-161 | a fitted run laid from the pivot origin lies inside the rect and is aligned as the horizontal pivot says |
| `Layout.MeasuredRunLength` | Unity-R3/SpriteDigits/Runtime/SpriteDigitsFloat.cs:130-132 | the measured width (scaled glyph widths plus a spacing per gap and one before a minus) is the length of the run of those glyphs |
| `Layout.Measured` | Unity-R3/SpriteDigits/Runtime/SpriteDigits.cs:148-149 | widthWithSpace is the scaled glyph widths plus one spacing per gap between all the glyphs shown, the minus included |
| `Layout.LetterScaleNonNegative` | Unity-R3/SpriteDigits/Runtime/SpriteDigits.cs:141-144 | min(Size, rect height) over the height of digit 0's sprite is non-negative for a non-negative size and rect |
| `Layout.LetterScale` | Unity-R3/SpriteDigits/Runtime/SpriteDigits.cs:141-144 | digit 0's sprite scaled by the letter scale is exactly min(Size, rect height) tall |
| `Numerals.DigitCount` | Unity-R3/SpriteDigits/Runtime/SpriteDigits.cs:227-239 | at least 1, n < 10^r, and 10^(r-1) <= n when r > 1 |
| `Numerals.DigitCountLeast` | Unity-R3/SpriteDigits/Runtime/SpriteDigits.cs:227-239 | the digit count is the least k >= 1 with n < 10^k |
| `Numerals.TruncDiv` | Unity-R3/SpriteDigits/Runtime/SpriteDigits.cs:234 | division of a long toward zero: the magnitude is divided and the sign kept |
| `Numerals.PowTenIsPow10` | Unity-R3/SpriteDigits/Runtime/SpriteDigits.cs:125 | the repeated product 10·…·10 is the power of ten used for the counter-stop |
| `Numerals.ValueOfDigits` | Unity-R3/SpriteDigits/Runtime/SpriteDigits.cs:169-187 | the first len digits of n read back to n when n < 10^len |
| `Numerals.DigitsOfValue` | Unity-R3/SpriteDigits/Runtime/SpriteDigitsFloat.cs:156-226 | a digit sequence is the expansion of its own value |
| `Numerals.RoundHalfEven` | Unity-R3/SpriteDigits/Runtime/SpriteDigitsFloat.cs:302 | the result lies within a half of x, and a tie goes to the even neighbour |
| `Numerals.RoundHalfEvenUnique` | Unity-R3/SpriteDigits/Runtime/SpriteDigitsFloat.cs:302 | those two properties determine the rounded value |
| `Numerals.CarryStep` | Unity-R3/SpriteDigits/Runtime/SpriteDigitsFloat.cs:161-171 | the digit written is in [0, 9], digit + 10·carry-out equals number + carry-in, and the carry is set exactly when number + carry-in exceeds 9 |
| `Numerals.Ripple` | Unity-R3/SpriteDigits/Runtime/SpriteDigitsFloat.cs:156-226 | the carried digits are digits, at most one longer with a leading 1, and their value is that of the raw digits plus the carry-in |
| `Numerals.CarryPrefixRipple` | Unity-R3/SpriteDigits/Runtime/SpriteDigitsFloat.cs:156-214 | the slot-by-slot carry loop after k slots is the first k digits of the ripple, with the rest still to come from its carry |
| `Numerals.RippleGrowsIffOverflow` | Unity-R3/SpriteDigits/Runtime/SpriteDigitsFloat.cs:216-226 | a final carry, and so an extra leading slot, happens exactly when the raw digits' value reaches 10^len |
| `Numerals.BumpedDigitsValue` | Unity-R3/SpriteDigits/Runtime/SpriteDigitsFloat.cs:156-178 | digits of f with the rounding increment added to the lowest read back as f plus the increment |
| `IntegerDisplay.Magnitude` | Unity-R3/SpriteDigits/Runtime/SpriteDigits.cs:105-118 | a non-negative value is kept, a negative one becomes its negation with a minus sprite and 0 without one |
| `IntegerDisplay.NumberPlan` | Unity-R3/SpriteDigits/Runtime/SpriteDigits.cs:105-139 | the minus is shown exactly for a negative value with a minus sprite; 1 <= digit count <= slots shown; the number fits its digit count; a bounded MaxDigitNum bounds the slots shown; ZeroFill with a bounded MaxDigitNum shows MaxDigitNum slots, otherwise the digit count |
| `IntegerDisplay.PlanShowsValue` | Unity-R3/SpriteDigits/Runtime/SpriteDigits.cs:105-139 | a value that fits is shown as its magnitude with its natural digit count, the digits read back to it, and with the sign they give back the value |
| `IntegerDisplay.PlanCounterStop` | Unity-R3/SpriteDigits/Runtime/SpriteDigits.cs:122-127 | a value with more than MaxDigitNum digits shows 10^MaxDigitNum - 1 in MaxDigitNum slots, every digit a 9 |
| `IntegerDisplay.PlanZeroFill` | Unity-R3/SpriteDigits/Runtime/SpriteDigits.cs:135-139 | with ZeroFill the slots above the number's own digits show 0 |
| `IntegerDisplay.PlanFitsInLong` | Unity-R3/SpriteDigits/Runtime/SpriteDigits.cs:115-125 | for a long above long.MinValue, the negation and the counter-stop's power of ten stay within a long |
| `IntegerDisplay.PlanGlyphs` | Unity-R3/SpriteDigits/Runtime/SpriteDigits.cs:169-196 | the shown glyphs are digit i of the number in slot i and the minus last |
| `IntegerDisplay.DigitsWidthIsSum` | Unity-R3/SpriteDigits/Runtime/SpriteDigits.cs:169-187 | the width the loop adds up digit by digit is the summed width of the digit glyphs |
| `IntegerDisplay.PlanWidth` | Unity-R3/SpriteDigits/Runtime/SpriteDigits.cs:164-199 | a plan's unscaled width is its digits' widths plus the minus width when shown |
| `IntegerDisplay.PlanRunLength` | Unity-R3/SpriteDigits/Runtime/SpriteDigits.cs:141-149 | the run of a plan's glyphs is exactly as long as ApplyNumbers measures it |
| `IntegerDisplay.PlanFitsRect` | Unity-R3/SpriteDigits/Runtime/SpriteDigits.cs:141-161 | after shrink-to-fit the digits and minus are exactly as wide as the width handed to the pivot, and no wider than the rect |
| `IntegerDisplay.PlanLayout` | Unity-R3/SpriteDigits/Runtime/SpriteDigits.cs:141-221 | one transform per shown glyph |
| `IntegerDisplay.PlanLayoutIsRun` | Unity-R3/SpriteDigits/Runtime/SpriteDigits.cs:141-221 | the shown digits and minus form a run laid from the pivot origin for the fitted width, with the fitted letter scale and scaled spacing, each glyph placed at the caret reached after the ones before it |
| `IntegerDisplay.PlanInsideRect` | Unity-R3/SpriteDigits/Runtime/SpriteDigits.cs:141-221 | every shown glyph lies inside the rect horizontally; with Left the run starts at the rect's left edge, with Right it ends at the right edge, and with Center its midpoint is the rect's centre |
| `IntegerDisplay.Grown` | Unity-R3/SpriteDigits/Runtime/SpriteDigits.cs:129-134 | the pool keeps its slots, only appends fresh ones, and with an unlimited MaxDigitNum holds at least the digit count |
| `IntegerDisplay.ShownGlyphs` | Unity-R3/SpriteDigits/Runtime/SpriteDigits.cs:164-199 | after the sprite loop the shown slots carry exactly the plan's glyphs |
| `IntegerDisplay.SetThenLaidShowsPlan` | Unity-R3/SpriteDigits/Runtime/SpriteDigits.cs:147-221 | setting the sprites and then laying the shown slots out by the plan's layout makes the slots show the plan, and the later slots stay off and otherwise untouched |
| `IntegerDisplay.SpriteDigits.constructor` | Unity-R3/SpriteDigits/Runtime/SpriteDigits.cs:62-78 | a minus slot and MaxDigitNum fresh number slots are created |
| `IntegerDisplay.SpriteDigits.PrepareNumberRenderers` | Unity-R3/SpriteDigits/Runtime/SpriteDigits.cs:70-78 | the pool only grows: the old slots are kept and fresh ones appended up to digitNum |
| `IntegerDisplay.SpriteDigits.SetNumberSpriteToDisplays` | Unity-R3/SpriteDigits/Runtime/SpriteDigits.cs:164-199 | slot i below the shown count is on with digit i of num, every later slot off and otherwise untouched; the minus is on exactly when shown, with its sprite; the width returned is the digits' widths plus the minus width |
| `IntegerDisplay.SpriteDigits.SetupSpritePositions` | Unity-R3/SpriteDigits/Runtime/SpriteDigits.cs:201-221 | the shown slots, then the minus, get the transforms of the run laid out from the pivot origin; nothing else changes |
| `IntegerDisplay.SpriteDigits.SignAndCounterStop` | Unity-R3/SpriteDigits/Runtime/SpriteDigits.cs:105-127 | the number, digit count and minus flag computed are the plan's |
| `IntegerDisplay.SpriteDigits.ApplyNumbers` | Unity-R3/SpriteDigits/Runtime/SpriteDigits.cs:100-162 | the slots show the plan of Value, MaxDigitNum and PaddingMode: exactly the plan's slots are on, with its glyphs at its layout; later slots are off and otherwise unchanged |
| `IntegerDisplay.SpriteDigits.DrawDigits` | Unity-R3/SpriteDigits/Runtime/SpriteDigits.cs:141-161 | from the plan's number, slot count and minus flag, the sprites, measured width, fit and positions make the slots show the plan |
| `IntegerDisplay.SpriteDigits.SetMaxDigitNum` | Unity-R3/SpriteDigits/Runtime/SpriteDigits.cs:47 | the pool grows to the new MaxDigitNum, the slots then show the new plan, and the slots past the shown ones are switched off and otherwise kept |
| `IntegerDisplay.SpriteDigits.SetValue` | Unity-R3/SpriteDigits/Runtime/SpriteDigits.cs:49 | a new value is stored, the slots show its plan, and the slots past the shown ones are switched off and otherwise kept |
| `IntegerDisplay.SpriteDigits.SetPaddingMode` | Unity-R3/SpriteDigits/Runtime/SpriteDigits.cs:50 | a new padding mode is stored, the slots show the new plan, and the slots past the shown ones are switched off and otherwise kept |
| `IntegerDisplay.SpriteDigits.Power` | Unity-R3/SpriteDigits/Runtime/SpriteDigits.cs:241-250 | b^p for p >= 0 and 0 for a negative p |
| `IntegerDisplay.SpriteDigits.GetDigitNumber` | Unity-R3/SpriteDigits/Runtime/SpriteDigits.cs:227-239 | the number of decimal digits of the magnitude of num (1 for 0), counted by dividing toward zero |
| `DecimalRounding.ShiftIsPower` | Unity-R3/SpriteDigits/Runtime/SpriteDigitsFloat.cs:327-336 | shifting by k places is multiplying or dividing by 10^k |
| `DecimalRounding.GetNumberOfPlaceAfterPoint` | Unity-R3/SpriteDigits/Runtime/SpriteDigitsFloat.cs:305-311 | the digit is in [0, 9] and is floor(num·10^place) mod 10 |
| `DecimalRounding.RoundNumberOfPlaceAfterPoint` | Unity-R3/SpriteDigits/Runtime/SpriteDigitsFloat.cs:297-304 | the digit is in [0, 10]: the floored digit plus 1 exactly when the remainder behind it rounds up, half to even |
| `DecimalRounding.GetNumberOfPlaceBeforePoint` | Unity-R3/SpriteDigits/Runtime/SpriteDigitsFloat.cs:319-325 | the digit is in [0, 9] and is floor(num/10^digit) mod 10 |
| `DecimalRounding.RoundNumberOfPlaceBeforePoint` | Unity-R3/SpriteDigits/Runtime/SpriteDigitsFloat.cs:312-318 | the digit is in [0, 10]: the floored digit plus 1 exactly when the remainder behind it rounds up, half to even |
| `DecimalRounding.RawDigit` | Unity-R3/SpriteDigits/Runtime/SpriteDigitsFloat.cs:156-192 | a slot digit is 0 to 9, and 10 only for a rounded digit: the smallest decimal place, or any integer digit when there are no places |
| `DecimalRounding.RawDigitAfterPoint` | Unity-R3/SpriteDigits/Runtime/SpriteDigitsFloat.cs:156-159 | for a non-negative value, slot i below the places shows digit i of floor(num·10^places), plus one at slot 0 exactly when num·10^places rounds half to even upward |
| `DecimalRounding.RawDigitBeforePoint` | Unity-R3/SpriteDigits/Runtime/SpriteDigitsFloat.cs:186-192 | for a non-negative value with at least one place, slot places + i shows digit places + i of floor(num·10^places); with no places, slot i shows digit i of floor(num) plus one whenever num/10^i rounds upward, each digit rounded on its own |
| `DecimalRounding.RawDigits` | Unity-R3/SpriteDigits/Runtime/SpriteDigitsFloat.cs:156-192 | one digit per number slot, places + before of them, slot i holding that slot's digit, each between 0 and 10 |
| `DecimalRounding.DecimalDigits` | Unity-R3/SpriteDigits/Runtime/SpriteDigitsFloat.cs:156-226 | after the carry ripples through, every digit is 0 to 9, the digits read as the same number as the raw slot digits, and at most one extra leading digit appears, which is 1 |
| `DecimalRounding.IntendedDigitsValue` | Unity-R3/SpriteDigits/Runtime/SpriteDigitsFloat.cs:156-226 | with only the smallest place rounded, the carried digits are exactly those of num·10^places rounded half to even, one longer exactly when the rounding reaches 10^(places+before) |
| `DecimalRounding.RippleValue` | Unity-R3/SpriteDigits/Runtime/SpriteDigitsFloat.cs:161-226 | rippling the carry keeps the value and spells it in digits, with a leading 1 exactly on overflow |
| `DecimalRounding.DecimalDigitsValue` | Unity-R3/SpriteDigits/Runtime/SpriteDigitsFloat.cs:148-245 | with at least one decimal place the digits written are those of num·10^places rounded half to even, with one extra leading digit exactly when the rounding carries past the top digit |
| `DecimalRounding.DecimalExact` | Unity-R3/SpriteDigits/Runtime/SpriteDigitsFloat.cs:148-245 | with at least one decimal place, a value with no more than `places` decimals is shown exactly |
| `DecimalRounding.HalfToEvenAtSmallestPlace` | Unity-R3/SpriteDigits/Runtime/SpriteDigitsFloat.cs:297-304 | 1.005 at two places shows 1.00, the tie going to the even digit |
| `DecimalRounding.CarryAddsLeadingDigit` | Unity-R3/SpriteDigits/Runtime/SpriteDigitsFloat.cs:216-226 | 9.995 at two places shows 10.00, the carry taking a new leading slot |
| `DecimalRounding.NoPlacesRoundsEveryDigit` | Unity-R3/SpriteDigits/Runtime/SpriteDigitsFloat.cs:189-190 | with no decimal places 15 shows 25, not its rounded value 15; the intended digits show 15 |
| `DecimalRounding.NoPlacesCarriesOut` | Unity-R3/SpriteDigits/Runtime/SpriteDigitsFloat.cs:186-226 | with no decimal places 95, which rounds to 95, still carries off the top and shows 105 |
| `DecimalDisplay.Magnitude` | Unity-R3/SpriteDigits/Runtime/SpriteDigitsFloat.cs:111-117 | the magnitude shown is the value or its negation, never negative |
| `DecimalDisplay.DigitsBeforePoint` | Unity-R3/SpriteDigits/Runtime/SpriteDigitsFloat.cs:285-295 | at least 1, num < 10^d, and 10^(d-1) <= num when d > 1 |
| `DecimalDisplay.DigitsBeforePointUnique` | Unity-R3/SpriteDigits/Runtime/SpriteDigitsFloat.cs:285-295 | those bounds determine the count |
| `DecimalDisplay.PlanOf` | Unity-R3/SpriteDigits/Runtime/SpriteDigitsFloat.cs:99-122 | the plan has the decimal places asked for, digits only, at least places + D and at most places + D + 1 of them (D the digits before the point), and the minus exactly for a negative value |
| `DecimalDisplay.PlanShowsRoundedValue` | Unity-R3/SpriteDigits/Runtime/SpriteDigitsFloat.cs:148-245 | with at least one place, the digits shown spell the magnitude of value times 10^places rounded half to even, which lies within a half of it |
| `DecimalDisplay.PlanCarriesOut` | Unity-R3/SpriteDigits/Runtime/SpriteDigitsFloat.cs:216-226 | with at least one decimal place, the plan has one digit more than places + D exactly when the rounding reaches 10^(places+D) |
| `DecimalDisplay.PlanShowsExactValue` | Unity-R3/SpriteDigits/Runtime/SpriteDigitsFloat.cs:148-245 | with at least one decimal place, a value with no more than `places` decimals reads back exactly from the digits shown |
| `DecimalDisplay.PlanGlyphs` | Unity-R3/SpriteDigits/Runtime/SpriteDigitsFloat.cs:247-279 | placement order: the fraction digits smallest place first, the point, the integer digits ones first, then the minus |
| `DecimalDisplay.PlanFitsRect` | Unity-R3/SpriteDigits/Runtime/SpriteDigitsFloat.cs:124-144 | after shrink-to-fit the digits, point and minus are exactly as wide as the width handed to the pivot, and no wider than the rect |
| `DecimalDisplay.PlanLayout` | Unity-R3/SpriteDigits/Runtime/SpriteDigitsFloat.cs:124-144 | one transform per shown glyph |
| `DecimalDisplay.PlanLayoutIsRun` | Unity-R3/SpriteDigits/Runtime/SpriteDigitsFloat.cs:247-279 | the shown fraction digits, point, integer digits and minus form a run laid from the pivot origin for the fitted width, with the fitted letter scale and scaled spacing, each glyph placed at the caret reached after the ones before it |
| `DecimalDisplay.PlanInsideRect` | Unity-R3/SpriteDigits/Runtime/SpriteDigitsFloat.cs:124-144 | every shown glyph lies inside the rect horizontally; with Left the run starts at the rect's left edge, with Right it ends at the right edge, and with Center its midpoint is the rect's centre |
| `DecimalDisplay.GrownTo` | Unity-R3/SpriteDigits/Runtime/SpriteDigitsFloat.cs:64-72 | the pool keeps its slots and has fresh ones appended up to n |
| `DecimalDisplay.GrownTwice` | Unity-R3/SpriteDigits/Runtime/SpriteDigitsFloat.cs:122 | growing to a and then to b >= a is growing to b, so the carry slot grows the same pool |
| `DecimalDisplay.Written` | Unity-R3/SpriteDigits/Runtime/SpriteDigitsFloat.cs:156-233 | after the loops, slot i below the digit count is on with digit i and every later slot is off and otherwise untouched |
| `DecimalDisplay.DisabledSteps` | Unity-R3/SpriteDigits/Runtime/SpriteDigitsFloat.cs:229-233 | the disable loop starts from the written digits and ends with every later slot off |
| `DecimalDisplay.Shown` | Unity-R3/SpriteDigits/Runtime/SpriteDigitsFloat.cs:247-279 | the shown slots in placement order: fraction slots, point, integer slots, minus |
| `DecimalDisplay.SetThenLaidShowsPlan` | Unity-R3/SpriteDigits/Runtime/SpriteDigitsFloat.cs:130-144 | writing a plan's sprites and then laying the shown slots out makes the slots show the plan, with later slots off |
| `DecimalDisplay.ShownBounds` | Unity-R3/SpriteDigits/Runtime/SpriteDigitsFloat.cs:253-278 | each slot the layout loops visit has the bounds of its position in the run |
| `DecimalDisplay.SpriteDigitsFloat.constructor` | Unity-R3/SpriteDigits/Runtime/SpriteDigitsFloat.cs:52-62 | a minus slot, a point slot and places + 1 fresh number slots are created |
| `DecimalDisplay.SpriteDigitsFloat.PrepareNumberDisplays` | Unity-R3/SpriteDigits/Runtime/SpriteDigitsFloat.cs:64-72 | the pool only grows to at least requiredNumber slots; the old slots and every other field are kept |
| `DecimalDisplay.SpriteDigitsFloat.GrowPool` | Unity-R3/SpriteDigits/Runtime/SpriteDigitsFloat.cs:66-71 | the loop appends fresh slots until there are requiredNumber |
| `DecimalDisplay.SpriteDigitsFloat.CarryInto` | Unity-R3/SpriteDigits/Runtime/SpriteDigitsFloat.cs:161-171 | the carry step: a digit in [0, 9] and the carry set exactly when number + carry exceeds 9 |
| `DecimalDisplay.SpriteDigitsFloat.DigitAfterPoint` | Unity-R3/SpriteDigits/Runtime/SpriteDigitsFloat.cs:158-159 | slot i's raw digit below the point, in [0, 10] |
| `DecimalDisplay.SpriteDigitsFloat.DigitBeforePoint` | Unity-R3/SpriteDigits/Runtime/SpriteDigitsFloat.cs:188-192 | slot places + i's raw digit, in [0, 10] |
| `DecimalDisplay.SpriteDigitsFloat.WriteSlot` | Unity-R3/SpriteDigits/Runtime/SpriteDigitsFloat.cs:194-211 | one loop step extends the carry chain by one digit in [0, 9] and enables that slot with it |
| `DecimalDisplay.SpriteDigitsFloat.WriteFractionDigits` | Unity-R3/SpriteDigits/Runtime/SpriteDigitsFloat.cs:153-178 | the fraction loop leaves the first `places` slots of the carry chain enabled, the carry into the ones place, and their width |
| `DecimalDisplay.SpriteDigitsFloat.WriteIntegerDigits` | Unity-R3/SpriteDigits/Runtime/SpriteDigitsFloat.cs:185-214 | the integer loop continues the carry chain over the digits before the point and adds their width |
| `DecimalDisplay.SpriteDigitsFloat.WriteDigits` | Unity-R3/SpriteDigits/Runtime/SpriteDigitsFloat.cs:153-214 | both loops write the whole carry chain, with the width of both digit runs and the point |
| `DecimalDisplay.SpriteDigitsFloat.DisableFrom` | Unity-R3/SpriteDigits/Runtime/SpriteDigitsFloat.cs:229-233 | every slot from the digit count on is switched off and nothing else changes |
| `DecimalDisplay.SpriteDigitsFloat.WriteCarryAndDisable` | Unity-R3/SpriteDigits/Runtime/SpriteDigitsFloat.cs:216-233 | a final carry takes one more slot showing 1; the pool then holds the rippled digits with every later slot off; the digits before the point grow by one exactly then |
| `DecimalDisplay.SpriteDigitsFloat.SetNumberSpriteToDisplays` | Unity-R3/SpriteDigits/Runtime/SpriteDigitsFloat.cs:148-245 | the pool holds the carried digits of num with later slots off, the point is on, the minus on exactly when shown, the count before the point includes a carry digit, and the width is that of every glyph shown |
| `DecimalDisplay.SpriteDigitsFloat.WriteSprites` | Unity-R3/SpriteDigits/Runtime/SpriteDigitsFloat.cs:148-245 | the same on the slots themselves |
| `DecimalDisplay.SpriteDigitsFloat.PlaceSlot` | Unity-R3/SpriteDigits/Runtime/SpriteDigitsFloat.cs:255-257 | one slot gets the transform of its position in the run and the caret moves to the next position |
| `DecimalDisplay.SpriteDigitsFloat.PlaceSlots` | Unity-R3/SpriteDigits/Runtime/SpriteDigitsFloat.cs:253-271 | a layout loop gives its slots consecutive transforms of the run and leaves the caret after them |
| `DecimalDisplay.SpriteDigitsFloat.PlaceShown` | Unity-R3/SpriteDigits/Runtime/SpriteDigitsFloat.cs:247-279 | the fraction slots, the point, the integer slots and the minus get the run's transforms in that order; nothing else changes |
| `DecimalDisplay.SpriteDigitsFloat.SetupSpritePositions` | Unity-R3/SpriteDigits/Runtime/SpriteDigitsFloat.cs:247-279 | the same on the component's slots |
| `DecimalDisplay.SpriteDigitsFloat.ApplyNumbers` | Unity-R3/SpriteDigits/Runtime/SpriteDigitsFloat.cs:99-145 | the slots show the plan of Value and DisplayDecimalPlaces: exactly its slots on, its glyphs at its layout, the point on, the minus on exactly for a negative value, later slots off and otherwise unchanged |
| `DecimalDisplay.SpriteDigitsFloat.DrawDigits` | Unity-R3/SpriteDigits/Runtime/SpriteDigitsFloat.cs:124-144 | from the magnitude, digit count and minus flag, the sprites, measured width, fit and positions make the slots show the plan |
| `DecimalDisplay.SpriteDigitsFloat.LayOutPlan` | Unity-R3/SpriteDigits/Runtime/SpriteDigitsFloat.cs:134-144 | the fit and the positions applied to a plan's written slots make them show the plan |
| `DecimalDisplay.SpriteDigitsFloat.SetValue` | Unity-R3/SpriteDigits/Runtime/SpriteDigitsFloat.cs:37 | a new value is stored, the slots show its plan, the pool grows only as needed, and the slots past the digits are switched off and otherwise kept |
| `DecimalDisplay.SpriteDigitsFloat.SetDisplayDecimalPlaces` | Unity-R3/SpriteDigits/Runtime/SpriteDigitsFloat.cs:38 | a new number of places is stored, the slots show the new plan, the pool grows only as needed, and the slots past the digits are switched off and otherwise kept |
| `DecimalDisplay.SpriteDigitsFloat.Power10` | Unity-R3/SpriteDigits/Runtime/SpriteDigitsFloat.cs:327-336 | 10^p for p >= 0 and 1 for a negative p |
| `DecimalDisplay.SpriteDigitsFloat.CalcDigitsBeforeDecimalPoint` | Unity-R3/SpriteDigits/Runtime/SpriteDigitsFloat.cs:285-295 | 1 below ten, and for a non-negative num the least d >= 1 with num < 10^d |

## Left out

- Unity and R3 plumbing: reactive properties and their subscriptions,
  child GameObject creation, material, colour and sorting, `Refresh`,
  enable/disable hooks, and `UnLinkAllDisplays`/`ActForAllDisplays`.
  The setters (`SetValue`, `SetMaxDigitNum`, ...) stand for the
  subscriptions, and a fresh slot stands for `CreateChildDisplay`.
- The `Digits` asset: `CheckNumbers`/`CheckNumbersFull` and a missing
  asset become the precondition that every glyph has bounds with positive
  extents (`Common.ValidMetrics`); the early return when the asset is not
  ready is not modelled.
- The cast of the `double` value to `decimal`, and the clamp to
  `decimal.MaxValue` that writes back into `Value`
  (SpriteDigitsFloat.cs:104-110): the value is an exact `real`, with no
  28-digit precision limit.
- Floating-point rounding in the layout arithmetic: positions, widths and
  scales are exact reals.
- `long.MinValue`: its negation overflows (SpriteDigits.cs:115), so
  `Value > long.MinValue` is a precondition; `MaxDigitNum` is -1 or at
  least 1, since other values make negative slot counts.
- `DisplayDecimalPlaces` is a `nat`; a negative setting is not modelled.
- The rect width is taken as non-negative. A negative width below the
  measured width would make the shrink factor rect.width / widthWithSpace
  (SpriteDigits.cs:154) negative and mirror the letters and spacing, and
  with a measured width of zero that division would be by zero. With a
  non-negative width the division happens only when widthWithSpace >
  rect.width >= 0.
- `MyRectTransform.pivot` and the settings (Size, Spacing, pivots, rect)
  are a `Settings` value held by the component, not read from the
  transform.
- The float component's minus sprite is taken to exist (it is read
  without a null check at SpriteDigitsFloat.cs:240-241).
- DecimalDisplay.PlanShowsRoundedValue: stated only for at least one
  decimal place, because with none the code shows 15 as 25 (see
  Findings).
- DecimalRounding.DecimalDigitsValue: stated only for at least one
  decimal place, for the same reason: with none, 15 gives the digits of
  25, not of 15 rounded.
- DecimalRounding.DecimalExact: stated only for at least one decimal
  place, for the same reason: with none, the whole number 15 is not shown
  exactly.
- DecimalDisplay.PlanCarriesOut: stated only for at least one decimal
  place, because with none a carry can run off the top without the value
  reaching the next power of ten: 95 shows 105
  (`DecimalRounding.NoPlacesCarriesOut`).
- DecimalDisplay.PlanShowsExactValue: stated only for at least one
  decimal place, for the same reason as DecimalExact.

## Findings

| source | as written | input that shows it | evidently intended | confidence | as-written member | corrected member |
|---|---|---|---|---|---|---|
| Unity-R3/SpriteDigits/Runtime/SpriteDigitsFloat.cs:189-190 | with no decimal places every digit before the point is rounded on the remainder behind it, so each rounds up on its own | 15.0 with DisplayDecimalPlaces 0: the ones digit is 5, the tens digit rounds 1.5 to 2, so 25 is shown | only the ones digit is rounded, as only the smallest place is with decimals; 15 shows 15 | not executed | `DecimalRounding.NoPlacesRoundsEveryDigit` | `DecimalRounding.IntendedDigitsValue` |

The same lines also let a carry run off the top without the value
rounding up to the next power of ten: 95 shows 105
(`DecimalRounding.NoPlacesCarriesOut`); the corrected digits show 95.

The component itself (`SpriteDigitsFloat`) keeps the code's digits, so
that its contract stays faithful. For one or more decimal places, those
digits equal the corrected ones (`DecimalRounding.RawDigitsAsIntended`).
The round-trip lemmas about the display therefore hold exactly where the
two agree.
