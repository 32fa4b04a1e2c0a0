/**
  The decimal component (SpriteDigitsFloat): a value shown with a fixed
  number of decimal places.  The digits after the point are read off
  the value place by place, the smallest place rounded half to even,
  the digits before the point likewise, and one carry ripples from the
  smallest place upward, adding a leading 1 when it runs off the top.
  Slots are laid out right to left: fraction digits (smallest place
  rightmost), the decimal point, integer digits ones first, then the
  minus sign.
 */
module DecimalRounding {
  import opened Common
  import opened Numerals
  import opened Layout

  // ---------------------------------------------------------------------
  // Place helpers

  /** x·10^k, as x multiplied by ten k times; x itself for k <= 0. */
  function ShiftUp(x: real, k: int): (r: real)
    ensures x >= 0.0 ==> r >= 0.0
    decreases k
  {
    if k <= 0 then x else ShiftUp(x, k - 1) * 10.0
  }

  /** x/10^k, as x divided by ten k times; x itself for k <= 0. */
  function ShiftDown(x: real, k: int): real
    decreases k
  {
    if k <= 0 then x else ShiftDown(x, k - 1) / 10.0
  }

  /** Shifting is multiplying and dividing by the power of ten that Power10 computes. */
  lemma {:induction false} ShiftIsPower(x: real, k: nat)
    ensures ShiftUp(x, k) == x * Pow10(k) as real
    ensures ShiftDown(x, k) == x / Pow10(k) as real
    decreases k
  {
    if k > 0 {
      ShiftIsPower(x, k - 1);
      var p := Pow10(k - 1) as real;
      assert Pow10(k) as real == 10.0 * p;
      assert x * p * 10.0 == x * (10.0 * p);
      assert x / p / 10.0 == x / (10.0 * p);
    }
  }

  lemma FracTimesTen(x: real)
    ensures 0.0 <= (x - x.Floor as real) * 10.0 < 10.0
  {
  }

  /**
    The digit at decimal place `place` after the point: the fraction of
    num·10^(place-1), times ten, floored; that is the ones digit of
    num·10^place.
   */
  function GetNumberOfPlaceAfterPoint(num: real, place: int): (d: int)
    ensures 0 <= d <= 9
    ensures place >= 1 ==> d == ShiftUp(num, place).Floor % 10
  {
    var n := ShiftUp(num, place - 1);
    FracTimesTen(n);
    PlaceDigit(n);
    ((n - n.Floor as real) * 10.0).Floor
  }

  /** The same digit rounded half to even on what lies behind it, so 10 when it rounds up from 9. */
  function RoundNumberOfPlaceAfterPoint(num: real, place: int): (d: int)
    ensures 0 <= d <= 10
    ensures place >= 1 ==> d == ShiftUp(num, place).Floor % 10 + RoundUp(ShiftUp(num, place))
  {
    var n := ShiftUp(num, place - 1);
    FracTimesTen(n);
    PlaceRound(n);
    RoundHalfEven((n - n.Floor as real) * 10.0)
  }

  /**
    The digit of num at the 10^digit place before the point: the fraction
    of num/10^(digit+1), times ten, floored; that is the ones digit of
    num/10^digit.
   */
  function GetNumberOfPlaceBeforePoint(num: real, digit: int): (d: int)
    ensures 0 <= d <= 9
    ensures digit >= 0 ==> d == ShiftDown(num, digit).Floor % 10
  {
    var n := ShiftDown(num, digit + 1);
    FracTimesTen(n);
    PlaceDigit(n);
    ((n - n.Floor as real) * 10.0).Floor
  }

  /** The same digit rounded half to even on what lies behind it. */
  function RoundNumberOfPlaceBeforePoint(num: real, digit: int): (d: int)
    ensures 0 <= d <= 10
    ensures digit >= 0 ==> d == ShiftDown(num, digit).Floor % 10 + RoundUp(ShiftDown(num, digit))
  {
    var n := ShiftDown(num, digit + 1);
    FracTimesTen(n);
    PlaceRound(n);
    RoundHalfEven((n - n.Floor as real) * 10.0)
  }

  // ---------------------------------------------------------------------
  // Shifting facts

  lemma {:induction false} ShiftUpAdd(x: real, a: nat, b: nat)
    ensures ShiftUp(x, a + b) == ShiftUp(ShiftUp(x, a), b)
    decreases b
  {
    if b > 0 {
      ShiftUpAdd(x, a, b - 1);
    }
  }

  lemma {:induction false} ShiftDownAdd(x: real, a: nat, b: nat)
    ensures ShiftDown(x, a + b) == ShiftDown(ShiftDown(x, a), b)
    decreases b
  {
    if b > 0 {
      ShiftDownAdd(x, a, b - 1);
    }
  }

  /** Shifting down undoes shifting up. */
  lemma {:induction false} ShiftDownUp(x: real, k: nat)
    ensures ShiftDown(ShiftUp(x, k), k) == x
    decreases k
  {
    if k > 0 {
      ShiftDownAdd(ShiftUp(x, k), 1, k - 1);
      ShiftDownUp(x, k - 1);
    }
  }

  /** A value below 10^b, shifted up by a places, stays below 10^(a+b). */
  lemma {:induction false} ShiftUpBound(x: real, a: nat, b: nat)
    requires x < Pow10(b) as real
    ensures ShiftUp(x, a) < Pow10(a + b) as real
    decreases a
  {
    if a > 0 {
      ShiftUpBound(x, a - 1, b);
    }
  }

  /** Flooring after shifting a non-negative value down is integer division by the power of ten. */
  lemma {:induction false} FloorShiftDown(x: real, k: nat)
    requires x >= 0.0
    ensures ShiftDown(x, k).Floor == x.Floor / Pow10(k)
    decreases k
  {
    if k > 0 {
      FloorShiftDown(x, k - 1);
      FloorDiv(ShiftDown(x, k - 1), 10);
      DivDiv(x.Floor, Pow10(k - 1), 10);
    }
  }

  // ---------------------------------------------------------------------
  // The digits written to the number slots

  /**
    Slot i's digit before carrying, as the two loops compute it: slot
    i < places holds decimal place places - i, rounded at the smallest
    place only; slot places + j holds the 10^j digit, every one of them
    rounded when there are no decimal places.
   */
  function RawDigit(num: real, places: nat, i: nat): (d: int)
    ensures 0 <= d <= 10
    ensures d == 10 ==> i == 0 || places == 0
  {
    if i < places then
      if i == 0 then RoundNumberOfPlaceAfterPoint(num, places - i) else GetNumberOfPlaceAfterPoint(num, places - i)
    else if places == 0 then RoundNumberOfPlaceBeforePoint(num, i - places)
    else GetNumberOfPlaceBeforePoint(num, i - places)
  }

  /**
    Slot i below `places` shows digit i of floor(num·10^places), and the
    smallest place (slot 0) is rounded half to even on what lies below it.
   */
  lemma RawDigitAfterPoint(num: real, places: nat, i: nat)
    requires num >= 0.0 && i < places
    ensures var n := ShiftUp(num, places);
      RawDigit(num, places, i) == DigitAt(n.Floor, i) + (if i == 0 then RoundUp(n) else 0)
  {
    var n := ShiftUp(num, places);
    if i == 0 {
      assert RawDigit(num, places, i) == n.Floor % 10 + RoundUp(n);
      assert DigitAt(n.Floor, 0) == n.Floor % 10 by {
        assert Pow10(0) == 1;
      }
    } else {
      assert RawDigit(num, places, i) == GetNumberOfPlaceAfterPoint(num, places - i);
      FractionDigitIsDigit(num, places, i);
    }
  }

  /**
    Slot places + i shows digit places + i of floor(num·10^places), with
    at least one place; with none, every integer digit i is rounded on
    its own remainder num / 10^i (the quirk listed as a finding).
   */
  lemma RawDigitBeforePoint(num: real, places: nat, i: nat)
    requires num >= 0.0
    ensures places >= 1 ==> RawDigit(num, places, places + i) == DigitAt(ShiftUp(num, places).Floor, places + i)
    ensures places == 0 ==> RawDigit(num, places, i) == DigitAt(num.Floor, i) + RoundUp(ShiftDown(num, i))
  {
    if places >= 1 {
      IntegerDigitIsDigit(num, places, places + i);
    } else {
      FloorShiftDown(num, i);
    }
  }

  /** The digits of the `places + before` number slots before carrying. */
  function RawDigits(num: real, places: nat, before: nat): (raw: seq<int>)
    ensures |raw| == places + before
    ensures forall i :: 0 <= i < |raw| ==> raw[i] == RawDigit(num, places, i)
    ensures AreRoundedDigits(raw)
  {
    seq(places + before, i requires 0 <= i => RawDigit(num, places, i))
  }

  /**
    The digits shown in the number slots with `places` decimal places
    and `before` digits before the point, smallest place first: the raw
    digits of all places + before slots with the carry rippled through.
   */
  function DecimalDigits(num: real, places: nat, before: nat): (ds: seq<int>)
    ensures AreDigits(ds)
    ensures places + before <= |ds| <= places + before + 1
    ensures |ds| == places + before + 1 ==> ds[places + before] == 1
    ensures ValueOf(ds) == ValueOf(RawDigits(num, places, before))
  {
    Ripple(RawDigits(num, places, before), false)
  }

  /**
    The digit as intended when there are no decimal places: only the ones
    digit is rounded, every higher one is floored, just as only the
    smallest decimal place is rounded otherwise.
   */
  function IntendedRawDigit(num: real, places: nat, i: nat): (d: int)
    ensures 0 <= d <= 10
  {
    if i < places then
      if i == 0 then RoundNumberOfPlaceAfterPoint(num, places - i) else GetNumberOfPlaceAfterPoint(num, places - i)
    else if i == 0 then RoundNumberOfPlaceBeforePoint(num, i - places)
    else GetNumberOfPlaceBeforePoint(num, i - places)
  }

  function IntendedRawDigits(num: real, places: nat, before: nat): (raw: seq<int>)
    ensures |raw| == places + before
    ensures forall i :: 0 <= i < |raw| ==> raw[i] == IntendedRawDigit(num, places, i)
    ensures AreRoundedDigits(raw)
  {
    seq(places + before, i requires 0 <= i => IntendedRawDigit(num, places, i))
  }

  /** The digits as intended, the final carry included. */
  function IntendedDigits(num: real, places: nat, before: nat): (ds: seq<int>)
    ensures AreDigits(ds)
    ensures places + before <= |ds| <= places + before + 1
  {
    Ripple(IntendedRawDigits(num, places, before), false)
  }

  /** With at least one decimal place the code as written and the intended digits agree. */
  lemma RawDigitsAsIntended(num: real, places: nat, before: nat)
    requires places >= 1
    ensures RawDigits(num, places, before) == IntendedRawDigits(num, places, before)
  {
  }

  lemma IntendedRawDigitIsDigit(num: real, places: nat, i: nat)
    requires num >= 0.0
    ensures var n := ShiftUp(num, places);
      IntendedRawDigit(num, places, i) == DigitAt(n.Floor, i) + (if i == 0 then RoundUp(n) else 0)
  {
    if i == 0 {
      assert ShiftDown(num, 0) == num == ShiftUp(num, 0);
    } else if i < places {
      FractionDigitIsDigit(num, places, i);
    } else {
      IntegerDigitIsDigit(num, places, i);
    }
  }

  /** The floored digit at decimal place places - i is digit i of floor(num·10^places). */
  lemma FractionDigitIsDigit(num: real, places: nat, i: nat)
    requires num >= 0.0 && i < places
    ensures GetNumberOfPlaceAfterPoint(num, places - i) == DigitAt(ShiftUp(num, places).Floor, i)
  {
    var n := ShiftUp(num, places);
    ShiftUpAdd(num, places - i, i);
    ShiftDownUp(ShiftUp(num, places - i), i);
    FloorShiftDown(n, i);
  }

  /** The floored digit at the 10^(i - places) place is digit i of floor(num·10^places). */
  lemma IntegerDigitIsDigit(num: real, places: nat, i: nat)
    requires num >= 0.0 && places <= i
    ensures GetNumberOfPlaceBeforePoint(num, i - places) == DigitAt(ShiftUp(num, places).Floor, i)
  {
    var n := ShiftUp(num, places);
    ShiftDownAdd(n, places, i - places);
    ShiftDownUp(num, places);
    FloorShiftDown(n, i);
  }

  /** Covering num's integer part with `before` digits, the intended slot digits read as num·10^places rounded half to even. */
  lemma IntendedRawValue(num: real, places: nat, before: nat)
    requires num >= 0.0 && before >= 1 && num < Pow10(before) as real
    ensures ValueOf(IntendedRawDigits(num, places, before)) == RoundHalfEven(ShiftUp(num, places))
  {
    var n := ShiftUp(num, places);
    var f := n.Floor;
    var raw := IntendedRawDigits(num, places, before);
    assert 0 <= f < Pow10(places + before) by {
      ShiftUpBound(num, places, before);
      assert f as real <= n;
    }
    forall i | 0 <= i < places + before
      ensures raw[i] == DigitAt(f, i) + (if i == 0 then RoundUp(n) else 0)
    {
      IntendedRawDigitIsDigit(num, places, i);
    }
    BumpedDigitsValue(f, RoundUp(n), places + before, raw);
  }

  /**
    With `before` digits enough to hold the integer part of num, the
    intended digits, carry included, are exactly the digits of
    num·10^places rounded half to even, with one extra leading digit
    exactly when the rounding carries past the top digit.
   */
  lemma IntendedDigitsValue(num: real, places: nat, before: nat)
    requires num >= 0.0 && before >= 1 && num < Pow10(before) as real
    ensures var ds := IntendedDigits(num, places, before);
            var r := RoundHalfEven(ShiftUp(num, places));
      && r >= 0
      && ValueOf(ds) == r
      && ds == DigitsOf(r, |ds|)
      && (|ds| == places + before + 1 <==> r >= Pow10(places + before))
  {
    var raw := IntendedRawDigits(num, places, before);
    IntendedRawValue(num, places, before);
    RippleValue(raw, places + before, ValueOf(raw));
  }

  /** The rippled digits of a sequence of known length and value spell that value, with a leading 1 exactly on overflow. */
  lemma RippleValue(raw: seq<int>, k: nat, r: int)
    requires AreRoundedDigits(raw) && |raw| == k && ValueOf(raw) == r
    ensures var ds := Ripple(raw, false);
      && r >= 0
      && ValueOf(ds) == r
      && ds == DigitsOf(r, |ds|)
      && (|ds| == k + 1 <==> r >= Pow10(k))
  {
    DigitsOfValue(Ripple(raw, false));
    RippleGrowsIffOverflow(raw);
  }

  /**
    With at least one decimal place, the digits shown are exactly those
    of num·10^places rounded half to even (1.005 at two places shows
    1.00), with one extra leading digit exactly when the rounding carries
    past the top digit.
   */
  lemma DecimalDigitsValue(num: real, places: nat, before: nat)
    requires num >= 0.0 && places >= 1 && before >= 1 && num < Pow10(before) as real
    ensures var ds := DecimalDigits(num, places, before);
            var r := RoundHalfEven(ShiftUp(num, places));
      && r >= 0
      && ValueOf(ds) == r
      && ds == DigitsOf(r, |ds|)
      && (|ds| == places + before + 1 <==> r >= Pow10(places + before))
  {
    RawDigitsAsIntended(num, places, before);
    IntendedDigitsValue(num, places, before);
  }

  /** A value with no more than `places` decimals is shown exactly: the digits shifted back down are num. */
  lemma DecimalExact(num: real, places: nat, before: nat)
    requires num >= 0.0 && places >= 1 && before >= 1 && num < Pow10(before) as real
    requires ShiftUp(num, places).Floor as real == ShiftUp(num, places)
    ensures ShiftDown(ValueOf(DecimalDigits(num, places, before)) as real, places) == num
  {
    var n := ShiftUp(num, places);
    DecimalDigitsValue(num, places, before);
    assert RoundHalfEven(n) == n.Floor;
    ShiftDownUp(num, places);
  }

  /** Ties go to the even digit: 1.005 with two decimal places shows 1.00. */
  lemma HalfToEvenAtSmallestPlace()
    ensures DecimalDigits(1.005, 2, 1) == [0, 0, 1]
  {
    assert ShiftUp(1.005, 2) == 100.5 && ShiftUp(1.005, 1) == 10.05;
    assert RoundHalfEven(100.5) == 100;
    var raw := RawDigits(1.005, 2, 1);
    assert raw == [0, 0, 1];
    assert Ripple([1], false) == [1];
    assert Ripple([0, 1], false) == [0] + Ripple([1], false);
  }

  /** A carry out of the top digit adds a digit: 9.995 with two decimal places shows 10.00. */
  lemma CarryAddsLeadingDigit()
    ensures DecimalDigits(9.995, 2, 1) == [0, 0, 0, 1]
  {
    assert ShiftUp(9.995, 2) == 999.5 && ShiftUp(9.995, 1) == 99.95;
    assert RoundHalfEven(999.5) == 1000;
    var raw := RawDigits(9.995, 2, 1);
    assert raw == [10, 9, 9];
    assert Ripple([9], true) == [0, 1];
    assert Ripple([9, 9], true) == [0] + Ripple([9], true);
  }

  /**
    With no decimal places every integer digit is rounded on its own
    remainder: 15 shows 25, although 15 rounds to 15; the intended digits
    show 15.
   */
  lemma NoPlacesRoundsEveryDigit()
    ensures DecimalDigits(15.0, 0, 2) == [5, 2]
    ensures ValueOf(DecimalDigits(15.0, 0, 2)) == 25 != RoundHalfEven(ShiftUp(15.0, 0))
    ensures IntendedDigits(15.0, 0, 2) == [5, 1]
  {
    assert ShiftDown(15.0, 1) == 1.5;
    assert RoundHalfEven(1.5) == 2 && RoundHalfEven(15.0) == 15;
    assert RawDigits(15.0, 0, 2) == [5, 2];
    assert IntendedRawDigits(15.0, 0, 2) == [5, 1];
    assert Ripple([2], false) == [2] && Ripple([1], false) == [1];
    assert Ripple([5, 2], false) == [5] + Ripple([2], false);
    assert Ripple([5, 1], false) == [5] + Ripple([1], false);
  }

  /**
    With no decimal places a carry can run off the top although the value
    does not round up to the next power of ten: 95 rounds to 95, yet its
    tens digit 9.5 is rounded to 10 and 95 shows 105.
   */
  lemma NoPlacesCarriesOut()
    ensures DecimalDigits(95.0, 0, 2) == [5, 0, 1]
    ensures RoundHalfEven(ShiftUp(95.0, 0)) == 95 < Pow10(2)
  {
    assert ShiftDown(95.0, 1) == 9.5;
    assert RoundHalfEven(9.5) == 10 && RoundHalfEven(95.0) == 95;
    assert RawDigits(95.0, 0, 2) == [5, 10];
    assert Ripple([10], false) == [0, 1];
    assert Ripple([5, 10], false) == [5] + Ripple([10], false);
  }
}
