/**
  The arithmetic both decomposers rest on: powers of ten, the decimal
  digits of a natural number (least significant first), the value a
  digit sequence denotes, floor and round-half-to-even on exact
  rationals, and the single-carry ripple that turns rounded digits back
  into digits.
 */
module Numerals {

  /** 10^k. */
  function Pow10(k: nat): (r: nat)
    ensures r >= 1
  {
    if k == 0 then 1 else 10 * Pow10(k - 1)
  }

  /** b^e by repeated multiplication. */
  function Pow(b: int, e: nat): int
  {
    if e == 0 then 1 else Pow(b, e - 1) * b
  }

  lemma {:induction false} PowTenIsPow10(k: nat)
    ensures Pow(10, k) == Pow10(k)
  {
    if k > 0 {
      PowTenIsPow10(k - 1);
    }
  }

  lemma {:induction false} Pow10Add(a: nat, b: nat)
    ensures Pow10(a + b) == Pow10(a) * Pow10(b)
    decreases b
  {
    if b > 0 {
      Pow10Add(a, b - 1);
      calc {
        Pow10(a + b);
        10 * Pow10(a + b - 1);
        10 * (Pow10(a) * Pow10(b - 1));
        Pow10(a) * (10 * Pow10(b - 1));
      }
    }
  }

  lemma {:induction false} Pow10Monotone(a: nat, b: nat)
    requires a <= b
    ensures Pow10(a) <= Pow10(b)
    decreases b
  {
    if a < b {
      Pow10Monotone(a, b - 1);
    }
  }

  /** The number of decimal digits of n; 0 has one digit. */
  function DigitCount(n: nat): (r: nat)
    ensures r >= 1
    ensures n < Pow10(r)
    ensures r > 1 ==> Pow10(r - 1) <= n
  {
    if n < 10 then 1 else 1 + DigitCount(n / 10)
  }

  /** DigitCount(n) is the least k >= 1 with n < 10^k. */
  lemma DigitCountLeast(n: nat, k: nat)
    requires k >= 1 && n < Pow10(k)
    ensures DigitCount(n) <= k
  {
    var r := DigitCount(n);
    if r > k {
      Pow10Monotone(k, r - 1);
    }
  }

  // ---------------------------------------------------------------------
  // Integer division facts

  lemma DivModUnique(n: int, m: int, q: int, r: int)
    requires m > 0 && 0 <= r < m && n == q * m + r
    ensures n / m == q && n % m == r
  {
    var q', r' := n / m, n % m;
    assert n == q' * m + r';
    assert (q - q') * m == r' - r;
    MulSign(q - q', m);
  }

  lemma MulSign(a: int, m: int)
    requires m > 0
    ensures a >= 1 ==> a * m >= m
    ensures a <= -1 ==> a * m <= -m
  {
  }

  function Abs(a: int): nat
  {
    if a >= 0 then a else -a
  }

  /** Integer division rounding toward zero, as C# divides a long. */
  function TruncDiv(a: int, b: int): (q: int)
    requires b > 0
    ensures Abs(q) == Abs(a) / b
    ensures a >= 0 ==> q >= 0
    ensures a <= 0 ==> q <= 0
  {
    if a >= 0 then a / b else -((-a) / b)
  }

  lemma DivDiv(n: nat, a: nat, b: nat)
    requires a >= 1 && b >= 1
    ensures n / a / b == n / (a * b)
  {
    var q, r := n / a, n % a;
    var q2, r2 := q / b, q % b;
    assert n == a * q + r;
    assert q == b * q2 + r2;
    assert n == q2 * (a * b) + (a * r2 + r);
    assert a * r2 <= a * (b - 1);
    DivModUnique(n, a * b, q2, a * r2 + r);
  }

  // ---------------------------------------------------------------------
  // Digits of a natural number, least significant first

  /** The decimal digit of n at position k (k = 0 is the ones digit). */
  function DigitAt(n: nat, k: nat): (d: int)
    ensures 0 <= d <= 9
  {
    (n / Pow10(k)) % 10
  }

  /** The first `len` digits of n, ones digit first. */
  function DigitsOf(n: nat, len: nat): (ds: seq<int>)
    ensures |ds| == len
    ensures forall k :: 0 <= k < len ==> ds[k] == DigitAt(n, k)
  {
    seq(len, k requires 0 <= k => DigitAt(n, k))
  }

  /** The value a digit sequence (ones digit first) stands for. */
  function ValueOf(ds: seq<int>): int
  {
    if |ds| == 0 then 0 else ds[0] + 10 * ValueOf(ds[1..])
  }

  /** Every element is a digit. */
  ghost predicate AreDigits(ds: seq<int>)
  {
    forall i :: 0 <= i < |ds| ==> 0 <= ds[i] <= 9
  }

  lemma DigitAtNext(n: nat, k: nat)
    ensures DigitAt(n, k + 1) == DigitAt(n / 10, k)
  {
    DivDiv(n, 10, Pow10(k));
  }

  /** A digit beyond the length of n is 0. */
  lemma DigitAtBeyond(n: nat, k: nat)
    requires n < Pow10(k)
    ensures DigitAt(n, k) == 0
  {
    DivModUnique(n, Pow10(k), 0, n);
  }

  /** Reading back the digits of n gives n, as long as they cover it. */
  lemma {:induction false} ValueOfDigits(n: nat, len: nat)
    requires n < Pow10(len)
    ensures ValueOf(DigitsOf(n, len)) == n
    decreases len
  {
    if len > 0 {
      var ds := DigitsOf(n, len);
      var tail := DigitsOf(n / 10, len - 1);
      forall k | 0 <= k < len - 1
        ensures ds[1..][k] == tail[k]
      {
        DigitAtNext(n, k);
      }
      assert ds[1..] == tail;
      ValueOfDigits(n / 10, len - 1);
      assert ds[0] == n % 10;
    }
  }

  /** Raising the first digit by u raises the value by u. */
  lemma ValueOfBumped(ds: seq<int>, u: int)
    requires |ds| >= 1
    ensures ValueOf(ds[0 := ds[0] + u]) == ValueOf(ds) + u
  {
    assert ds[0 := ds[0] + u][1..] == ds[1..];
  }

  /** A digit sequence is the digit expansion of its own value. */
  lemma {:induction false} DigitsOfValue(ds: seq<int>)
    requires AreDigits(ds)
    ensures ValueOf(ds) >= 0 && DigitsOf(ValueOf(ds), |ds|) == ds
    decreases |ds|
  {
    ValueOfBounds(ds);
    if |ds| > 0 {
      var v := ValueOf(ds);
      var rest := ds[1..];
      DigitsOfValue(rest);
      DivModUnique(v, 10, ValueOf(rest), ds[0]);
      forall k | 0 <= k < |ds|
        ensures DigitAt(v, k) == ds[k]
      {
        if k > 0 {
          DigitAtNext(v, k - 1);
        }
      }
    }
  }

  /** A sequence of `len` digits denotes a number below 10^len. */
  lemma {:induction false} ValueOfBounds(ds: seq<int>)
    requires AreDigits(ds)
    ensures 0 <= ValueOf(ds) < Pow10(|ds|)
    decreases |ds|
  {
    if |ds| > 0 {
      ValueOfBounds(ds[1..]);
    }
  }

  // ---------------------------------------------------------------------
  // Floor and rounding on exact rationals

  lemma FloorShift(x: real, z: int)
    ensures (x + z as real).Floor == x.Floor + z
  {
  }

  /** Dividing by a positive whole number commutes with taking the floor. */
  lemma FloorDiv(x: real, p: nat)
    requires p >= 1
    ensures (x / p as real).Floor == x.Floor / p
  {
    var f := x.Floor;
    var q, r := f / p, f % p;
    var pr := p as real;
    assert f == q * p + r && 0 <= r < p;
    assert q * p <= f && f + 1 <= (q + 1) * p;
    RealOfProduct(q, p);
    RealOfProduct(q + 1, p);
    assert q as real * pr <= x < (q + 1) as real * pr;
    DivideBounds(x, q as real, (q + 1) as real, pr);
    FloorUnique(x / pr, q);
  }

  lemma RealOfProduct(a: int, b: int)
    ensures (a * b) as real == a as real * b as real
  {
  }

  /** Bounds on x carry over to x / p. */
  lemma DivideBounds(x: real, lo: real, hi: real, p: real)
    requires p > 0.0 && lo * p <= x < hi * p
    ensures lo <= x / p < hi
  {
    assert x == (x / p) * p;
    CancelPositive(lo, x / p, p);
    CancelPositive(x / p, hi, p);
  }

  /** A whole number at most y and more than y - 1 is y's floor. */
  lemma FloorUnique(y: real, q: int)
    requires q as real <= y < (q + 1) as real
    ensures y.Floor == q
  {
  }

  lemma CancelPositive(a: real, b: real, p: real)
    requires p > 0.0
    ensures a * p <= b * p ==> a <= b
    ensures a * p < b * p ==> a < b
  {
  }

  /** x rounded to the nearest whole number, ties to the even neighbour (Math.Round on decimal). */
  function RoundHalfEven(x: real): (r: int)
    ensures x - 0.5 <= r as real <= x + 0.5
    ensures (r as real == x - 0.5 || r as real == x + 0.5) ==> r % 2 == 0
  {
    var f := x.Floor;
    var frac := x - f as real;
    if frac < 0.5 then f
    else if frac > 0.5 then f + 1
    else if f % 2 == 0 then f
    else f + 1
  }

  /** The two properties of RoundHalfEven determine it. */
  lemma RoundHalfEvenUnique(x: real, r: int)
    requires x - 0.5 <= r as real <= x + 0.5
    requires (r as real == x - 0.5 || r as real == x + 0.5) ==> r % 2 == 0
    ensures r == RoundHalfEven(x)
  {
  }

  /** Shifting by an even whole number commutes with rounding half to even. */
  lemma RoundShift(x: real, z: int)
    requires z % 2 == 0
    ensures RoundHalfEven(x + z as real) == RoundHalfEven(x) + z
  {
    var r := RoundHalfEven(x) + z;
    assert (r as real == (x + z as real) - 0.5 || r as real == (x + z as real) + 0.5) ==> r % 2 == 0;
    RoundHalfEvenUnique(x + z as real, r);
  }

  /** How much rounding adds to the floor: 0 or 1. */
  function RoundUp(x: real): (u: int)
    ensures u == 0 || u == 1
  {
    RoundHalfEven(x) - x.Floor
  }

  /** The digits of f, with u added to the lowest, read back as f + u. */
  lemma BumpedDigitsValue(f: nat, u: int, len: nat, bumped: seq<int>)
    requires f < Pow10(len) && len >= 1 && |bumped| == len
    requires forall i :: 0 <= i < len ==> bumped[i] == DigitAt(f, i) + (if i == 0 then u else 0)
    ensures ValueOf(bumped) == f + u
  {
    var ds := DigitsOf(f, len);
    assert bumped == ds[0 := ds[0] + u];
    ValueOfDigits(f, len);
    ValueOfBumped(ds, u);
  }

  /** The floor of 10x is ten times the floor of x plus the digit after the point. */
  lemma FloorTimesTen(x: real)
    ensures (x * 10.0).Floor / 10 == x.Floor
    ensures (x * 10.0).Floor - 10 * x.Floor == (x * 10.0).Floor % 10
  {
    FloorDiv(x * 10.0, 10);
    assert x * 10.0 / 10 as real == x;
  }

  /** The digit in front of the point of 10x, read off the fraction of x. */
  lemma PlaceDigit(x: real)
    ensures ((x - x.Floor as real) * 10.0).Floor == (x * 10.0).Floor % 10
  {
    var f := x.Floor;
    var y := x * 10.0;
    assert (x - f as real) * 10.0 == y + (-10 * f) as real;
    FloorShift(y, -10 * f);
    FloorTimesTen(x);
  }

  lemma EvenTens(f: int)
    ensures (-10 * f) % 2 == 0
  {
    DivModUnique(-10 * f, 2, -5 * f, 0);
  }

  /** The same digit, rounded half to even on the remainder behind it. */
  lemma PlaceRound(x: real)
    ensures RoundHalfEven((x - x.Floor as real) * 10.0) == (x * 10.0).Floor % 10 + RoundUp(x * 10.0)
  {
    var f := x.Floor;
    var y := x * 10.0;
    assert (x - f as real) * 10.0 == y + (-10 * f) as real;
    EvenTens(f);
    RoundShift(y, -10 * f);
    FloorTimesTen(x);
    assert RoundUp(y) == RoundHalfEven(y) - y.Floor;
  }

  // ---------------------------------------------------------------------
  // Carry propagation

  /**
    One step of the carry chain: add the incoming carry to a digit that
    may have been rounded up to 10, and wrap it if it exceeds 9.
   */
  function CarryStep(number: int, carryUp: bool): (r: (int, bool))
    requires 0 <= number <= 10
    ensures 0 <= r.0 <= 9
    ensures r.0 + (if r.1 then 10 else 0) == number + (if carryUp then 1 else 0)
    ensures r.1 <==> number + (if carryUp then 1 else 0) > 9
  {
    var n := if carryUp then number + 1 else number;
    if n > 9 then (n - 10, true) else (n, false)
  }

  /** Every element lies in [0, 10]: a digit, or a digit rounded up to 10. */
  ghost predicate AreRoundedDigits(ds: seq<int>)
  {
    forall i :: 0 <= i < |ds| ==> 0 <= ds[i] <= 10
  }

  /**
    The digits shown for the rounded digits `raw` (ones first) when a
    carry `carryUp` comes in below them: one carry ripples upward, and a
    carry out of the last digit becomes one extra leading 1.
   */
  function Ripple(raw: seq<int>, carryUp: bool): (out: seq<int>)
    requires AreRoundedDigits(raw)
    ensures AreDigits(out)
    ensures |raw| <= |out| <= |raw| + 1
    ensures |out| == |raw| + 1 ==> out[|raw|] == 1
    ensures ValueOf(out) == ValueOf(raw) + (if carryUp then 1 else 0)
    decreases |raw|
  {
    if |raw| == 0 then
      (if carryUp then [1] else [])
    else
      var step := CarryStep(raw[0], carryUp);
      var rest := Ripple(raw[1..], step.1);
      assert ([step.0] + rest)[1..] == rest;
      [step.0] + rest
  }

  /**
    The digits written and the carry left after the first k steps of the
    carry chain, as a loop over the slots computes them.
   */
  function CarryPrefix(raw: seq<int>, k: nat): (r: (seq<int>, bool))
    requires AreRoundedDigits(raw) && k <= |raw|
    ensures |r.0| == k && AreDigits(r.0)
  {
    if k == 0 then ([], false)
    else
      var prev := CarryPrefix(raw, k - 1);
      var step := CarryStep(raw[k - 1], prev.1);
      (prev.0 + [step.0], step.1)
  }

  /** One more slot of the carry chain. */
  lemma CarryPrefixNext(raw: seq<int>, k: nat)
    requires AreRoundedDigits(raw) && k < |raw|
    ensures var prev := CarryPrefix(raw, k);
            var step := CarryStep(raw[k], prev.1);
            CarryPrefix(raw, k + 1) == (prev.0 + [step.0], step.1)
  {
  }

  /** Later slots leave the digits already written unchanged. */
  lemma {:induction false} CarryPrefixPrefix(raw: seq<int>, j: nat, k: nat)
    requires AreRoundedDigits(raw) && j <= k <= |raw|
    ensures CarryPrefix(raw, k).0[..j] == CarryPrefix(raw, j).0
    decreases k
  {
    if k == j {
      assert CarryPrefix(raw, k).0[..j] == CarryPrefix(raw, k).0;
    } else {
      CarryPrefixPrefix(raw, j, k - 1);
      assert CarryPrefix(raw, k).0[..j] == CarryPrefix(raw, k - 1).0[..j];
    }
  }

  /** One step of the carry chain peels the next digit off the ripple. */
  lemma RippleStep(raw: seq<int>, k: nat, carryUp: bool)
    requires AreRoundedDigits(raw) && k < |raw|
    ensures var step := CarryStep(raw[k], carryUp);
      Ripple(raw[k..], carryUp) == [step.0] + Ripple(raw[k + 1..], step.1)
  {
    assert raw[k..][1..] == raw[k + 1..];
  }

  /**
    The digits a loop has written after k steps, followed by the ripple
    of the rest under the carry it holds, are the whole ripple.
   */
  lemma {:induction false} CarryPrefixRipple(raw: seq<int>, k: nat)
    requires AreRoundedDigits(raw) && k <= |raw|
    ensures Ripple(raw, false) == CarryPrefix(raw, k).0 + Ripple(raw[k..], CarryPrefix(raw, k).1)
  {
    if k == 0 {
      assert raw[0..] == raw;
      assert CarryPrefix(raw, 0).0 == [];
      assert [] + Ripple(raw, false) == Ripple(raw, false);
    } else {
      var prev := CarryPrefix(raw, k - 1);
      var step := CarryStep(raw[k - 1], prev.1);
      var rest := Ripple(raw[k..], step.1);
      CarryPrefixRipple(raw, k - 1);
      RippleStep(raw, k - 1, prev.1);
      assert CarryPrefix(raw, k) == (prev.0 + [step.0], step.1);
      calc {
        Ripple(raw, false);
        prev.0 + Ripple(raw[k - 1..], prev.1);
        prev.0 + ([step.0] + rest);
        { SeqAssoc(prev.0, [step.0], rest); }
        (prev.0 + [step.0]) + rest;
      }
    }
  }

  lemma SeqAssoc<T>(a: seq<T>, b: seq<T>, c: seq<T>)
    ensures a + (b + c) == (a + b) + c
  {
  }

  /** After the last step only the final carry remains to be written, as a leading 1. */
  lemma CarryPrefixComplete(raw: seq<int>)
    requires AreRoundedDigits(raw)
    ensures var post := CarryPrefix(raw, |raw|);
      Ripple(raw, false) == post.0 + (if post.1 then [1] else [])
  {
    CarryPrefixRipple(raw, |raw|);
    assert raw[|raw|..] == [];
  }

  /** The ripple needs an extra leading digit exactly when the rounded value no longer fits. */
  lemma {:induction false} RippleGrowsIffOverflow(raw: seq<int>)
    requires AreRoundedDigits(raw)
    ensures |Ripple(raw, false)| == |raw| + 1 <==> ValueOf(raw) >= Pow10(|raw|)
  {
    var out := Ripple(raw, false);
    if |out| == |raw| {
      ValueOfBounds(out);
    } else {
      var low := out[..|raw|];
      assert AreDigits(low);
      ValueOfBounds(low);
      ValueOfSplit(out, |raw|);
      assert out[|raw|..] == [1];
      assert ValueOf([1]) == 1;
    }
  }

  /** The value of a digit sequence splits at any position. */
  lemma {:induction false} ValueOfSplit(ds: seq<int>, k: nat)
    requires k <= |ds|
    ensures ValueOf(ds) == ValueOf(ds[..k]) + Pow10(k) * ValueOf(ds[k..])
    decreases k
  {
    if k > 0 {
      ValueOfSplit(ds[1..], k - 1);
      assert ds[1..][..k - 1] == ds[..k][1..];
      assert ds[1..][k - 1..] == ds[k..];
      calc {
        ValueOf(ds);
        ds[0] + 10 * ValueOf(ds[1..]);
        ds[0] + 10 * (ValueOf(ds[..k][1..]) + Pow10(k - 1) * ValueOf(ds[k..]));
        ds[0] + 10 * ValueOf(ds[..k][1..]) + 10 * Pow10(k - 1) * ValueOf(ds[k..]);
        ValueOf(ds[..k]) + Pow10(k) * ValueOf(ds[k..]);
      }
    } else {
      assert ds[..0] == [] && ds[0..] == ds;
    }
  }
}
