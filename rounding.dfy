/** The number formatting the source relies on, stated on the exact value
    of a number: JavaScript's `Math.round` and `Number.prototype.toFixed`
    (read back with `parseFloat`), and Python's `round(x, ndigits)`.
    Each library rounds the exact value of the double it is given, so the
    definitions below are theirs; the one step left out is the final
    conversion of the decimal result back to the nearest double. */
module Rounding {

  /** 10 to the power `d`. */
  function Pow10(d: nat): (p: nat)
    ensures p >= 1
  {
    if d == 0 then 1 else 10 * Pow10(d - 1)
  }

  /** `Math.round(x)`: the integer nearest to `x`, a half going up toward +∞. */
  function MathRound(x: real): (r: int)
    ensures x - 0.5 < r as real <= x + 0.5
  {
    (x + 0.5).Floor
  }

  /** The integer nearest to `y`, a half going away from zero: the digits
      `toFixed` prints, once `y` is the value scaled by 10^d (the sign is
      set aside first). */
  function RoundHalfAway(y: real): (n: int)
    ensures y >= 0.0 ==> y - 0.5 < n as real <= y + 0.5 && n >= 0
    ensures y < 0.0 ==> y - 0.5 <= n as real < y + 0.5 && n <= 0
  {
    if y < 0.0 then -((-y + 0.5).Floor) else (y + 0.5).Floor
  }

  /** The integer nearest to `y`, a half going to the even neighbour: the
      rule of Python's `round`. */
  function RoundHalfEven(y: real): (n: int)
    ensures y - 0.5 <= n as real <= y + 0.5
    ensures n % 2 != 0 ==> y - 0.5 < n as real < y + 0.5
  {
    var f := y.Floor;
    var frac := y - f as real;
    if frac > 0.5 then f + 1
    else if frac < 0.5 then f
    else if f % 2 == 0 then f
    else f + 1
  }

  /** `x` scaled by 10^d, one factor of ten at a time (equal to
      `x * Pow10(d)`, see `ScaleIsProduct`). */
  function Scale(x: real, d: nat): real
    decreases d
  {
    if d == 0 then x else Scale(10.0 * x, d - 1)
  }

  /** `y` divided by 10^d, one factor of ten at a time. */
  function Unscale(y: real, d: nat): real {
    if d == 0 then y else Unscale(y, d - 1) / 10.0
  }

  /** `r` has at most `d` decimals: scaled by 10^d it is an integer. */
  predicate HasDecimals(r: real, d: nat) {
    Scale(r, d).Floor as real == Scale(r, d)
  }

  /** `parseFloat(x.toFixed(d))` on the exact value: the number with `d`
      decimals nearest to `x`, a tie going away from zero (the strict bound
      on the side of zero rules the nearer-to-zero neighbour out). */
  function ToFixed(x: real, d: nat): (r: real)
    ensures HasDecimals(r, d)
    ensures x >= 0.0 ==> Scale(x, d) - 0.5 < Scale(r, d) <= Scale(x, d) + 0.5
    ensures x < 0.0 ==> Scale(x, d) - 0.5 <= Scale(r, d) < Scale(x, d) + 0.5
    ensures 0.0 <= x <= 100.0 ==> 0.0 <= r <= 100.0
  {
    var n := RoundHalfAway(Scale(x, d));
    ScaleUnscale(n as real, d);
    ScaleSign(x, d);
    RoundedPercent(x, d, n);
    Unscale(n as real, d)
  }

  /** Python's `round(x, d)` on the exact value: the number with `d`
      decimals nearest to `x`, a tie going to the even last digit (an odd
      last digit only when it is strictly the nearest). */
  function PyRound(x: real, d: nat): (r: real)
    ensures HasDecimals(r, d)
    ensures Scale(x, d) - 0.5 <= Scale(r, d) <= Scale(x, d) + 0.5
    ensures Scale(r, d).Floor % 2 != 0 ==> Scale(x, d) - 0.5 < Scale(r, d) < Scale(x, d) + 0.5
    ensures 0.0 <= x <= 100.0 ==> 0.0 <= r <= 100.0
  {
    var n := RoundHalfEven(Scale(x, d));
    ScaleUnscale(n as real, d);
    RoundedPercent(x, d, n);
    Unscale(n as real, d)
  }

  /** Rounding half to even keeps order. */
  lemma RoundHalfEvenMonotone(a: real, b: real)
    requires a <= b
    ensures RoundHalfEven(a) <= RoundHalfEven(b)
  {
  }

  /** `PyRound` keeps order: a larger value never rounds to less. */
  lemma {:induction false} PyRoundMonotone(a: real, b: real, d: nat)
    requires a <= b
    ensures PyRound(a, d) <= PyRound(b, d)
  {
    ScaleMonotone(a, b, d);
    RoundHalfEvenMonotone(Scale(a, d), Scale(b, d));
    UnscaleMonotone(RoundHalfEven(Scale(a, d)) as real, RoundHalfEven(Scale(b, d)) as real, d);
  }

  /** Scaling by ten `d` times is multiplying by 10^d. */
  lemma {:induction false} ScaleIsProduct(x: real, d: nat)
    ensures Scale(x, d) == x * Pow10(d) as real
    decreases d
  {
    if d > 0 {
      ScaleIsProduct(10.0 * x, d - 1);
      assert (10 * Pow10(d - 1)) as real == 10.0 * Pow10(d - 1) as real;
    }
  }

  /** Scaling keeps order, strictly and not. */
  lemma {:induction false} ScaleMonotone(a: real, b: real, d: nat)
    ensures a <= b ==> Scale(a, d) <= Scale(b, d)
    ensures a < b ==> Scale(a, d) < Scale(b, d)
    decreases d
  {
    if d > 0 {
      ScaleMonotone(10.0 * a, 10.0 * b, d - 1);
    }
  }

  /** Scaling keeps the sign. */
  lemma {:induction false} ScaleSign(x: real, d: nat)
    ensures x >= 0.0 <==> Scale(x, d) >= 0.0
  {
    ScaleMonotone(0.0, x, d);
    ScaleMonotone(x, 0.0, d);
    ScaleZero(d);
  }

  /** Zero scales to zero. */
  lemma {:induction false} ScaleZero(d: nat)
    ensures Scale(0.0, d) == 0.0
  {
    if d > 0 {
      ScaleZero(d - 1);
    }
  }

  /** Dividing by 10^d and scaling back gives the value back. */
  lemma {:induction false} ScaleUnscale(y: real, d: nat)
    ensures Scale(Unscale(y, d), d) == y
  {
    if d > 0 {
      ScaleUnscale(y, d - 1);
      assert 10.0 * Unscale(y, d) == Unscale(y, d - 1);
    }
  }

  /** Scaling by 10^d and dividing back gives the value back. */
  lemma {:induction false} UnscaleScale(x: real, d: nat)
    ensures Unscale(Scale(x, d), d) == x
    decreases d
  {
    if d > 0 {
      UnscaleScale(10.0 * x, d - 1);
      assert Unscale(Scale(x, d), d) == Unscale(Scale(10.0 * x, d - 1), d - 1) / 10.0;
    }
  }

  /** Dividing by 10^d keeps order. */
  lemma {:induction false} UnscaleMonotone(a: real, b: real, d: nat)
    requires a <= b
    ensures Unscale(a, d) <= Unscale(b, d)
  {
    if d > 0 {
      UnscaleMonotone(a, b, d - 1);
    }
  }

  /** An integer scaled by 10^d is an integer. */
  lemma {:induction false} ScaleInteger(k: int, d: nat)
    ensures Scale(k as real, d).Floor as real == Scale(k as real, d)
    decreases d
  {
    if d > 0 {
      assert 10.0 * k as real == (10 * k) as real;
      ScaleInteger(10 * k, d - 1);
    }
  }

  /** A percentage rounded to `d` decimals, by either rule, is a percentage:
      any integer within half of x·10^d, divided by 10^d, stays in [0, 100]
      when `x` does. */
  lemma {:induction false} RoundedPercent(x: real, d: nat, n: int)
    requires Scale(x, d) - 0.5 <= n as real <= Scale(x, d) + 0.5
    ensures 0.0 <= x <= 100.0 ==> 0.0 <= Unscale(n as real, d) <= 100.0
  {
    if 0.0 <= x <= 100.0 {
      ScaleMonotone(0.0, x, d);
      ScaleMonotone(x, 100.0, d);
      ScaleZero(d);
      ScaleInteger(100, d);
      var top := Scale(100.0, d);
      var t := top.Floor;
      assert t as real == top;
      assert 0 <= n <= t;
      UnscaleMonotone(0.0, n as real, d);
      UnscaleMonotone(n as real, top, d);
      UnscaleScale(0.0, d);
      UnscaleScale(100.0, d);
    }
  }

  /** Decimal digits of a natural number, most significant first. */
  function NatToString(n: nat): (s: string)
    ensures |s| >= 1
    ensures forall i | 0 <= i < |s| :: '0' <= s[i] <= '9'
  {
    var digit := ['0' + (n % 10) as char];
    if n < 10 then digit else NatToString(n / 10) + digit
  }

  /** `s` with leading zeros up to length `w`. */
  function PadZeros(s: string, w: nat): (r: string)
    ensures |r| >= w && |r| >= |s|
    decreases w - |s|
  {
    if |s| >= w then s else PadZeros("0" + s, w)
  }

  /** The text `x.toFixed(d)` produces for `d >= 1` (numbers below 10^21). */
  function ToFixedText(x: real, d: nat): (s: string)
    requires d >= 1
    ensures |s| >= 3
  {
    var magnitude := if x < 0.0 then -x else x;
    var scaled := Scale(magnitude, d);
    ScaleSign(magnitude, d);
    var body := DecimalText(RoundHalfAway(scaled), d);
    if x < 0.0 then "-" + body else body
  }

  /** `n / 10^d` written with exactly `d` decimals. */
  function DecimalText(n: nat, d: nat): (s: string)
    requires d >= 1
    ensures |s| >= 3
  {
    var p := Pow10(d);
    var (whole, frac) := QuotRem(n, p);
    NatToString(whole) + "." + PadZeros(NatToString(frac), d)
  }

  /** Whole part and remainder of `n` by a positive `p`. */
  function QuotRem(n: nat, p: nat): (qr: (nat, nat))
    requires p >= 1
    ensures qr.0 * p + qr.1 == n && qr.1 < p
  {
    if n < p then (0, n)
    else
      var (q, r) := QuotRem(n - p, p);
      (q + 1, r)
  }
}
