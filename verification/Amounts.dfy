/**
 Amount and status checks of the two payment gateways
 (billing/payments/bitpay.py, lines 63-93; billing/payments/zibal.py, lines 38-41, 87-90, 143-147).
 Decimals are exact, so they are reals here; the two rounding rules are written out.
 */
module Amounts {

  /** Rounds half away from zero (ROUND_HALF_UP). */
  function RoundHalfUp(x: real): int {
    if x >= 0.0 then (x + 0.5).Floor else -((-x + 0.5).Floor)
  }

  /** Rounds half to even, the default of `quantize`. */
  function RoundHalfEven(x: real): int {
    var low := x.Floor;
    var rest := x - low as real;
    if rest < 0.5 then low
    else if rest > 0.5 then low + 1
    else if low % 2 == 0 then low
    else low + 1
  }

  function TomanToRial(amount: real): int {
    RoundHalfUp(amount * 10.0)
  }

  function RialToToman(amount: real): int {
    RoundHalfUp(amount / 10.0)
  }

  /** BitPay's `_amount_matches_expected`. */
  predicate BitPayAccepts(verified: real, expectedToman: real) {
    var expected := RoundHalfEven(expectedToman);
    var v := RoundHalfEven(verified);
    if v == expected then true
    else if RialToToman(v as real) == expected then true
    else if v == TomanToRial(expected as real) then true
    else false
  }

  lemma WholeStays(n: int)
    ensures RoundHalfEven(n as real) == n && TomanToRial(n as real) == 10 * n
  {
    assert (n as real) * 10.0 == (10 * n) as real;
    if n < 0 {
      assert -((10 * n) as real) == (-10 * n) as real;
    }
  }

  lemma RialToTomanIs(v: int, e: int)
    requires e > 0
    ensures RialToToman(v as real) == e <==> 10 * e - 5 <= v <= 10 * e + 4
  {
    var q := RialToToman(v as real);
    var x := v as real / 10.0;
    if v >= 0 {
      assert q as real <= x + 0.5 < q as real + 1.0;
      assert 10.0 * (q as real) <= v as real + 5.0 < 10.0 * (q as real) + 10.0;
      assert 10 * q <= v + 5 < 10 * q + 10;
    } else {
      assert q <= 0;
    }
  }

  /** On whole amounts BitPay accepts the amount itself or any rial sum that rounds to it. */
  lemma BitPayWhole(v: int, e: int)
    requires e > 0
    ensures BitPayAccepts(v as real, e as real) <==> v == e || 10 * e - 5 <= v <= 10 * e + 4
  {
    WholeStays(v);
    WholeStays(e);
    RialToTomanIs(v, e);
  }

  /** The exact reach of the check on every decimal the gateway can report. */
  lemma BitPayExact(v: real, e: int)
    requires e > 0
    ensures BitPayAccepts(v, e as real) <==>
            || e as real - 0.5 < v < e as real + 0.5
            || (e % 2 == 0 && (v == e as real - 0.5 || v == e as real + 0.5))
            || 10.0 * e as real - 5.5 < v <= 10.0 * e as real + 4.5
  {
    var q := RoundHalfEven(v);
    WholeStays(e);
    RialToTomanIs(q, e);
    EvenRounding(v, e);
    EvenAtLeast(v, e);
    EvenAtMost(v, e);
    assert BitPayAccepts(v, e as real) <==> q == e || 10 * e - 5 <= q <= 10 * e + 4;
  }

  lemma EvenRounding(v: real, e: int)
    ensures RoundHalfEven(v) == e <==>
            || e as real - 0.5 < v < e as real + 0.5
            || (e % 2 == 0 && (v == e as real - 0.5 || v == e as real + 0.5))
  {
    FloorIs(v, e);
    FloorIs(v, e - 1);
  }

  lemma FloorIs(v: real, n: int)
    ensures v.Floor == n <==> n as real <= v < n as real + 1.0
  {
  }

  lemma EvenAtLeast(v: real, e: int)
    ensures RoundHalfEven(v) >= 10 * e - 5 <==> v > 10.0 * e as real - 5.5
  {
    var n := 10 * e - 6;
    assert n as real == 10.0 * e as real - 6.0;
    assert n % 2 == 0;
    if v.Floor == n {
    } else if v.Floor > n {
      assert v >= (n + 1) as real;
    } else {
      assert v < n as real;
    }
  }

  lemma EvenAtMost(v: real, e: int)
    ensures RoundHalfEven(v) <= 10 * e + 4 <==> v <= 10.0 * e as real + 4.5
  {
    var n := 10 * e + 4;
    assert n as real == 10.0 * e as real + 4.0;
    assert n % 2 == 0;
    if v.Floor == n {
    } else if v.Floor > n {
      assert v >= (n + 1) as real;
    } else {
      assert v < n as real;
    }
  }

  /** A free order takes what rounds to nothing, in toman or in rial. */
  lemma BitPayFree(v: real)
    ensures BitPayAccepts(v, 0.0) <==> -4.5 <= v <= 4.5
  {
    var q := RoundHalfEven(v);
    WholeStays(0);
    FloorIs(v, -5);
    FloorIs(v, 4);
    assert RialToToman(q as real) == 0 <==> -4 <= q <= 4 by {
      if q >= 0 {
        assert RialToToman(q as real) == (q as real / 10.0 + 0.5).Floor;
      } else {
        assert RialToToman(q as real) == -((-(q as real / 10.0) + 0.5).Floor);
      }
    }
    assert q >= -4 <==> v >= -4.5;
    assert q <= 4 <==> v <= 4.5;
  }

  /** Zibal compares the reported rials with ten times the price, without rounding what it reports. */
  predicate ZibalAccepts(verifiedRials: real, expectedToman: real) {
    verifiedRials == TomanToRial(expectedToman) as real
  }

  lemma ZibalWhole(v: real, e: int)
    ensures ZibalAccepts(v, e as real) <==> v == 10.0 * e as real
  {
    WholeStays(e);
  }

  /** Every amount Zibal accepts BitPay accepts as well; the converse fails for every price. */
  lemma ZibalIsStricter(v: real, e: int)
    requires e > 0 && ZibalAccepts(v, e as real)
    ensures BitPayAccepts(v, e as real)
    ensures BitPayAccepts(e as real, e as real) && !ZibalAccepts(e as real, e as real)
  {
    ZibalWhole(v, e);
    BitPayExact(v, e);
    ZibalWhole(e as real, e);
    WholeStays(e);
  }
}
