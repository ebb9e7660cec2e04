/**
 * Bin pricing: the price of bin `id` is `(1 + binStep / 10000) ^ id`, as an
 * exact real (the SDK evaluates the same power in decimal floating point).
 */
module Pricing {
  import opened Constants

  function PowNat(b: real, n: nat): (r: real)
    ensures b > 0.0 ==> r > 0.0
  {
    if n == 0 then 1.0 else b * PowNat(b, n - 1)
  }

  /** Integer power of a positive base; negative exponents give reciprocals. */
  function Pow(b: real, n: int): (r: real)
    requires b > 0.0
    ensures r > 0.0
  {
    if n >= 0 then PowNat(b, n) else 1.0 / PowNat(b, -n)
  }

  /** The price ratio of two neighbouring bins, `1 + binStep / BASIS_POINT_MAX`. */
  function StepFactor(binStep: nat): (r: real)
    ensures r >= 1.0
    ensures binStep > 0 ==> r > 1.0
  {
    1.0 + binStep as real / BASIS_POINT_MAX as real
  }

  /** getPriceOfBinByBinId: price of one X lamport in Y lamports at bin `binId`. */
  function GetPriceOfBinByBinId(binId: int, binStep: nat): (p: real)
    ensures p > 0.0
  {
    Pow(StepFactor(binStep), binId)
  }

  /** The price of bin 0 is exactly 1, whatever the step. */
  lemma PriceAtZero(binStep: nat)
    ensures GetPriceOfBinByBinId(0, binStep) == 1.0
  {
  }

  /** Moving one bin up multiplies the price by the step factor, on both sides of 0. */
  lemma PriceStep(binId: int, binStep: nat)
    ensures GetPriceOfBinByBinId(binId + 1, binStep)
         == GetPriceOfBinByBinId(binId, binStep) * StepFactor(binStep)
  {
    PowStep(StepFactor(binStep), binId);
  }

  /** One more factor in an integer power, for negative exponents too. */
  lemma {:induction false} PowStep(b: real, n: int)
    requires b > 0.0
    ensures Pow(b, n + 1) == Pow(b, n) * b
  {
    if n >= 0 {
      assert PowNat(b, n + 1) == b * PowNat(b, n);
    } else {
      var p := PowNat(b, -n - 1);
      assert Pow(b, n + 1) == 1.0 / p;
      assert PowNat(b, -n) == b * p;
      ReciprocalCancel(b, p);
    }
  }

  lemma ReciprocalCancel(b: real, p: real)
    requires b > 0.0 && p > 0.0
    ensures (1.0 / (b * p)) * b == 1.0 / p
  {
  }

  /** A positive amount grows when multiplied by a factor above 1. */
  lemma GrowsByFactor(a: real, f: real, c: real)
    requires a > 0.0 && f > 1.0 && c == a * f
    ensures a < c
  {
    assert c - a == a * (f - 1.0);
  }

  /** With a positive step the price is strictly increasing in the bin id. */
  lemma PriceStrictlyIncreasing(lo: int, hi: int, binStep: nat)
    requires binStep > 0
    requires lo < hi
    ensures GetPriceOfBinByBinId(lo, binStep) < GetPriceOfBinByBinId(hi, binStep)
  {
    PowIncreasing(StepFactor(binStep), lo, hi);
  }

  /** Integer powers of a base above 1 strictly increase with the exponent. */
  lemma {:induction false} PowIncreasing(b: real, lo: int, hi: int)
    requires b > 1.0 && lo < hi
    ensures Pow(b, lo) < Pow(b, hi)
    decreases hi - lo
  {
    var next := lo + 1;
    var here, there := Pow(b, lo), Pow(b, next);
    PowStep(b, lo);
    GrowsByFactor(here, b, there);
    if next < hi {
      PowIncreasing(b, next, hi);
    }
  }

  /** A step of 25 bps puts bin 4 at exactly 1.0025^4. */
  lemma PriceOfBinFourAtStep25()
    ensures GetPriceOfBinByBinId(4, 25) == 1.0100375625390625
  {
    var b := StepFactor(25);
    assert b == 1.0025;
    assert PowNat(b, 1) == 1.0025;
    assert PowNat(b, 2) == 1.00500625;
    assert PowNat(b, 3) == 1.0025 * 1.00500625;
    assert PowNat(b, 4) == 1.0025 * (1.0025 * 1.00500625);
    assert 1.0025 * (1.0025 * 1.00500625) == 1.0100375625390625;
    assert GetPriceOfBinByBinId(4, 25) == PowNat(b, 4);
  }
}
