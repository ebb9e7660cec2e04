/**
 * The variable (volatility) fee state of a pair and the fee-rate summary.
 * updateVolatilityAccumulator and updateReference assign fields of the record
 * they are handed; callers hand them a shallow copy of the pair's
 * vParameters, modelled here as a fresh object built from the pair's value.
 */
module Fees {
  import opened Constants
  import opened Types
  import opened Arith

  /** A mutable copy of a pair's variable parameters (`Object.assign({}, vParameters)`). */
  class VariableParametersState {
    var volatilityAccumulator: nat
    var volatilityReference: nat
    var indexReference: int
    var lastUpdateTimestamp: int

    constructor Clone(v: VariableParameters)
      ensures Value() == v
    {
      volatilityAccumulator := v.volatilityAccumulator;
      volatilityReference := v.volatilityReference;
      indexReference := v.indexReference;
      lastUpdateTimestamp := v.lastUpdateTimestamp;
    }

    function Value(): VariableParameters
      reads this
    {
      VariableParameters(volatilityAccumulator, volatilityReference, indexReference, lastUpdateTimestamp)
    }
  }

  function Abs(x: int): nat {
    if x < 0 then -x else x
  }

  /**
   * The state after updateVolatilityAccumulator: only the accumulator moves, to
   * the smaller of the reference plus the bin distance in basis points and the cap.
   */
  function AccumulatedVolatility(v: VariableParameters, s: StaticParameters, activeId: int): (r: VariableParameters)
    ensures r.volatilityAccumulator <= s.maxVolatilityAccumulator
    ensures r.volatilityAccumulator <= v.volatilityReference + Abs(v.indexReference - activeId) * BASIS_POINT_MAX
    ensures r.volatilityAccumulator == s.maxVolatilityAccumulator
         || r.volatilityAccumulator == v.volatilityReference + Abs(v.indexReference - activeId) * BASIS_POINT_MAX
    ensures r.volatilityReference == v.volatilityReference
    ensures r.indexReference == v.indexReference
    ensures r.lastUpdateTimestamp == v.lastUpdateTimestamp
  {
    var candidate := v.volatilityReference + Abs(v.indexReference - activeId) * BASIS_POINT_MAX;
    v.(volatilityAccumulator := if candidate < s.maxVolatilityAccumulator then candidate else s.maxVolatilityAccumulator)
  }

  /**
   * The state after updateReference at time `now`: nothing changes inside the
   * filter period; after it the reference index moves to the active bin and the
   * reference volatility decays to accumulator*reductionFactor/10000 (rounded
   * down) inside the decay period, or to 0 after it.
   */
  function UpdatedReference(v: VariableParameters, s: StaticParameters, activeId: int, now: int): (r: VariableParameters)
    ensures r.volatilityAccumulator == v.volatilityAccumulator
    ensures r.lastUpdateTimestamp == v.lastUpdateTimestamp
    ensures now - v.lastUpdateTimestamp < s.filterPeriod ==> r == v
    ensures now - v.lastUpdateTimestamp >= s.filterPeriod ==> r.indexReference == activeId
    ensures s.filterPeriod <= now - v.lastUpdateTimestamp < s.decayPeriod ==>
      r.volatilityReference * BASIS_POINT_MAX <= v.volatilityAccumulator * s.reductionFactor
        < (r.volatilityReference + 1) * BASIS_POINT_MAX
    ensures now - v.lastUpdateTimestamp >= s.filterPeriod && now - v.lastUpdateTimestamp >= s.decayPeriod ==>
      r.volatilityReference == 0
  {
    var elapsed := now - v.lastUpdateTimestamp;
    if elapsed >= s.filterPeriod then
      if elapsed < s.decayPeriod then
        v.(indexReference := activeId,
           volatilityReference := v.volatilityAccumulator * s.reductionFactor / BASIS_POINT_MAX)
      else
        v.(indexReference := activeId, volatilityReference := 0)
    else
      v
  }

  /** updateVolatilityAccumulator, in place on the copy. */
  method UpdateVolatilityAccumulator(vParameter: VariableParametersState, sParameter: StaticParameters, activeId: int)
    modifies vParameter
    ensures vParameter.Value() == AccumulatedVolatility(old(vParameter.Value()), sParameter, activeId)
  {
    var deltaId := Abs(vParameter.indexReference - activeId);
    var newVolatilityAccumulator := vParameter.volatilityReference + deltaId * BASIS_POINT_MAX;
    vParameter.volatilityAccumulator :=
      if newVolatilityAccumulator < sParameter.maxVolatilityAccumulator then newVolatilityAccumulator
      else sParameter.maxVolatilityAccumulator;
  }

  /**
   * updateReference, in place on the copy. The SDK's clock reading is fractional
   * seconds; every comparison is against an integer period, so the whole seconds
   * `currentTimestamp` give the same branches.
   */
  method UpdateReference(activeId: int, vParameter: VariableParametersState, sParameter: StaticParameters,
                         currentTimestamp: int)
    modifies vParameter
    ensures vParameter.Value() == UpdatedReference(old(vParameter.Value()), sParameter, activeId, currentTimestamp)
  {
    var elapsed := currentTimestamp - vParameter.lastUpdateTimestamp;
    if elapsed >= sParameter.filterPeriod {
      vParameter.indexReference := activeId;
      if elapsed < sParameter.decayPeriod {
        var decayedVolatilityReference := vParameter.volatilityAccumulator * sParameter.reductionFactor / BASIS_POINT_MAX;
        vParameter.volatilityReference := decayedVolatilityReference;
      } else {
        vParameter.volatilityReference := 0;
      }
    }
  }

  /** Re-running the accumulator update at the same bin leaves the state as it is. */
  lemma AccumulatorUpdateIdempotent(v: VariableParameters, s: StaticParameters, activeId: int)
    ensures AccumulatedVolatility(AccumulatedVolatility(v, s, activeId), s, activeId)
         == AccumulatedVolatility(v, s, activeId)
  {
  }

  /** With a reduction factor of at most 100%, the decayed reference never exceeds the accumulator. */
  lemma DecayedReferenceBounded(v: VariableParameters, s: StaticParameters, activeId: int, now: int)
    requires s.reductionFactor <= BASIS_POINT_MAX
    requires now - v.lastUpdateTimestamp >= s.filterPeriod
    ensures UpdatedReference(v, s, activeId, now).volatilityReference <= v.volatilityAccumulator
  {
    var r := UpdatedReference(v, s, activeId, now);
    if now - v.lastUpdateTimestamp < s.decayPeriod {
      assert v.volatilityAccumulator * s.reductionFactor <= v.volatilityAccumulator * BASIS_POINT_MAX;
      assert r.volatilityReference * BASIS_POINT_MAX <= v.volatilityAccumulator * BASIS_POINT_MAX;
    }
  }

  /** The order swapQuote applies the two updates in: accumulator, then reference. */
  function SwapQuoteOrder(v: VariableParameters, s: StaticParameters, activeId: int, now: int): (r: VariableParameters)
    ensures r.lastUpdateTimestamp == v.lastUpdateTimestamp
    ensures r.volatilityAccumulator <= s.maxVolatilityAccumulator
    ensures now - v.lastUpdateTimestamp < s.filterPeriod ==> r == AccumulatedVolatility(v, s, activeId)
    ensures now - v.lastUpdateTimestamp >= s.filterPeriod ==> r.indexReference == activeId
  {
    UpdatedReference(AccumulatedVolatility(v, s, activeId), s, activeId, now)
  }

  /** The order getDynamicFee applies them in: reference, then accumulator. */
  function DynamicFeeOrder(v: VariableParameters, s: StaticParameters, activeId: int, now: int): (r: VariableParameters)
    ensures r.lastUpdateTimestamp == v.lastUpdateTimestamp
    ensures r.volatilityAccumulator <= s.maxVolatilityAccumulator
    ensures now - v.lastUpdateTimestamp < s.filterPeriod ==> r == AccumulatedVolatility(v, s, activeId)
    ensures now - v.lastUpdateTimestamp >= s.filterPeriod ==>
              r.indexReference == activeId && r.volatilityAccumulator <= r.volatilityReference
  {
    AccumulatedVolatility(UpdatedReference(v, s, activeId, now), s, activeId)
  }

  /** Inside the filter period the reference update is a no-op, so both orders agree. */
  lemma OrdersAgreeInsideFilterPeriod(v: VariableParameters, s: StaticParameters, activeId: int, now: int)
    requires now - v.lastUpdateTimestamp < s.filterPeriod
    ensures SwapQuoteOrder(v, s, activeId, now) == DynamicFeeOrder(v, s, activeId, now)
  {
  }

  /**
   * Past the filter period the orders can differ: after a move of five bins from
   * a quiet state, the quote sees accumulator 50000 while getDynamicFee sees 0.
   */
  lemma OrdersDifferPastFilterPeriod()
    ensures var v := VariableParameters(0, 0, 0, 0);
            var s := StaticParameters(10, 30, 600, 5000, 40000, 350000, MIN_BIN_ID, MAX_BIN_ID, 1000);
            SwapQuoteOrder(v, s, 5, 100).volatilityAccumulator == 50000
            && DynamicFeeOrder(v, s, 5, 100).volatilityAccumulator == 0
  {
  }

  /**
   * The variable parameters getDynamicFee prices with: a copy of the pair's,
   * moved by updateReference and then updateVolatilityAccumulator. The pair's
   * own parameters are a value here and stay as they were.
   */
  method GetDynamicFeeParameters(pair: LbPair, currentTimestamp: int) returns (v: VariableParameters)
    ensures v == DynamicFeeOrder(pair.vParameters, pair.parameters, pair.activeId, currentTimestamp)
    ensures currentTimestamp - pair.vParameters.lastUpdateTimestamp < pair.parameters.filterPeriod ==>
      v == AccumulatedVolatility(pair.vParameters, pair.parameters, pair.activeId)
  {
    var vParameterClone := new VariableParametersState.Clone(pair.vParameters);
    UpdateReference(pair.activeId, vParameterClone, pair.parameters, currentTimestamp);
    UpdateVolatilityAccumulator(vParameterClone, pair.parameters, pair.activeId);
    v := vParameterClone.Value();
  }

  function Pow10(n: nat): (r: nat)
    ensures r >= 1
  {
    if n == 0 then 1 else 10 * Pow10(n - 1)
  }

  /** The base fee rate in FEE_PRECISION units: baseFactor * binStep * 10 * 10^powerFactor. */
  function BaseFeeRate(baseFactor: nat, binStep: nat, baseFeePowerFactor: nat): (r: nat)
    ensures r == 0 <==> baseFactor == 0 || binStep == 0
  {
    var p := Pow10(baseFeePowerFactor);
    ProductZero(baseFactor, binStep);
    ProductZero(baseFactor * binStep, 10);
    ProductZero(baseFactor * binStep * 10, p);
    baseFactor * binStep * 10 * p
  }

  datatype FeeRatePercentages = FeeRatePercentages(baseFeeRatePercentage: real, maxFeeRatePercentage: real)

  /** calculateFeeInfo: the base and maximal fee rates as percentages. */
  function CalculateFeeInfo(baseFactor: nat, binStep: nat, baseFeePowerFactor: nat): (r: FeeRatePercentages)
    ensures r.baseFeeRatePercentage >= 0.0
    ensures r.maxFeeRatePercentage == 10.0
    ensures r.baseFeeRatePercentage * FEE_PRECISION as real == BaseFeeRate(baseFactor, binStep, baseFeePowerFactor) as real * 100.0
  {
    FeeRatePercentages(
      BaseFeeRate(baseFactor, binStep, baseFeePowerFactor) as real * 100.0 / FEE_PRECISION as real,
      MAX_FEE_RATE as real * 100.0 / FEE_PRECISION as real)
  }

  /** A base fee within the cap shows as a percentage within the maximal percentage, and conversely. */
  lemma BaseFeeWithinMaxIff(baseFactor: nat, binStep: nat, baseFeePowerFactor: nat)
    ensures CalculateFeeInfo(baseFactor, binStep, baseFeePowerFactor).baseFeeRatePercentage
         <= CalculateFeeInfo(baseFactor, binStep, baseFeePowerFactor).maxFeeRatePercentage
        <==> BaseFeeRate(baseFactor, binStep, baseFeePowerFactor) <= MAX_FEE_RATE
  {
    var r := CalculateFeeInfo(baseFactor, binStep, baseFeePowerFactor);
    var rate := BaseFeeRate(baseFactor, binStep, baseFeePowerFactor);
    assert r.baseFeeRatePercentage == rate as real / 10000000.0;
    assert r.maxFeeRatePercentage == MAX_FEE_RATE as real / 10000000.0;
  }

  /**
   * getFeeInfo: the pair's fee percentages; the base fee uses power factor 0
   * (the source passes none) and the protocol share is read in basis points.
   */
  function GetFeeInfo(pair: LbPair): (r: FeeInfo)
    ensures r.baseFeeRatePercentage == CalculateFeeInfo(pair.parameters.baseFactor, pair.binStep, 0).baseFeeRatePercentage
    ensures r.maxFeeRatePercentage == 10.0
    ensures r.protocolFeePercentage * BASIS_POINT_MAX as real == pair.parameters.protocolShare as real * 100.0
  {
    var rates := CalculateFeeInfo(pair.parameters.baseFactor, pair.binStep, 0);
    FeeInfo(
      rates.baseFeeRatePercentage,
      rates.maxFeeRatePercentage,
      pair.parameters.protocolShare as real * 100.0 / BASIS_POINT_MAX as real)
  }

  /** A protocol share within MAX_PROTOCOL_SHARE shows as at most 25%. */
  lemma ProtocolFeeAtMostQuarter(pair: LbPair)
    requires pair.parameters.protocolShare <= MAX_PROTOCOL_SHARE
    ensures 0.0 <= GetFeeInfo(pair).protocolFeePercentage <= 25.0
  {
  }
}
