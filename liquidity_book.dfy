/**
 * Bookkeeping around bins and positions in the DLMM client: the contiguity
 * check of a deposit distribution, the deposit-range checks, the enumeration
 * of a position's bins across pages, the per-bin share and fee arithmetic of
 * a position, and the scan for the highest bin still holding token X.
 * Pages are keyed by their index rather than by their derived address.
 */
module LiquidityBook {
  import opened Wrappers
  import opened Arith
  import opened Constants
  import opened Types
  import opened Pricing
  import opened Sorting
  import opened BinArrays
  import opened Positions

  // ---------------------------------------------------------------------------
  // processXYAmountDistribution

  /** The range and the three order-preserving projections of a distribution. */
  datatype XYAmountDistribution = XYAmountDistribution(
    lowerBinId: int,
    upperBinId: int,
    xAmountDistribution: seq<int>,
    yAmountDistribution: seq<int>,
    binIds: seq<int>)

  /** Every bin id follows its predecessor by exactly one. */
  predicate Contiguous(xy: seq<BinLiquidityDistribution>) {
    forall i :: 0 < i < |xy| ==> xy[i].binId == xy[i - 1].binId + 1
  }

  /**
   * The check the code performs: the previous id is tested for truthiness
   * first, so the id after a bin id of 0 is never compared.
   */
  ghost predicate ContiguousAsWritten(xy: seq<BinLiquidityDistribution>) {
    forall i :: 0 < i < |xy| ==> xy[i - 1].binId != 0 ==> xy[i].binId == xy[i - 1].binId + 1
  }

  /** `d` carries the first and last ids and, in input order, every id and both percentages. */
  ghost predicate ProjectsDistribution(xy: seq<BinLiquidityDistribution>, d: XYAmountDistribution) {
    && |xy| > 0
    && d.lowerBinId == xy[0].binId
    && d.upperBinId == xy[|xy| - 1].binId
    && |d.binIds| == |xy| && |d.xAmountDistribution| == |xy| && |d.yAmountDistribution| == |xy|
    && (forall i :: 0 <= i < |xy| ==> d.binIds[i] == xy[i].binId)
    && (forall i :: 0 <= i < |xy| ==> d.xAmountDistribution[i] == xy[i].distributionX)
    && (forall i :: 0 <= i < |xy| ==> d.yAmountDistribution[i] == xy[i].distributionY)
  }

  /**
   * processXYAmountDistribution as written: an empty list fails when its first
   * element is read; otherwise a break in the ids not preceded by id 0 throws.
   */
  method ProcessXYAmountDistribution(xYAmountDistribution: seq<BinLiquidityDistribution>)
    returns (r: Result<XYAmountDistribution, DlmmError>)
    ensures |xYAmountDistribution| == 0 ==> r == Err(UndefinedElement)
    ensures |xYAmountDistribution| > 0 ==> (r.Ok? <==> ContiguousAsWritten(xYAmountDistribution))
    ensures |xYAmountDistribution| > 0 && r.Err? ==> r.error == DiscontinuousBinId
    ensures r.Ok? ==> ProjectsDistribution(xYAmountDistribution, r.value)
  {
    var xy := xYAmountDistribution;
    var currentBinId: Option<int> := None;
    var xAmountDistribution: seq<int> := [];
    var yAmountDistribution: seq<int> := [];
    var binIds: seq<int> := [];
    var i := 0;
    while i < |xy|
      invariant 0 <= i <= |xy|
      invariant currentBinId == if i == 0 then None else Some(xy[i - 1].binId)
      invariant forall k :: 0 < k < i ==> xy[k - 1].binId != 0 ==> xy[k].binId == xy[k - 1].binId + 1
      invariant |binIds| == i && |xAmountDistribution| == i && |yAmountDistribution| == i
      invariant forall k :: 0 <= k < i ==> binIds[k] == xy[k].binId
      invariant forall k :: 0 <= k < i ==> xAmountDistribution[k] == xy[k].distributionX
      invariant forall k :: 0 <= k < i ==> yAmountDistribution[k] == xy[k].distributionY
    {
      var binAndAmount := xy[i];
      xAmountDistribution := xAmountDistribution + [binAndAmount.distributionX];
      yAmountDistribution := yAmountDistribution + [binAndAmount.distributionY];
      binIds := binIds + [binAndAmount.binId];
      if currentBinId.Some? && currentBinId.value != 0 && binAndAmount.binId != currentBinId.value + 1 {
        assert !ContiguousAsWritten(xy) by {
          assert xy[i - 1].binId != 0 && xy[i].binId != xy[i - 1].binId + 1;
        }
        return Err(DiscontinuousBinId);
      }
      currentBinId := Some(binAndAmount.binId);
      i := i + 1;
    }
    if |xy| == 0 {
      return Err(UndefinedElement);
    }
    r := Ok(XYAmountDistribution(xy[0].binId, xy[|xy| - 1].binId,
                                 xAmountDistribution, yAmountDistribution, binIds));
  }

  /** A list starting at bin 0 followed by -7 passes the check, though -7 does not follow 0. */
  lemma ZeroSkipsContiguityCheck()
    ensures var xy := [BinLiquidityDistribution(0, 50, 50), BinLiquidityDistribution(-7, 50, 50)];
            ContiguousAsWritten(xy) && !Contiguous(xy)
  {
    var xy := [BinLiquidityDistribution(0, 50, 50), BinLiquidityDistribution(-7, 50, 50)];
    assert xy[1].binId != xy[0].binId + 1;
  }

  /** The contiguity check as evidently intended: every id is compared with its predecessor. */
  function ProcessXYAmountDistributionChecked(xy: seq<BinLiquidityDistribution>): (r: Result<XYAmountDistribution, DlmmError>)
    ensures r.Ok? <==> |xy| > 0 && Contiguous(xy)
    ensures |xy| > 0 && r.Err? ==> r.error == DiscontinuousBinId
    ensures r.Ok? ==> ProjectsDistribution(xy, r.value)
    ensures r.Ok? ==> r.value.upperBinId - r.value.lowerBinId + 1 == |xy|
  {
    if |xy| == 0 then Err(UndefinedElement)
    else if !Contiguous(xy) then Err(DiscontinuousBinId)
    else
      ContiguousSpan(xy);
      Ok(XYAmountDistribution(
        xy[0].binId, xy[|xy| - 1].binId,
        seq(|xy|, i requires 0 <= i < |xy| => xy[i].distributionX),
        seq(|xy|, i requires 0 <= i < |xy| => xy[i].distributionY),
        seq(|xy|, i requires 0 <= i < |xy| => xy[i].binId)))
  }

  /** A contiguous list holds the ids first, first+1, ... in order. */
  lemma {:induction false} ContiguousSpan(xy: seq<BinLiquidityDistribution>)
    requires Contiguous(xy)
    ensures forall i :: 0 <= i < |xy| ==> xy[i].binId == xy[0].binId + i
    decreases |xy|
  {
    if |xy| > 1 {
      var prefix := xy[..|xy| - 1];
      assert Contiguous(prefix) by {
        forall i | 0 < i < |prefix| ensures prefix[i].binId == prefix[i - 1].binId + 1 {
          assert prefix[i] == xy[i] && prefix[i - 1] == xy[i - 1];
        }
      }
      ContiguousSpan(prefix);
      assert xy[|xy| - 1].binId == xy[|xy| - 2].binId + 1;
      assert xy[|xy| - 2] == prefix[|xy| - 2];
    }
  }

  // ---------------------------------------------------------------------------
  // Deposit-range checks of the add-liquidity entry points

  /**
   * initializePositionAndAddLiquidityByWeight: a range reaching `binPerPosition`
   * bins past its lower bin is refused; otherwise the position width follows.
   */
  function CheckPositionWidth(lowerBinId: int, upperBinId: int, binPerPosition: nat): (r: Result<int, DlmmError>)
    ensures r.Ok? <==> upperBinId - lowerBinId + 1 <= binPerPosition
    ensures r.Ok? ==> r.value == upperBinId - lowerBinId + 1
    ensures r.Err? ==> r.error == PositionWidthOutOfRange(binPerPosition)
  {
    if upperBinId >= lowerBinId + binPerPosition then Err(PositionWidthOutOfRange(binPerPosition))
    else Ok(upperBinId - lowerBinId + 1)
  }

  /** For a contiguous distribution the width check admits exactly 1 to `binPerPosition` bins. */
  lemma {:induction false} CheckedDistributionWidth(xy: seq<BinLiquidityDistribution>, binPerPosition: nat)
    requires ProcessXYAmountDistributionChecked(xy).Ok?
    ensures var d := ProcessXYAmountDistributionChecked(xy).value;
            var w := CheckPositionWidth(d.lowerBinId, d.upperBinId, binPerPosition);
            (w.Ok? <==> |xy| <= binPerPosition) && (w.Ok? ==> 1 <= w.value == |xy|)
  {
  }

  /** As written, a distribution whose ids run backwards past bin 0 gets a width below 1. */
  lemma {:induction false} AsWrittenWidthCanBeNegative()
    ensures var xy := [BinLiquidityDistribution(0, 50, 50), BinLiquidityDistribution(-7, 50, 50)];
            ContiguousAsWritten(xy) && CheckPositionWidth(xy[0].binId, xy[1].binId, MAX_BIN_PER_ARRAY) == Ok(-6)
  {
    ZeroSkipsContiguityCheck();
  }

  /** The upper page of a new position: at least the page after the lower one. */
  function UpperBinArrayIndex(lowerBinId: int, upperBinId: int): (r: int)
    ensures r >= BinIdToBinArrayIndex(lowerBinId) + 1 && r >= BinIdToBinArrayIndex(upperBinId)
    ensures r == BinIdToBinArrayIndex(lowerBinId) + 1 || r == BinIdToBinArrayIndex(upperBinId)
  {
    var lowerBinArrayIndex := BinIdToBinArrayIndex(lowerBinId);
    var candidate := BinIdToBinArrayIndex(upperBinId);
    if lowerBinArrayIndex + 1 >= candidate then lowerBinArrayIndex + 1 else candidate
  }

  /**
   * A range narrower than a page has its upper page right after its lower
   * page, and every bin of the range lies in one of the two.
   */
  lemma {:induction false} NarrowRangeSpansTwoPages(lowerBinId: int, upperBinId: int, binId: int)
    requires lowerBinId <= binId <= upperBinId < lowerBinId + MAX_BIN_PER_ARRAY
    ensures UpperBinArrayIndex(lowerBinId, upperBinId) == BinIdToBinArrayIndex(lowerBinId) + 1
    ensures BinIdToBinArrayIndex(binId) == BinIdToBinArrayIndex(lowerBinId)
         || BinIdToBinArrayIndex(binId) == BinIdToBinArrayIndex(lowerBinId) + 1
  {
    var lo := BinIdToBinArrayIndex(lowerBinId);
    var hi := BinIdToBinArrayIndex(upperBinId);
    var b := BinIdToBinArrayIndex(binId);
    assert hi <= lo + 1;
    assert lo <= b <= hi;
  }

  /** addLiquidityByWeight: the deposit must lie inside the position; the lower end is tested first. */
  function CheckWithinPosition(lowerBinId: int, upperBinId: int,
                               positionLowerBinId: int, positionUpperBinId: int): (r: Option<DlmmError>)
    ensures r.None? <==> positionLowerBinId <= lowerBinId && upperBinId <= positionUpperBinId
    ensures lowerBinId < positionLowerBinId ==> r == Some(LowerBinIdBelowPosition)
    ensures r == Some(UpperBinIdAbovePosition) <==> positionLowerBinId <= lowerBinId && positionUpperBinId < upperBinId
  {
    if lowerBinId < positionLowerBinId then Some(LowerBinIdBelowPosition)
    else if upperBinId > positionUpperBinId then Some(UpperBinIdAbovePosition)
    else None
  }

  /** A contiguous deposit that passes the position-bounds check puts every bin inside the position. */
  lemma {:induction false} CheckedDepositInsidePosition(xy: seq<BinLiquidityDistribution>,
                                                        positionLowerBinId: int, positionUpperBinId: int)
    requires ProcessXYAmountDistributionChecked(xy).Ok?
    requires var d := ProcessXYAmountDistributionChecked(xy).value;
             CheckWithinPosition(d.lowerBinId, d.upperBinId, positionLowerBinId, positionUpperBinId).None?
    ensures forall i :: 0 <= i < |xy| ==> positionLowerBinId <= xy[i].binId <= positionUpperBinId
  {
    ContiguousSpan(xy);
  }

  /** As written, a deposit can pass the bounds check with a bin outside the position. */
  lemma {:induction false} AsWrittenDepositEscapesPosition()
    ensures var xy := [BinLiquidityDistribution(0, 50, 50), BinLiquidityDistribution(-7, 50, 50)];
            ContiguousAsWritten(xy) && CheckWithinPosition(xy[0].binId, xy[1].binId, 0, 0).None?
            && xy[1].binId < 0
  {
    ZeroSkipsContiguityCheck();
  }

  // ---------------------------------------------------------------------------
  // getBinsBetweenLowerAndUpperBound

  /** Every known page holds a full set of bins. */
  ghost predicate PagesWellFormed(binArrayMap: map<int, BinArray>) {
    forall index :: index in binArrayMap ==> WellFormedBinArray(binArrayMap[index])
  }

  /** The number of ids in [lo, hi]. */
  function Count(lo: int, hi: int): nat {
    if hi < lo then 0 else hi - lo + 1
  }

  function Min(a: int, b: int): int {
    if a <= b then a else b
  }

  /**
   * The entry reported for bin `binId`: the stored bin as version 1 when its
   * page is known, an empty bin as version 2 otherwise.
   */
  function BinAt(binArrayMap: map<int, BinArray>, binId: int, binStep: nat,
                 baseTokenDecimal: int, quoteTokenDecimal: int): (r: BinLiquidity)
    requires PagesWellFormed(binArrayMap)
    ensures r.binId == binId && r.price == GetPriceOfBinByBinId(binId, binStep)
    ensures var index := BinIdToBinArrayIndex(binId);
            index in binArrayMap ==>
              r.version == 1
              && BinOfLiquidity(r, StoredBin(binArrayMap, binId).price) == StoredBin(binArrayMap, binId)
    ensures BinIdToBinArrayIndex(binId) !in binArrayMap ==>
              r.version == 2 && r.xAmount == 0 && r.yAmount == 0 && r.supply == 0
  {
    if BinIdToBinArrayIndex(binId) in binArrayMap then
      BinLiquidityFromBin(StoredBin(binArrayMap, binId), binId, binStep, baseTokenDecimal, quoteTokenDecimal, 1)
    else
      BinLiquidityEmpty(binId, binStep, baseTokenDecimal, quoteTokenDecimal, 2)
  }

  /** The stored bin of `binId`, read from its page. */
  function StoredBin(binArrayMap: map<int, BinArray>, binId: int): Bin
    requires PagesWellFormed(binArrayMap) && BinIdToBinArrayIndex(binId) in binArrayMap
  {
    var index := BinIdToBinArrayIndex(binId);
    binArrayMap[index].bins[binId - BinArrayLowerBinId(index)]
  }

  /**
   * getBinsBetweenLowerAndUpperBound: one entry per id from `lowerBinId` to
   * `upperBinId`, ascending, page by page.
   */
  method GetBinsBetweenLowerAndUpperBound(binStep: nat, lowerBinId: int, upperBinId: int,
                                          baseTokenDecimal: int, quoteTokenDecimal: int,
                                          binArrayMap: map<int, BinArray>)
    returns (bins: seq<BinLiquidity>)
    requires PagesWellFormed(binArrayMap)
    ensures |bins| == Count(lowerBinId, upperBinId)
    ensures forall k :: 0 <= k < |bins| ==>
              bins[k] == BinAt(binArrayMap, lowerBinId + k, binStep, baseTokenDecimal, quoteTokenDecimal)
  {
    var lowerBinArrayIndex := BinIdToBinArrayIndex(lowerBinId);
    var upperBinArrayIndex := BinIdToBinArrayIndex(upperBinId);
    bins := [];
    var binArrayIndex := lowerBinArrayIndex;
    while binArrayIndex <= upperBinArrayIndex
      invariant lowerBinArrayIndex <= binArrayIndex
      invariant binArrayIndex == lowerBinArrayIndex || binArrayIndex <= upperBinArrayIndex + 1
      invariant |bins| == Count(lowerBinId, Min(upperBinId, BinArrayLowerBinId(binArrayIndex) - 1))
      invariant forall k :: 0 <= k < |bins| ==>
                  bins[k] == BinAt(binArrayMap, lowerBinId + k, binStep, baseTokenDecimal, quoteTokenDecimal)
      decreases upperBinArrayIndex + 1 - binArrayIndex
    {
      bins := CollectPageBins(binStep, lowerBinId, upperBinId, baseTokenDecimal, quoteTokenDecimal,
                              binArrayMap, binArrayIndex, bins);
      binArrayIndex := binArrayIndex + 1;
    }
  }

  /** The inner loop over the bins of page `binArrayIndex`, appending those inside the range. */
  method CollectPageBins(binStep: nat, lowerBinId: int, upperBinId: int,
                         baseTokenDecimal: int, quoteTokenDecimal: int,
                         binArrayMap: map<int, BinArray>, binArrayIndex: int, bins0: seq<BinLiquidity>)
    returns (bins: seq<BinLiquidity>)
    requires PagesWellFormed(binArrayMap)
    requires |bins0| == Count(lowerBinId, Min(upperBinId, BinArrayLowerBinId(binArrayIndex) - 1))
    requires forall k :: 0 <= k < |bins0| ==>
               bins0[k] == BinAt(binArrayMap, lowerBinId + k, binStep, baseTokenDecimal, quoteTokenDecimal)
    ensures |bins| == Count(lowerBinId, Min(upperBinId, BinArrayLowerBinId(binArrayIndex + 1) - 1))
    ensures forall k :: 0 <= k < |bins| ==>
              bins[k] == BinAt(binArrayMap, lowerBinId + k, binStep, baseTokenDecimal, quoteTokenDecimal)
  {
    bins := bins0;
    var lowerBinIdForBinArray := BinArrayLowerBinId(binArrayIndex);
    var binArray: Option<BinArray> := if binArrayIndex in binArrayMap then Some(binArrayMap[binArrayIndex]) else None;
    var i := 0;
    while i < MAX_BIN_PER_ARRAY
      invariant 0 <= i <= MAX_BIN_PER_ARRAY
      invariant |bins| == Count(lowerBinId, Min(upperBinId, lowerBinIdForBinArray + i - 1))
      invariant forall k :: 0 <= k < |bins| ==>
                  bins[k] == BinAt(binArrayMap, lowerBinId + k, binStep, baseTokenDecimal, quoteTokenDecimal)
    {
      var binId := lowerBinIdForBinArray + i;
      if binId >= lowerBinId && binId <= upperBinId {
        PageIndexUnique(binId, binArrayIndex);
        assert binId == lowerBinId + |bins|;
        if binArray.None? {
          bins := bins + [BinLiquidityEmpty(binId, binStep, baseTokenDecimal, quoteTokenDecimal, 2)];
        } else {
          var bin := binArray.value.bins[i];
          bins := bins + [BinLiquidityFromBin(bin, binId, binStep, baseTokenDecimal, quoteTokenDecimal, 1)];
        }
      }
      i := i + 1;
    }
  }

  /** Entries further along the enumeration are higher bins, at strictly higher prices. */
  lemma {:induction false} BinsBetweenAscending(binArrayMap: map<int, BinArray>, lowerBinId: int, j: nat, k: nat,
                                                binStep: nat, baseTokenDecimal: int, quoteTokenDecimal: int)
    requires PagesWellFormed(binArrayMap)
    requires binStep > 0 && j < k
    ensures var a := BinAt(binArrayMap, lowerBinId + j, binStep, baseTokenDecimal, quoteTokenDecimal);
            var b := BinAt(binArrayMap, lowerBinId + k, binStep, baseTokenDecimal, quoteTokenDecimal);
            a.binId < b.binId && a.price < b.price
  {
    PriceStrictlyIncreasing(lowerBinId + j, lowerBinId + k, binStep);
  }

  /** A known page reports exactly its stored bin; an unknown one reports the same as an empty stored bin, up to version. */
  lemma {:induction false} BinAtMatchesStoredBin(binArrayMap: map<int, BinArray>, binId: int, binStep: nat,
                                                 baseTokenDecimal: int, quoteTokenDecimal: int)
    requires PagesWellFormed(binArrayMap)
    ensures var r := BinAt(binArrayMap, binId, binStep, baseTokenDecimal, quoteTokenDecimal);
            var index := BinIdToBinArrayIndex(binId);
            && r.binId == binId
            && r.price == GetPriceOfBinByBinId(binId, binStep)
            && (index in binArrayMap <==> r.version == 1)
            && (index !in binArrayMap ==>
                  r == BinLiquidityFromBin(ZeroBin(0), binId, binStep, baseTokenDecimal, quoteTokenDecimal, 2))
  {
    EmptyIsFromBinOfZeroBin(ZeroBin(0), binId, binStep, baseTokenDecimal, quoteTokenDecimal, 2);
  }

  // ---------------------------------------------------------------------------
  // processPosition

  /** The position's part of a bin reserve: share * amount / supply, or 0 in a bin without supply. */
  function PositionAmount(share: nat, amount: nat, supply: nat): (r: nat)
    ensures supply == 0 || share == 0 ==> r == 0
    ensures 0 < supply == share ==> r == amount
  {
    if supply == 0 then 0
    else
      assert share == supply ==> share * amount / supply == amount by {
        if share == supply { WholeSupply(amount, supply); }
      }
      share * amount / supply
  }

  /** A share no larger than the bin's supply never claims more than the reserve. */
  lemma {:induction false} PositionAmountBounded(share: nat, amount: nat, supply: nat)
    requires share <= supply
    ensures PositionAmount(share, amount, supply) <= amount
  {
    if supply > 0 {
      assert share * amount <= supply * amount by {
        MulMonotone(share, supply, amount);
      }
      DivBound(share * amount, supply, amount);
    }
  }

  /**
   * The fee newly accrued to a position in one bin. `accrue(share, delta)` is
   * mulShr(share >> SCALE_OFFSET, delta, SCALE_OFFSET, down), in a file outside this model.
   */
  function NewFee(share: nat, stored: nat, complete: nat, accrue: (nat, int) -> int): (r: int)
    ensures share == 0 ==> r == 0
    ensures share > 0 ==> r == accrue(share, stored - complete)
  {
    if share == 0 then 0 else accrue(share, stored - complete)
  }

  /** One position bin: the bin's figures, the position's amounts, its claimable fees and no rewards. */
  function PositionBinDataOf(bin: BinLiquidity, share: nat, feeInfo: UserFeeInfo, accrue: (nat, int) -> int): (r: PositionBinData)
    ensures r.binId == bin.binId && r.price == bin.price && r.positionLiquidity == share
    ensures share <= bin.supply ==> r.positionXAmount <= bin.xAmount && r.positionYAmount <= bin.yAmount
    ensures share == 0 ==>
              r.positionXAmount == 0 && r.positionYAmount == 0
              && r.positionFeeXAmount == feeInfo.feeXPending && r.positionFeeYAmount == feeInfo.feeYPending
  {
    assert share <= bin.supply ==>
             PositionAmount(share, bin.xAmount, bin.supply) <= bin.xAmount
             && PositionAmount(share, bin.yAmount, bin.supply) <= bin.yAmount by {
      if share <= bin.supply {
        PositionAmountBounded(share, bin.xAmount, bin.supply);
        PositionAmountBounded(share, bin.yAmount, bin.supply);
      }
    }
    PositionBinData(
      binId := bin.binId,
      price := bin.price,
      pricePerToken := bin.pricePerToken,
      binXAmount := bin.xAmount,
      binYAmount := bin.yAmount,
      binLiquidity := bin.supply,
      positionLiquidity := share,
      positionXAmount := PositionAmount(share, bin.xAmount, bin.supply),
      positionYAmount := PositionAmount(share, bin.yAmount, bin.supply),
      positionFeeXAmount := NewFee(share, bin.feeAmountXPerTokenStored, feeInfo.feeXPerTokenComplete, accrue) + feeInfo.feeXPending,
      positionFeeYAmount := NewFee(share, bin.feeAmountYPerTokenStored, feeInfo.feeYPerTokenComplete, accrue) + feeInfo.feeYPending,
      positionRewardAmount := [0, 0])
  }

  /** The columns of the position table that processPosition adds up. */
  datatype Column = BinX | BinY | PositionX | PositionY | FeeX | FeeY

  function ColumnValue(d: PositionBinData, c: Column): int {
    match c
    case BinX => d.binXAmount
    case BinY => d.binYAmount
    case PositionX => d.positionXAmount
    case PositionY => d.positionYAmount
    case FeeX => d.positionFeeXAmount
    case FeeY => d.positionFeeYAmount
  }

  /** Sum of one column over the rows. */
  function ColumnSum(data: seq<PositionBinData>, c: Column): int
    decreases |data|
  {
    if data == [] then 0 else ColumnSum(data[..|data| - 1], c) + ColumnValue(data[|data| - 1], c)
  }

  /** A row whose position amounts are the pro-rata part of the bin's reserves. */
  ghost predicate ProRata(d: PositionBinData) {
    && d.positionLiquidity <= d.binLiquidity
    && d.positionXAmount == PositionAmount(d.positionLiquidity, d.binXAmount, d.binLiquidity)
    && d.positionYAmount == PositionAmount(d.positionLiquidity, d.binYAmount, d.binLiquidity)
  }

  /** When no share exceeds its bin's supply, the position's totals are within the bins' reserves. */
  lemma {:induction false} PositionTotalsWithinReserves(data: seq<PositionBinData>)
    requires forall i :: 0 <= i < |data| ==> ProRata(data[i])
    ensures ColumnSum(data, PositionX) <= ColumnSum(data, BinX)
    ensures ColumnSum(data, PositionY) <= ColumnSum(data, BinY)
    decreases |data|
  {
    if data != [] {
      var last := data[|data| - 1];
      var prefix := data[..|data| - 1];
      assert forall i :: 0 <= i < |prefix| ==> prefix[i] == data[i];
      PositionTotalsWithinReserves(prefix);
      assert ProRata(last);
      PositionAmountBounded(last.positionLiquidity, last.binXAmount, last.binLiquidity);
      PositionAmountBounded(last.positionLiquidity, last.binYAmount, last.binLiquidity);
    }
  }

  /** A bin where the position holds nothing yields no amounts, and only the pending fees. */
  lemma {:induction false} ZeroShareClaimsPendingOnly(bin: BinLiquidity, feeInfo: UserFeeInfo, accrue: (nat, int) -> int)
    ensures var d := PositionBinDataOf(bin, 0, feeInfo, accrue);
            d.positionXAmount == 0 && d.positionYAmount == 0
            && d.positionFeeXAmount == feeInfo.feeXPending && d.positionFeeYAmount == feeInfo.feeYPending
  {
  }

  /** The per-bin loop of processPosition, with its running totals. */
  method AccumulatePositionBins(bins: seq<BinLiquidity>, posShares: seq<nat>, feeInfos: seq<UserFeeInfo>,
                                accrue: (nat, int) -> int)
    returns (positionData: seq<PositionBinData>, totalXAmount: nat, totalYAmount: nat, feeX: int, feeY: int)
    requires |posShares| >= |bins| && |feeInfos| >= |bins|
    ensures |positionData| == |bins|
    ensures forall i :: 0 <= i < |bins| ==>
              positionData[i] == PositionBinDataOf(bins[i], posShares[i], feeInfos[i], accrue)
    ensures totalXAmount == ColumnSum(positionData, PositionX)
    ensures totalYAmount == ColumnSum(positionData, PositionY)
    ensures feeX == ColumnSum(positionData, FeeX)
    ensures feeY == ColumnSum(positionData, FeeY)
  {
    positionData := [];
    totalXAmount, totalYAmount, feeX, feeY := 0, 0, 0, 0;
    var idx := 0;
    while idx < |bins|
      invariant 0 <= idx <= |bins|
      invariant |positionData| == idx
      invariant forall i :: 0 <= i < idx ==>
                  positionData[i] == PositionBinDataOf(bins[i], posShares[i], feeInfos[i], accrue)
      invariant totalXAmount == ColumnSum(positionData, PositionX)
      invariant totalYAmount == ColumnSum(positionData, PositionY)
      invariant feeX == ColumnSum(positionData, FeeX)
      invariant feeY == ColumnSum(positionData, FeeY)
    {
      var row := PositionBinDataOf(bins[idx], posShares[idx], feeInfos[idx], accrue);
      totalXAmount := totalXAmount + row.positionXAmount;
      totalYAmount := totalYAmount + row.positionYAmount;
      feeX := feeX + row.positionFeeXAmount;
      feeY := feeY + row.positionFeeYAmount;
      positionData := positionData + [row];
      assert positionData[..|positionData| - 1] == positionData[..idx];
      idx := idx + 1;
    }
  }

  /** The transfer-fee calculators of the two tokens and of the reward mints that exist. */
  datatype TransferFees = TransferFees(
    excludeBase: int -> int,
    excludeQuote: int -> int,
    excludeReward0: Option<int -> int>,
    excludeReward1: Option<int -> int>)

  /** The reward figure reported for one reward mint: nothing unless the mint exists. */
  function RewardExcludingTransferFee(reward: nat, exclude: Option<int -> int>): int {
    if exclude.Some? then exclude.value(reward) else 0
  }

  /** What processPosition reports for a position whose bins are `bins`. */
  ghost predicate DescribesPosition(d: PositionData, position: PositionV2Wrapper, bins: seq<BinLiquidity>,
                                    accrue: (nat, int) -> int, fees: TransferFees)
    requires |position.LiquidityShares()| >= |bins| && |position.FeeInfos()| >= |bins|
  {
    && |d.positionBinData| == |bins|
    && (forall i :: 0 <= i < |bins| ==>
          d.positionBinData[i] == PositionBinDataOf(bins[i], position.LiquidityShares()[i], position.FeeInfos()[i], accrue))
    && d.totalXAmount == ColumnSum(d.positionBinData, PositionX)
    && d.totalYAmount == ColumnSum(d.positionBinData, PositionY)
    && d.feeX == ColumnSum(d.positionBinData, FeeX)
    && d.feeY == ColumnSum(d.positionBinData, FeeY)
    && d.rewardOne == 0 && d.rewardTwo == 0
    && d.lastUpdatedAt == position.LastUpdatedAt()
    && d.lowerBinId == position.LowerBinId() && d.upperBinId == position.UpperBinId()
    && d.feeOwner == position.FeeOwner() && d.owner == position.Owner()
    && d.totalClaimedFeeXAmount == position.TotalClaimedFeeXAmount()
    && d.totalClaimedFeeYAmount == position.TotalClaimedFeeYAmount()
    && d.feeXExcludeTransferFee == fees.excludeBase(d.feeX)
    && d.feeYExcludeTransferFee == fees.excludeQuote(d.feeY)
    && d.rewardOneExcludeTransferFee == RewardExcludingTransferFee(0, fees.excludeReward0)
    && d.rewardTwoExcludeTransferFee == RewardExcludingTransferFee(0, fees.excludeReward1)
    && d.totalXAmountExcludeTransferFee == fees.excludeBase(d.totalXAmount)
    && d.totalYAmountExcludeTransferFee == fees.excludeQuote(d.totalYAmount)
  }

  /**
   * processPosition: nothing for a position without bins; otherwise one row per
   * bin of its range, the totals of those rows and the transfer-fee-adjusted totals.
   */
  method ProcessPosition(binStep: nat, position: PositionV2Wrapper,
                         baseTokenDecimal: int, quoteTokenDecimal: int,
                         binArrayMap: map<int, BinArray>, accrue: (nat, int) -> int, fees: TransferFees)
    returns (r: Option<PositionData>)
    requires PagesWellFormed(binArrayMap)
    requires |position.LiquidityShares()| >= position.Width() && |position.FeeInfos()| >= position.Width()
    ensures r.None? <==> position.Width() <= 0
    ensures r.Some? ==>
              var bins := seq(position.Width(), k requires 0 <= k < position.Width() =>
                              BinAt(binArrayMap, position.LowerBinId() + k, binStep, baseTokenDecimal, quoteTokenDecimal));
              DescribesPosition(r.value, position, bins, accrue, fees)
  {
    var bins := GetBinsBetweenLowerAndUpperBound(binStep, position.LowerBinId(), position.UpperBinId(),
                                                 baseTokenDecimal, quoteTokenDecimal, binArrayMap);
    if |bins| == 0 {
      return None;
    }
    var positionData, totalXAmount, totalYAmount, feeX, feeY :=
      AccumulatePositionBins(bins, position.LiquidityShares(), position.FeeInfos(), accrue);
    var rewardOne, rewardTwo := 0, 0;
    var d := PositionData(
      totalXAmount := totalXAmount,
      totalYAmount := totalYAmount,
      positionBinData := positionData,
      lastUpdatedAt := position.LastUpdatedAt(),
      upperBinId := position.UpperBinId(),
      lowerBinId := position.LowerBinId(),
      feeX := feeX,
      feeY := feeY,
      rewardOne := rewardOne,
      rewardTwo := rewardTwo,
      feeOwner := position.FeeOwner(),
      totalClaimedFeeXAmount := position.TotalClaimedFeeXAmount(),
      totalClaimedFeeYAmount := position.TotalClaimedFeeYAmount(),
      feeXExcludeTransferFee := fees.excludeBase(feeX),
      feeYExcludeTransferFee := fees.excludeQuote(feeY),
      rewardOneExcludeTransferFee := RewardExcludingTransferFee(rewardOne, fees.excludeReward0),
      rewardTwoExcludeTransferFee := RewardExcludingTransferFee(rewardTwo, fees.excludeReward1),
      totalXAmountExcludeTransferFee := fees.excludeBase(totalXAmount),
      totalYAmountExcludeTransferFee := fees.excludeQuote(totalYAmount),
      owner := position.Owner());
    WidthTable(binArrayMap, position.LowerBinId(), position.Width(), binStep, baseTokenDecimal, quoteTokenDecimal, bins);
    r := Some(d);
  }

  /** The bins read one by one from `lower` are the table of the `width` bins from it. */
  lemma WidthTable(binArrayMap: map<int, BinArray>, lower: int, width: nat, binStep: nat,
                   baseTokenDecimal: int, quoteTokenDecimal: int, bins: seq<BinLiquidity>)
    requires PagesWellFormed(binArrayMap)
    requires |bins| == width
    requires forall k :: 0 <= k < |bins| ==> bins[k] == BinAt(binArrayMap, lower + k, binStep, baseTokenDecimal, quoteTokenDecimal)
    ensures bins == seq(width, k requires 0 <= k < width =>
                        BinAt(binArrayMap, lower + k, binStep, baseTokenDecimal, quoteTokenDecimal))
  {
  }

  // ---------------------------------------------------------------------------
  // getMaxPriceInBinArrays

  function PageIndex(ba: BinArray): int {
    ba.index
  }

  /** No bin of the page holds token X. */
  predicate NoLiquidityX(ba: BinArray) {
    forall j :: 0 <= j < |ba.bins| ==> ba.bins[j].amountX == 0
  }

  /** Array.prototype.findLastIndex for "amountX is not zero": -1 when there is none. */
  function FindLastIndexWithX(bins: seq<Bin>): (r: int)
    ensures -1 <= r < |bins|
    ensures r >= 0 ==> bins[r].amountX != 0
    ensures forall j :: r < j < |bins| ==> bins[j].amountX == 0
    decreases |bins|
  {
    if bins == [] then -1
    else if bins[|bins| - 1].amountX != 0 then |bins| - 1
    else FindLastIndexWithX(bins[..|bins| - 1])
  }

  /**
   * getMaxPriceInBinArrays: the stored price of the last bin holding X in the
   * highest page holding X, after sorting the pages by index (stably, on a copy).
   * None stands for the undefined price when no bin holds X.
   */
  method GetMaxPriceInBinArrays(binArrayAccounts: seq<BinArray>) returns (r: Option<nat>)
    ensures var sorted := SortBy(binArrayAccounts, PageIndex);
            r.None? <==> forall k :: 0 <= k < |sorted| ==> NoLiquidityX(sorted[k])
    ensures var sorted := SortBy(binArrayAccounts, PageIndex);
            r.Some? ==> exists k :: 0 <= k < |sorted| && !NoLiquidityX(sorted[k])
                          && (forall k2 :: k < k2 < |sorted| ==> NoLiquidityX(sorted[k2]))
                          && FindLastIndexWithX(sorted[k].bins) >= 0
                          && r.value == sorted[k].bins[FindLastIndexWithX(sorted[k].bins)].price
  {
    var sortedBinArrays := SortBy(binArrayAccounts, PageIndex);
    var count := |sortedBinArrays| - 1;
    r := None;
    while count >= 0
      invariant -1 <= count < |sortedBinArrays|
      invariant r.None? ==> forall k :: count < k < |sortedBinArrays| ==> NoLiquidityX(sortedBinArrays[k])
      invariant r.Some? ==> count == -1
      invariant r.Some? ==> exists k :: 0 <= k < |sortedBinArrays| && !NoLiquidityX(sortedBinArrays[k])
                              && (forall k2 :: k < k2 < |sortedBinArrays| ==> NoLiquidityX(sortedBinArrays[k2]))
                              && FindLastIndexWithX(sortedBinArrays[k].bins) >= 0
                              && r.value == sortedBinArrays[k].bins[FindLastIndexWithX(sortedBinArrays[k].bins)].price
      decreases count + 1
    {
      var binArray := sortedBinArrays[count];
      var bins := binArray.bins;
      if NoLiquidityX(binArray) {
        count := count - 1;
      } else {
        var lastBinWithLiquidityIndex := FindLastIndexWithX(bins);
        r := Some(bins[lastBinWithLiquidityIndex].price);
        ghost var k := count;
        count := -1;
        assert k < |sortedBinArrays| && !NoLiquidityX(sortedBinArrays[k]);
      }
    }
    assert sortedBinArrays == SortBy(binArrayAccounts, PageIndex);
  }
}
