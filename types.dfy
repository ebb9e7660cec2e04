/**
 * Records of the liquidity-book pair: bins, bin arrays (pages of bins), the
 * static and variable fee parameters, positions, and the records the SDK hands
 * back to its callers (BinLiquidity, SwapQuote, PositionData, distributions).
 * Public keys are kept as byte strings; amounts and accumulators as unbounded
 * naturals (the SDK holds them in arbitrary-precision BN values).
 */
module Types {
  import opened Pricing

  newtype uint8 = x: int | 0 <= x < 256

  type PublicKey = seq<uint8>

  /** One price bin: reserves, cached fixed-point price, shares and fee accumulators. */
  datatype Bin = Bin(
    amountX: nat,
    amountY: nat,
    price: nat,
    liquiditySupply: nat,
    rewardPerTokenStored: seq<nat>,
    feeAmountXPerTokenStored: nat,
    feeAmountYPerTokenStored: nat)

  /** A page of bins; page `index` holds bins `index*70 .. index*70+69`. */
  datatype BinArray = BinArray(index: int, bins: seq<Bin>)

  datatype StaticParameters = StaticParameters(
    baseFactor: nat,
    filterPeriod: nat,
    decayPeriod: nat,
    reductionFactor: nat,
    variableFeeControl: nat,
    maxVolatilityAccumulator: nat,
    minBinId: int,
    maxBinId: int,
    protocolShare: nat)

  datatype VariableParameters = VariableParameters(
    volatilityAccumulator: nat,
    volatilityReference: nat,
    indexReference: int,
    lastUpdateTimestamp: int)

  /** The part of the pair account the quoting and planning code reads. */
  datatype LbPair = LbPair(
    activeId: int,
    binStep: nat,
    parameters: StaticParameters,
    vParameters: VariableParameters)

  datatype UserFeeInfo = UserFeeInfo(
    feeXPerTokenComplete: nat,
    feeYPerTokenComplete: nat,
    feeXPending: nat,
    feeYPending: nat)

  datatype UserRewardInfo = UserRewardInfo(
    rewardPerTokenCompletes: seq<nat>,
    rewardPendings: seq<nat>)

  /** The decoded position account. */
  datatype Position = Position(
    lbPair: PublicKey,
    owner: PublicKey,
    liquidityShares: seq<nat>,
    rewardInfos: seq<UserRewardInfo>,
    lowerBinId: int,
    upperBinId: int,
    lastUpdatedAt: int,
    feeInfos: seq<UserFeeInfo>,
    totalClaimedFeeXAmount: nat,
    totalClaimedFeeYAmount: nat)

  /** Fee percentages of a pair (exact rationals here). */
  datatype FeeInfo = FeeInfo(
    baseFeeRatePercentage: real,
    maxFeeRatePercentage: real,
    protocolFeePercentage: real)

  /** A bin as reported to callers, with its price in lamports and per whole token. */
  datatype BinLiquidity = BinLiquidity(
    binId: int,
    xAmount: nat,
    yAmount: nat,
    supply: nat,
    version: int,
    price: real,
    pricePerToken: real,
    feeAmountXPerTokenStored: nat,
    feeAmountYPerTokenStored: nat,
    rewardPerTokenStored: seq<nat>)

  /** The result of a swap quote; bin arrays are identified by their page index. */
  datatype SwapQuote = SwapQuote(
    consumedInAmount: nat,
    outAmount: nat,
    fee: nat,
    protocolFee: nat,
    minOutAmount: int,
    binArraysPubkey: seq<int>,
    endPrice: real)

  datatype PositionBinData = PositionBinData(
    binId: int,
    price: real,
    pricePerToken: real,
    binXAmount: nat,
    binYAmount: nat,
    binLiquidity: nat,
    positionLiquidity: nat,
    positionXAmount: nat,
    positionYAmount: nat,
    positionFeeXAmount: int,
    positionFeeYAmount: int,
    positionRewardAmount: seq<nat>)

  datatype PositionData = PositionData(
    totalXAmount: nat,
    totalYAmount: nat,
    positionBinData: seq<PositionBinData>,
    lastUpdatedAt: int,
    upperBinId: int,
    lowerBinId: int,
    feeX: int,
    feeY: int,
    rewardOne: nat,
    rewardTwo: nat,
    feeOwner: PublicKey,
    totalClaimedFeeXAmount: nat,
    totalClaimedFeeYAmount: nat,
    feeXExcludeTransferFee: int,
    feeYExcludeTransferFee: int,
    rewardOneExcludeTransferFee: int,
    rewardTwoExcludeTransferFee: int,
    totalXAmountExcludeTransferFee: int,
    totalYAmountExcludeTransferFee: int,
    owner: PublicKey)

  /** Percentages (0-100) of each token deposited into one bin. */
  datatype BinLiquidityDistribution = BinLiquidityDistribution(
    binId: int,
    distributionX: int,
    distributionY: int)

  /** The errors the modelled code throws. */
  datatype DlmmError =
    | InvalidMaxExtraBinArrays
      /** SWAP_QUOTE_INSUFFICIENT_LIQUIDITY; `inBinArrays` tells the two messages apart. */
    | SwapQuoteInsufficientLiquidity(inBinArrays: bool)
    | DiscontinuousBinId
    | PositionWidthOutOfRange(maxBins: int)
    | LowerBinIdBelowPosition
    | UpperBinIdAbovePosition
    | UnknownPositionAccount
      /** A division by zero inside bn.js. */
    | DivisionByZero
      /** A read through an undefined array element (an empty input list). */
    | UndefinedElement

  /** Price per whole token: the lamport price scaled by 10^(baseDecimals - quoteDecimals). */
  function PricePerToken(price: real, baseTokenDecimal: int, quoteTokenDecimal: int): real {
    price * Pow(10.0, baseTokenDecimal - quoteTokenDecimal)
  }

  /** BinLiquidity.fromBin: the bin's own reserves and accumulators at bin `binId`. */
  function BinLiquidityFromBin(bin: Bin, binId: int, binStep: nat,
                               baseTokenDecimal: int, quoteTokenDecimal: int, version: int): (r: BinLiquidity)
    ensures r.binId == binId && r.version == version && r.price == GetPriceOfBinByBinId(binId, binStep)
    ensures BinOfLiquidity(r, bin.price) == bin
  {
    var price := GetPriceOfBinByBinId(binId, binStep);
    BinLiquidity(
      binId := binId,
      xAmount := bin.amountX,
      yAmount := bin.amountY,
      supply := bin.liquiditySupply,
      version := version,
      price := price,
      pricePerToken := PricePerToken(price, baseTokenDecimal, quoteTokenDecimal),
      feeAmountXPerTokenStored := bin.feeAmountXPerTokenStored,
      feeAmountYPerTokenStored := bin.feeAmountYPerTokenStored,
      rewardPerTokenStored := bin.rewardPerTokenStored)
  }

  /** BinLiquidity.empty: a bin with nothing in it at bin `binId`. */
  function BinLiquidityEmpty(binId: int, binStep: nat,
                             baseTokenDecimal: int, quoteTokenDecimal: int, version: int): (r: BinLiquidity)
    ensures r.binId == binId && r.version == version
    ensures r.xAmount == 0 && r.yAmount == 0 && r.supply == 0
    ensures r.feeAmountXPerTokenStored == 0 && r.feeAmountYPerTokenStored == 0 && r.rewardPerTokenStored == [0, 0]
    ensures r.price == GetPriceOfBinByBinId(binId, binStep)
  {
    var price := GetPriceOfBinByBinId(binId, binStep);
    BinLiquidity(
      binId := binId,
      xAmount := 0,
      yAmount := 0,
      supply := 0,
      version := version,
      price := price,
      pricePerToken := PricePerToken(price, baseTokenDecimal, quoteTokenDecimal),
      feeAmountXPerTokenStored := 0,
      feeAmountYPerTokenStored := 0,
      rewardPerTokenStored := [0, 0])
  }

  /** The bin with no reserves, no shares, no fees and no rewards. */
  function ZeroBin(price: nat): Bin {
    Bin(0, 0, price, 0, [0, 0], 0, 0)
  }

  /**
   * The two constructors agree: `empty` is `fromBin` of a bin holding nothing,
   * and conversely `fromBin` only gives `empty` for such a bin (up to its price cache).
   */
  lemma {:induction false} EmptyIsFromBinOfZeroBin(bin: Bin, binId: int, binStep: nat,
                                                   baseTokenDecimal: int, quoteTokenDecimal: int, version: int)
    ensures BinLiquidityFromBin(bin, binId, binStep, baseTokenDecimal, quoteTokenDecimal, version)
         == BinLiquidityEmpty(binId, binStep, baseTokenDecimal, quoteTokenDecimal, version)
        <==> bin == ZeroBin(bin.price)
  {
    var a := BinLiquidityFromBin(bin, binId, binStep, baseTokenDecimal, quoteTokenDecimal, version);
    var e := BinLiquidityEmpty(binId, binStep, baseTokenDecimal, quoteTokenDecimal, version);
    if a == e {
      assert bin.rewardPerTokenStored == [0, 0];
    }
  }

  /** The stored bin a reported bin was read from, given the price cache the report drops. */
  function BinOfLiquidity(l: BinLiquidity, price: nat): Bin {
    Bin(l.xAmount, l.yAmount, price, l.supply, l.rewardPerTokenStored,
        l.feeAmountXPerTokenStored, l.feeAmountYPerTokenStored)
  }

  /**
   * fromBin loses nothing of the bin but its price cache: the bin is recovered
   * from the report. Both constructors report the bin id and version they are
   * given, and the same price for the same bin.
   */
  lemma FromBinKeepsBin(bin: Bin, binId: int, binStep: nat,
                        baseTokenDecimal: int, quoteTokenDecimal: int, version: int)
    ensures var r := BinLiquidityFromBin(bin, binId, binStep, baseTokenDecimal, quoteTokenDecimal, version);
            BinOfLiquidity(r, bin.price) == bin && r.binId == binId && r.version == version
    ensures var r := BinLiquidityEmpty(binId, binStep, baseTokenDecimal, quoteTokenDecimal, version);
            BinOfLiquidity(r, bin.price) == ZeroBin(bin.price) && r.binId == binId && r.version == version
    ensures BinLiquidityFromBin(bin, binId, binStep, baseTokenDecimal, quoteTokenDecimal, version).price
         == BinLiquidityEmpty(binId, binStep, baseTokenDecimal, quoteTokenDecimal, version).price
         == GetPriceOfBinByBinId(binId, binStep)
  {
  }

  /** Powers of ten with opposite exponents cancel. */
  lemma {:induction false} PowReciprocal(b: real, e: int)
    requires b > 0.0
    ensures Pow(b, e) * Pow(b, -e) == 1.0
  {
    if e > 0 {
      assert Pow(b, -e) == 1.0 / PowNat(b, e);
    } else if e < 0 {
      assert Pow(b, e) == 1.0 / PowNat(b, -e);
    }
  }

  /**
   * The per-token price the constructors report is the lamport price moved by the
   * decimal difference: scaling back by 10^(quote - base) recovers the lamport price.
   */
  lemma PricePerTokenRoundTrip(bin: Bin, binId: int, binStep: nat,
                               baseTokenDecimal: int, quoteTokenDecimal: int, version: int)
    ensures var r := BinLiquidityFromBin(bin, binId, binStep, baseTokenDecimal, quoteTokenDecimal, version);
            r.pricePerToken * Pow(10.0, quoteTokenDecimal - baseTokenDecimal) == r.price
    ensures var r := BinLiquidityEmpty(binId, binStep, baseTokenDecimal, quoteTokenDecimal, version);
            r.pricePerToken * Pow(10.0, quoteTokenDecimal - baseTokenDecimal) == r.price
  {
    PricePerTokenScalesBack(GetPriceOfBinByBinId(binId, binStep), baseTokenDecimal, quoteTokenDecimal);
  }

  lemma PricePerTokenScalesBack(price: real, baseTokenDecimal: int, quoteTokenDecimal: int)
    ensures PricePerToken(price, baseTokenDecimal, quoteTokenDecimal) * Pow(10.0, quoteTokenDecimal - baseTokenDecimal) == price
  {
    var e := baseTokenDecimal - quoteTokenDecimal;
    PowReciprocal(10.0, e);
    assert quoteTokenDecimal - baseTokenDecimal == -e;
    ScaleCancels(price, Pow(10.0, e), Pow(10.0, -e));
  }

  lemma ScaleCancels(p: real, a: real, c: real)
    requires a * c == 1.0
    ensures p * a * c == p
  {
    assert p * a * c == p * (a * c);
  }
}
