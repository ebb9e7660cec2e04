/**
 * swapQuote: the exact-in quote, walking bins one id at a time from the active
 * bin (down when selling X for Y, up otherwise) and summing what each bin
 * fills, then optionally looking ahead for extra bin arrays.
 *
 * Collaborators whose code is outside this model are parameters: the per-bin
 * quote (swapExactInQuoteAtBin) and the token-2022 transfer-fee transforms.
 * Bin arrays are identified by their page index, which determines their
 * derived address one-to-one.
 */
module SwapQuoteEngine {
  import opened Wrappers
  import opened Constants
  import opened Pricing
  import opened Types
  import opened BinArrays
  import opened Fees

  /** What swapExactInQuoteAtBin reports for one bin. */
  datatype BinSwapQuote = BinSwapQuote(amountIn: nat, amountOut: nat, fee: nat, protocolFee: nat)

  /** swapExactInQuoteAtBin(bin, binStep, sParameters, vParameters, inAmountLeft, swapForY). */
  type BinQuoter = (Bin, nat, StaticParameters, VariableParameters, nat, bool) -> BinSwapQuote

  /** A bin never takes more input than is left. */
  ghost predicate QuoterWithinLeft(quoteAtBin: BinQuoter) {
    forall bin, binStep, s, v, left, swapForY ::
      quoteAtBin(bin, binStep, s, v, left, swapForY).amountIn <= left
  }

  /**
   * What the quoting instance brings besides its arguments: the liquidity
   * bitmap of the pair and its extension, MAX_EXTRA_BIN_ARRAYS, the per-bin
   * quote, and the transfer-fee transforms of the input and output mints
   * (calculateTransferFeeExcludedAmount / calculateTransferFeeIncludedAmount).
   */
  datatype QuoteEnv = QuoteEnv(
    bitmap: BinArrayBitmap,
    maxExtraBinArraysLimit: nat,
    quoteAtBin: BinQuoter,
    excludedIn: nat -> nat,
    includedIn: nat -> nat,
    excludedOut: nat -> nat)

  /** The fixed inputs of one walk. */
  datatype WalkContext = WalkContext(
    swapForY: bool,
    bitmap: BinArrayBitmap,
    binArrays: seq<BinArray>,
    binStep: nat,
    sParameters: StaticParameters,
    vParameters: VariableParameters,
    quoteAtBin: BinQuoter)

  ghost predicate ValidContext(ctx: WalkContext) {
    QuoterWithinLeft(ctx.quoteAtBin)
    && forall ba :: ba in ctx.binArrays ==> WellFormedBinArray(ba)
  }

  /** The loop variables of swapQuote's main loop. */
  datatype WalkState = WalkState(
    activeId: int,
    inAmountLeft: nat,
    totalOutAmount: nat,
    feeAmount: nat,
    protocolFeeAmount: nat,
    touched: seq<int>,
    startBin: Option<Bin>,
    lastFilledActiveBinId: int)

  /** How the main loop ended: with all input placed, or because no bin array was left. */
  datatype WalkResult = WalkResult(final: WalkState, ranOut: bool)

  function Direction(swapForY: bool): int {
    if swapForY then -1 else 1
  }

  ghost predicate Distinct(s: seq<int>) {
    forall i, j :: 0 <= i < j < |s| ==> s[i] != s[j]
  }

  /** Records a bin array in the touched list, keeping first-insertion order (a JavaScript Map's keys). */
  function Touch(touched: seq<int>, index: int): (r: seq<int>)
    ensures index in r
    ensures Distinct(touched) ==> Distinct(r)
    ensures forall k :: k in r <==> k in touched || k == index
  {
    if index in touched then touched else touched + [index]
  }

  /**
   * One pass of the main loop over the bin array `ba` found for the current bin:
   * the bin is quoted if `ba` holds it, and the id moves on while input remains.
   */
  function Step(ctx: WalkContext, st: WalkState, ba: BinArray): (r: WalkState)
    requires ValidContext(ctx)
    requires ba in ctx.binArrays
    ensures r.inAmountLeft <= st.inAmountLeft
  {
    var filled :=
      if IsBinIdWithinBinArray(st.activeId, ba.index) then
        var bin := GetBinFromBinArray(st.activeId, ba);
        var q := ctx.quoteAtBin(bin, ctx.binStep, ctx.sParameters, ctx.vParameters, st.inAmountLeft, ctx.swapForY);
        if q.amountIn != 0 then
          st.(inAmountLeft := st.inAmountLeft - q.amountIn,
              totalOutAmount := st.totalOutAmount + q.amountOut,
              feeAmount := st.feeAmount + q.fee,
              protocolFeeAmount := st.protocolFeeAmount + q.protocolFee,
              startBin := if st.startBin.None? then Some(bin) else st.startBin,
              lastFilledActiveBinId := st.activeId)
        else st
      else st;
    filled.(touched := Touch(st.touched, ba.index),
            activeId := if filled.inAmountLeft != 0 then st.activeId + Direction(ctx.swapForY) else st.activeId)
  }

  /**
   * One pass records the bin array; the id moves one bin in the swap direction
   * exactly when input remains; the totals, the first filled bin and the last
   * filled id change only when the current bin took input, and then the last
   * filled id becomes the current one.
   */
  lemma StepFacts(ctx: WalkContext, st: WalkState, ba: BinArray)
    requires ValidContext(ctx)
    requires ba in ctx.binArrays
    ensures var r := Step(ctx, st, ba);
      && r.touched == Touch(st.touched, ba.index)
      && r.activeId == st.activeId + (if r.inAmountLeft != 0 then Direction(ctx.swapForY) else 0)
      && (r.inAmountLeft == st.inAmountLeft ==>
            r.totalOutAmount == st.totalOutAmount && r.feeAmount == st.feeAmount
            && r.protocolFeeAmount == st.protocolFeeAmount
            && r.startBin == st.startBin && r.lastFilledActiveBinId == st.lastFilledActiveBinId)
      && (r.inAmountLeft < st.inAmountLeft ==>
            IsBinIdWithinBinArray(st.activeId, ba.index)
            && r.lastFilledActiveBinId == st.activeId
            && r.startBin.Some?
            && (st.startBin.Some? ==> r.startBin == st.startBin)
            && r.totalOutAmount >= st.totalOutAmount && r.feeAmount >= st.feeAmount
            && r.protocolFeeAmount >= st.protocolFeeAmount)
  {
  }

  /** The main loop of swapQuote, run from `st` until the input is placed or no bin array is left. */
  function Walk(ctx: WalkContext, st: WalkState): (r: WalkResult)
    requires ValidContext(ctx)
    ensures r.final.inAmountLeft <= st.inAmountLeft
    decreases Distance(ctx.swapForY, st.activeId, ctx.bitmap), st.inAmountLeft
  {
    if st.inAmountLeft == 0 then WalkResult(st, false)
    else
      match FindNextBinArrayWithLiquidity(ctx.swapForY, st.activeId, ctx.bitmap, ctx.binArrays)
      case None => WalkResult(st, true)
      case Some(ba) =>
        FoundBinArrayBounds(ctx.swapForY, st.activeId, ctx.bitmap, ba.index);
        Walk(ctx, Step(ctx, st, ba))
  }

  /** The walk follows the swap direction: the last filled id lies between where it started and where it stopped. */
  ghost predicate InDirection(swapForY: bool, activeId: int, lastFilled: int) {
    if swapForY then activeId <= lastFilled else lastFilled <= activeId
  }

  /**
   * What the main loop guarantees: it stops with input left exactly when it
   * ran out of bin arrays (and then none is left in the swap direction); the
   * first filled bin is recorded exactly when some input was placed; the
   * touched list stays free of repeats and only grows; the totals only grow;
   * the id only moves in the swap direction, and the last filled id stays
   * between the start and the stopping point.
   */
  lemma {:induction false} WalkFacts(ctx: WalkContext, st: WalkState)
    requires ValidContext(ctx)
    ensures var r := Walk(ctx, st);
      && (r.ranOut <==> r.final.inAmountLeft != 0)
      && (r.ranOut ==> FindNextBinArrayWithLiquidity(ctx.swapForY, r.final.activeId, ctx.bitmap, ctx.binArrays).None?)
      && (st.startBin.None? ==> (r.final.startBin.None? <==> r.final.inAmountLeft == st.inAmountLeft))
      && (st.startBin.Some? ==> r.final.startBin == st.startBin)
      && (r.final.inAmountLeft == st.inAmountLeft ==> r.final.lastFilledActiveBinId == st.lastFilledActiveBinId)
      && (r.final.lastFilledActiveBinId == st.lastFilledActiveBinId
          || InDirection(ctx.swapForY, r.final.lastFilledActiveBinId, st.activeId))
      && (Distinct(st.touched) ==> Distinct(r.final.touched))
      && (forall k :: k in st.touched ==> k in r.final.touched)
      && r.final.totalOutAmount >= st.totalOutAmount && r.final.feeAmount >= st.feeAmount
      && r.final.protocolFeeAmount >= st.protocolFeeAmount
      && InDirection(ctx.swapForY, r.final.activeId, st.activeId)
      && (InDirection(ctx.swapForY, st.activeId, st.lastFilledActiveBinId) ==>
            InDirection(ctx.swapForY, r.final.activeId, r.final.lastFilledActiveBinId))
    decreases Distance(ctx.swapForY, st.activeId, ctx.bitmap), st.inAmountLeft
  {
    if st.inAmountLeft != 0 {
      match FindNextBinArrayWithLiquidity(ctx.swapForY, st.activeId, ctx.bitmap, ctx.binArrays)
      case None =>
      case Some(ba) =>
        FoundBinArrayBounds(ctx.swapForY, st.activeId, ctx.bitmap, ba.index);
        var next := Step(ctx, st, ba);
        StepFacts(ctx, st, ba);
        WalkFacts(ctx, next);
    }
  }

  /**
   * The look-ahead loop: from where the walk stopped, the next bin arrays with
   * liquidity that the walk did not touch, up to `maxExtraBinArrays` of them.
   * A touched page moves the id by one bin; a new page is recorded and the id
   * jumps just past it.
   */
  function Prefetch(ctx: WalkContext, activeId: int, touched: seq<int>, extras: seq<int>, maxExtraBinArrays: nat): (r: seq<int>)
    ensures extras <= r
    ensures |r| <= if |extras| >= maxExtraBinArrays then |extras| else maxExtraBinArrays
    decreases Distance(ctx.swapForY, activeId, ctx.bitmap)
  {
    if |extras| >= maxExtraBinArrays then extras
    else
      match FindNextBinArrayWithLiquidity(ctx.swapForY, activeId, ctx.bitmap, ctx.binArrays)
      case None => extras
      case Some(ba) =>
        FoundBinArrayBounds(ctx.swapForY, activeId, ctx.bitmap, ba.index);
        if ba.index in touched then
          Prefetch(ctx, activeId + Direction(ctx.swapForY), touched, extras, maxExtraBinArrays)
        else
          Prefetch(ctx, JumpPast(ctx.swapForY, ba.index), touched, extras + [ba.index], maxExtraBinArrays)
  }

  /**
   * One turn of the look-ahead loop on a found page: the loop's next bin and
   * list leave the rest of the look-ahead as it was, and the walk moves on.
   */
  lemma PrefetchStep(ctx: WalkContext, activeId: int, touched: seq<int>, extras: seq<int>, maxExtraBinArrays: nat,
                     ba: BinArray, nextId: int, nextExtras: seq<int>)
    requires |extras| < maxExtraBinArrays
    requires FindNextBinArrayWithLiquidity(ctx.swapForY, activeId, ctx.bitmap, ctx.binArrays) == Some(ba)
    requires ba.index in touched ==> nextId == activeId + Direction(ctx.swapForY) && nextExtras == extras
    requires ba.index !in touched ==> nextId == JumpPast(ctx.swapForY, ba.index) && nextExtras == extras + [ba.index]
    ensures Prefetch(ctx, nextId, touched, nextExtras, maxExtraBinArrays)
         == Prefetch(ctx, activeId, touched, extras, maxExtraBinArrays)
    ensures 0 <= Distance(ctx.swapForY, nextId, ctx.bitmap) < Distance(ctx.swapForY, activeId, ctx.bitmap)
  {
    FoundBinArrayBounds(ctx.swapForY, activeId, ctx.bitmap, ba.index);
    if ba.index in touched {
      assert Prefetch(ctx, activeId, touched, extras, maxExtraBinArrays)
          == Prefetch(ctx, activeId + Direction(ctx.swapForY), touched, extras, maxExtraBinArrays);
    } else {
      assert Prefetch(ctx, activeId, touched, extras, maxExtraBinArrays)
          == Prefetch(ctx, JumpPast(ctx.swapForY, ba.index), touched, extras + [ba.index], maxExtraBinArrays);
    }
  }

  /** The first bin beyond page `index` in the swap direction. */
  function JumpPast(swapForY: bool, index: int): int {
    if swapForY then BinArrayLowerBinId(index) - 1 else BinArrayUpperBinId(index) + 1
  }

  /** Every page in `extras` lies wholly beyond `activeId` in the swap direction. */
  ghost predicate Beyond(swapForY: bool, activeId: int, extras: seq<int>) {
    forall k :: 0 <= k < |extras| ==>
      if swapForY then activeId < BinArrayLowerBinId(extras[k]) else BinArrayUpperBinId(extras[k]) < activeId
  }

  /** A page holding or preceding `activeId` is none of the pages beyond it, and after the jump all of them are beyond. */
  lemma NewPageBeyond(swapForY: bool, activeId: int, extras: seq<int>, index: int)
    requires Distinct(extras) && Beyond(swapForY, activeId, extras)
    requires swapForY ==> BinArrayLowerBinId(index) <= activeId
    requires !swapForY ==> activeId <= BinArrayUpperBinId(index)
    ensures Distinct(extras + [index])
    ensures Beyond(swapForY, JumpPast(swapForY, index), extras + [index])
  {
    forall k | 0 <= k < |extras|
      ensures extras[k] != index
    {
    }
  }

  /**
   * The look-ahead adds at most `maxExtraBinArrays` pages, none of them
   * touched by the walk and none twice, after the ones already collected.
   */
  lemma {:induction false} PrefetchFacts(ctx: WalkContext, activeId: int, touched: seq<int>, extras: seq<int>,
                                         maxExtraBinArrays: nat)
    requires Distinct(extras) && Beyond(ctx.swapForY, activeId, extras)
    requires forall k :: k in extras ==> k !in touched
    ensures var r := Prefetch(ctx, activeId, touched, extras, maxExtraBinArrays);
      && (|extras| <= maxExtraBinArrays ==> |r| <= maxExtraBinArrays)
      && Distinct(r)
      && (forall k :: k in r ==> k !in touched)
    decreases Distance(ctx.swapForY, activeId, ctx.bitmap)
  {
    if |extras| < maxExtraBinArrays {
      match FindNextBinArrayWithLiquidity(ctx.swapForY, activeId, ctx.bitmap, ctx.binArrays)
      case None =>
      case Some(ba) =>
        FoundBinArrayBounds(ctx.swapForY, activeId, ctx.bitmap, ba.index);
        if ba.index in touched {
          var next := activeId + Direction(ctx.swapForY);
          assert Beyond(ctx.swapForY, next, extras);
          PrefetchFacts(ctx, next, touched, extras, maxExtraBinArrays);
        } else {
          NewPageBeyond(ctx.swapForY, activeId, extras, ba.index);
          PrefetchFacts(ctx, JumpPast(ctx.swapForY, ba.index), touched, extras + [ba.index], maxExtraBinArrays);
        }
    }
  }

  /** Division rounding toward zero, as bn.js `div` does on a negative product. */
  function TruncDiv(a: int, b: int): (r: int)
    requires b > 0
    ensures a >= 0 ==> r * b <= a < (r + 1) * b
    ensures a < 0 ==> (r - 1) * b < a <= r * b
  {
    if a >= 0 then a / b else -((-a) / b)
  }

  /** minOutAmount: the output less the allowed slippage in basis points. */
  function MinOutAmount(outAmount: nat, allowedSlippage: int): (r: int)
    ensures allowedSlippage == 0 ==> r == outAmount
    ensures allowedSlippage == BASIS_POINT_MAX ==> r == 0
    ensures allowedSlippage > BASIS_POINT_MAX ==> r <= 0
  {
    TruncDiv(outAmount * (BASIS_POINT_MAX - allowedSlippage), BASIS_POINT_MAX)
  }

  /** With a slippage between 0 and 100%, the minimum is between 0 and the quoted output. */
  lemma MinOutAmountBounds(outAmount: nat, allowedSlippage: int)
    requires 0 <= allowedSlippage <= BASIS_POINT_MAX
    ensures 0 <= MinOutAmount(outAmount, allowedSlippage) <= outAmount
    ensures allowedSlippage == 0 ==> MinOutAmount(outAmount, allowedSlippage) == outAmount
  {
    var a := outAmount * (BASIS_POINT_MAX - allowedSlippage);
    assert 0 <= a <= outAmount * BASIS_POINT_MAX;
    var m := MinOutAmount(outAmount, allowedSlippage);
    assert m * BASIS_POINT_MAX <= outAmount * BASIS_POINT_MAX;
  }

  /** The walk's starting point: all (transfer-fee excluded) input still to place, nothing touched. */
  function InitialState(activeId: int, inAmountLeft: nat): WalkState {
    WalkState(activeId, inAmountLeft, 0, 0, 0, [], None, activeId)
  }

  /** The walk a quote makes, with the variable parameters moved as swapQuote moves them. */
  function QuoteContext(env: QuoteEnv, pair: LbPair, swapForY: bool, binArrays: seq<BinArray>,
                        currentTimestamp: int): WalkContext
  {
    WalkContext(swapForY, env.bitmap, binArrays, pair.binStep, pair.parameters,
                SwapQuoteOrder(pair.vParameters, pair.parameters, pair.activeId, currentTimestamp), env.quoteAtBin)
  }

  ghost predicate ValidEnv(env: QuoteEnv, binArrays: seq<BinArray>) {
    QuoterWithinLeft(env.quoteAtBin)
    && forall ba :: ba in binArrays ==> WellFormedBinArray(ba)
  }

  /** The main loop of a quote. */
  function QuoteWalk(env: QuoteEnv, pair: LbPair, inAmount: nat, swapForY: bool, binArrays: seq<BinArray>,
                     currentTimestamp: int): WalkResult
    requires ValidEnv(env, binArrays)
  {
    Walk(QuoteContext(env, pair, swapForY, binArrays, currentTimestamp),
         InitialState(pair.activeId, env.excludedIn(inAmount)))
  }

  /** What swapQuote returns or throws, as a function of its inputs. */
  function SwapQuoteSpec(env: QuoteEnv, pair: LbPair, inAmount: nat, swapForY: bool, allowedSlippage: int,
                         binArrays: seq<BinArray>, isPartialFill: bool, maxExtraBinArrays: int,
                         currentTimestamp: int): (r: Result<SwapQuote, DlmmError>)
    requires ValidEnv(env, binArrays)
    ensures r == Err(InvalidMaxExtraBinArrays) <==> maxExtraBinArrays < 0 || maxExtraBinArrays > env.maxExtraBinArraysLimit
    ensures r.Ok? ==> r.value.consumedInAmount <= inAmount
  {
    if maxExtraBinArrays < 0 || maxExtraBinArrays > env.maxExtraBinArraysLimit then Err(InvalidMaxExtraBinArrays)
    else
      var ctx := QuoteContext(env, pair, swapForY, binArrays, currentTimestamp);
      var w := QuoteWalk(env, pair, inAmount, swapForY, binArrays, currentTimestamp);
      if w.ranOut && !isPartialFill then Err(SwapQuoteInsufficientLiquidity(true))
      else if w.final.startBin.None? then Err(SwapQuoteInsufficientLiquidity(false))
      else
        var extras := if maxExtraBinArrays > 0 then Prefetch(ctx, w.final.activeId, w.final.touched, [], maxExtraBinArrays) else [];
        Ok(QuoteFromWalk(env, pair.binStep, inAmount, allowedSlippage, w.final, extras))
  }

  /**
   * The quote assembled from where the main loop stopped: the input actually
   * placed, grossed up by the input transfer fee and clamped to `inAmount`; the
   * output net of the output transfer fee; the fees; the slippage floor; the
   * bin arrays; and the price of the last bin that took input.
   */
  function QuoteFromWalk(env: QuoteEnv, binStep: nat, inAmount: nat, allowedSlippage: int, final: WalkState,
                         extras: seq<int>): (q: SwapQuote)
    requires final.inAmountLeft <= env.excludedIn(inAmount)
    ensures q.consumedInAmount <= inAmount
  {
    var included := env.includedIn(env.excludedIn(inAmount) - final.inAmountLeft);
    var outAmount := env.excludedOut(final.totalOutAmount);
    Types.SwapQuote(
      consumedInAmount := if included > inAmount then inAmount else included,
      outAmount := outAmount,
      fee := final.feeAmount,
      protocolFee := final.protocolFeeAmount,
      minOutAmount := MinOutAmount(outAmount, allowedSlippage),
      binArraysPubkey := final.touched + extras,
      endPrice := GetPriceOfBinByBinId(final.lastFilledActiveBinId, binStep))
  }

  lemma DistinctConcat(a: seq<int>, b: seq<int>)
    requires Distinct(a) && Distinct(b)
    requires forall k :: k in b ==> k !in a
    ensures Distinct(a + b)
  {
    forall i, j | 0 <= i < j < |a + b|
      ensures (a + b)[i] != (a + b)[j]
    {
      if j >= |a| && i < |a| {
        assert (a + b)[j] in b;
        assert (a + b)[i] in a;
      }
    }
  }

  /**
   * The bin arrays a quote lists are the ones the walk touched, in the order
   * first touched, followed by at most `maxExtraBinArrays` look-ahead pages; no
   * page is listed twice.
   */
  lemma SwapQuoteBinArrays(env: QuoteEnv, pair: LbPair, inAmount: nat, swapForY: bool, allowedSlippage: int,
                           binArrays: seq<BinArray>, isPartialFill: bool, maxExtraBinArrays: int,
                           currentTimestamp: int)
    requires ValidEnv(env, binArrays)
    ensures var r := SwapQuoteSpec(env, pair, inAmount, swapForY, allowedSlippage, binArrays, isPartialFill,
                                   maxExtraBinArrays, currentTimestamp);
            var touched := QuoteWalk(env, pair, inAmount, swapForY, binArrays, currentTimestamp).final.touched;
            r.Ok? ==>
              && Distinct(r.value.binArraysPubkey)
              && |touched| <= |r.value.binArraysPubkey| <= |touched| + maxExtraBinArrays
              && r.value.binArraysPubkey[..|touched|] == touched
  {
    var r := SwapQuoteSpec(env, pair, inAmount, swapForY, allowedSlippage, binArrays, isPartialFill,
                           maxExtraBinArrays, currentTimestamp);
    if r.Ok? {
      var ctx := QuoteContext(env, pair, swapForY, binArrays, currentTimestamp);
      var st := InitialState(pair.activeId, env.excludedIn(inAmount));
      var w := Walk(ctx, st);
      WalkFacts(ctx, st);
      var extras := if maxExtraBinArrays > 0 then Prefetch(ctx, w.final.activeId, w.final.touched, [], maxExtraBinArrays) else [];
      if maxExtraBinArrays > 0 {
        PrefetchFacts(ctx, w.final.activeId, w.final.touched, [], maxExtraBinArrays);
      }
      DistinctConcat(w.final.touched, extras);
      assert r.value.binArraysPubkey == w.final.touched + extras;
    }
  }

  /**
   * The three ways a quote fails for lack of liquidity: the bin arrays run out
   * while input remains and partial fill is off; no bin takes any input (which
   * includes a zero input amount); and a partial fill that takes nothing. A
   * quote that succeeds has placed some input.
   */
  lemma SwapQuoteInsufficientLiquidityCases(env: QuoteEnv, pair: LbPair, inAmount: nat, swapForY: bool,
                                            allowedSlippage: int, binArrays: seq<BinArray>, isPartialFill: bool,
                                            maxExtraBinArrays: int, currentTimestamp: int)
    requires ValidEnv(env, binArrays)
    requires 0 <= maxExtraBinArrays <= env.maxExtraBinArraysLimit
    ensures var r := SwapQuoteSpec(env, pair, inAmount, swapForY, allowedSlippage, binArrays, isPartialFill,
                                   maxExtraBinArrays, currentTimestamp);
            var w := QuoteWalk(env, pair, inAmount, swapForY, binArrays, currentTimestamp);
            && (w.ranOut && !isPartialFill ==> r == Err(SwapQuoteInsufficientLiquidity(true)))
            && (w.final.inAmountLeft == env.excludedIn(inAmount) ==> r.Err? && r.error.SwapQuoteInsufficientLiquidity?)
            && (env.excludedIn(inAmount) == 0 ==> r == Err(SwapQuoteInsufficientLiquidity(false)))
            && (r.Ok? ==> w.final.inAmountLeft < env.excludedIn(inAmount))
  {
    var ctx := QuoteContext(env, pair, swapForY, binArrays, currentTimestamp);
    WalkFacts(ctx, InitialState(pair.activeId, env.excludedIn(inAmount)));
  }

  /** The end price is the price of the last bin that took input. */
  lemma SwapQuoteEndPrice(env: QuoteEnv, pair: LbPair, inAmount: nat, swapForY: bool, allowedSlippage: int,
                          binArrays: seq<BinArray>, isPartialFill: bool, maxExtraBinArrays: int,
                          currentTimestamp: int)
    requires ValidEnv(env, binArrays)
    ensures var r := SwapQuoteSpec(env, pair, inAmount, swapForY, allowedSlippage, binArrays, isPartialFill,
                                   maxExtraBinArrays, currentTimestamp);
            var w := QuoteWalk(env, pair, inAmount, swapForY, binArrays, currentTimestamp);
            r.Ok? ==>
              && r.value.endPrice == GetPriceOfBinByBinId(w.final.lastFilledActiveBinId, pair.binStep)
              && InDirection(swapForY, w.final.activeId, w.final.lastFilledActiveBinId)
              && InDirection(swapForY, w.final.lastFilledActiveBinId, pair.activeId)
  {
    var ctx := QuoteContext(env, pair, swapForY, binArrays, currentTimestamp);
    WalkFacts(ctx, InitialState(pair.activeId, env.excludedIn(inAmount)));
  }

  /**
   * The main loop of swapQuote. Where the source throws on running out of bin
   * arrays without partial fill, this loop stops with `ranOut` set and the
   * caller throws; nothing else happens in between, so the outcome is the same.
   */
  method WalkBins(ctx: WalkContext, activeId0: int, inAmount: nat) returns (w: WalkResult)
    requires ValidContext(ctx)
    ensures w == Walk(ctx, InitialState(activeId0, inAmount))
  {
    ghost var spec := Walk(ctx, InitialState(activeId0, inAmount));
    var activeId := activeId0;
    var inAmountLeft: nat := inAmount;
    var startBin: Option<Bin> := None;
    var binArraysForSwap: seq<int> := [];
    var totalOutAmount: nat := 0;
    var feeAmount: nat := 0;
    var protocolFeeAmount: nat := 0;
    var lastFilledActiveBinId := activeId;

    while inAmountLeft != 0
      invariant Walk(ctx, WalkState(activeId, inAmountLeft, totalOutAmount, feeAmount, protocolFeeAmount,
                                    binArraysForSwap, startBin, lastFilledActiveBinId)) == spec
      decreases Distance(ctx.swapForY, activeId, ctx.bitmap), inAmountLeft
    {
      var binArrayAccountToSwap := FindNextBinArrayWithLiquidity(ctx.swapForY, activeId, ctx.bitmap, ctx.binArrays);
      if binArrayAccountToSwap.None? {
        return WalkResult(WalkState(activeId, inAmountLeft, totalOutAmount, feeAmount, protocolFeeAmount,
                                    binArraysForSwap, startBin, lastFilledActiveBinId), true);
      }
      var ba := binArrayAccountToSwap.value;
      FoundBinArrayBounds(ctx.swapForY, activeId, ctx.bitmap, ba.index);
      ghost var before := WalkState(activeId, inAmountLeft, totalOutAmount, feeAmount, protocolFeeAmount,
                                    binArraysForSwap, startBin, lastFilledActiveBinId);

      binArraysForSwap := Touch(binArraysForSwap, ba.index);

      if IsBinIdWithinBinArray(activeId, ba.index) {
        var bin := GetBinFromBinArray(activeId, ba);
        var q := ctx.quoteAtBin(bin, ctx.binStep, ctx.sParameters, ctx.vParameters, inAmountLeft, ctx.swapForY);
        if q.amountIn != 0 {
          inAmountLeft := inAmountLeft - q.amountIn;
          totalOutAmount := totalOutAmount + q.amountOut;
          feeAmount := feeAmount + q.fee;
          protocolFeeAmount := protocolFeeAmount + q.protocolFee;
          if startBin.None? {
            startBin := Some(bin);
          }
          lastFilledActiveBinId := activeId;
        }
      }

      if inAmountLeft != 0 {
        activeId := activeId + Direction(ctx.swapForY);
      }
      assert WalkState(activeId, inAmountLeft, totalOutAmount, feeAmount, protocolFeeAmount,
                       binArraysForSwap, startBin, lastFilledActiveBinId) == Step(ctx, before, ba);
    }
    w := WalkResult(WalkState(activeId, inAmountLeft, totalOutAmount, feeAmount, protocolFeeAmount,
                              binArraysForSwap, startBin, lastFilledActiveBinId), false);
  }

  /** The look-ahead loop of swapQuote, from the bin where the main loop stopped. */
  method CollectExtraBinArrays(ctx: WalkContext, activeId0: int, binArraysForSwap: seq<int>, maxExtraBinArrays: nat)
    returns (extraBinArrays: seq<int>)
    ensures extraBinArrays == Prefetch(ctx, activeId0, binArraysForSwap, [], maxExtraBinArrays)
  {
    ghost var spec := Prefetch(ctx, activeId0, binArraysForSwap, [], maxExtraBinArrays);
    var activeId := activeId0;
    extraBinArrays := [];
    while |extraBinArrays| < maxExtraBinArrays
      invariant Prefetch(ctx, activeId, binArraysForSwap, extraBinArrays, maxExtraBinArrays) == spec
      decreases Distance(ctx.swapForY, activeId, ctx.bitmap)
    {
      var binArrayAccountToSwap := FindNextBinArrayWithLiquidity(ctx.swapForY, activeId, ctx.bitmap, ctx.binArrays);
      if binArrayAccountToSwap.None? {
        break;
      }
      var ba := binArrayAccountToSwap.value;
      ghost var before, listed := activeId, extraBinArrays;
      if ba.index in binArraysForSwap {
        activeId := activeId + Direction(ctx.swapForY);
      } else {
        extraBinArrays := extraBinArrays + [ba.index];
        var lowerBinId := BinArrayLowerBinId(ba.index);
        var upperBinId := BinArrayUpperBinId(ba.index);
        if ctx.swapForY {
          activeId := lowerBinId - 1;
        } else {
          activeId := upperBinId + 1;
        }
      }
      PrefetchStep(ctx, before, binArraysForSwap, listed, maxExtraBinArrays, ba, activeId, extraBinArrays);
    }
  }

  /**
   * The variable parameters a quote prices with: a copy of the pair's, moved by
   * updateVolatilityAccumulator and then updateReference. The pair's own
   * parameters are a value here and stay as they were.
   */
  method SwapQuoteParameters(pair: LbPair, currentTimestamp: int) returns (v: VariableParameters)
    ensures v == SwapQuoteOrder(pair.vParameters, pair.parameters, pair.activeId, currentTimestamp)
  {
    var vParameterClone := new VariableParametersState.Clone(pair.vParameters);
    UpdateVolatilityAccumulator(vParameterClone, pair.parameters, pair.activeId);
    UpdateReference(pair.activeId, vParameterClone, pair.parameters, currentTimestamp);
    v := vParameterClone.Value();
  }

  /**
   * swapQuote. Date.now() is the `currentTimestamp` parameter (whole seconds);
   * the rest of the instance's state comes in `env`.
   */
  method SwapQuote(env: QuoteEnv, pair: LbPair, inAmount: nat, swapForY: bool, allowedSlippage: int,
                   binArrays: seq<BinArray>, isPartialFill: bool, maxExtraBinArrays: int, currentTimestamp: int)
    returns (r: Result<SwapQuote, DlmmError>)
    requires ValidEnv(env, binArrays)
    ensures r == SwapQuoteSpec(env, pair, inAmount, swapForY, allowedSlippage, binArrays, isPartialFill,
                               maxExtraBinArrays, currentTimestamp)
  {
    if maxExtraBinArrays < 0 || maxExtraBinArrays > env.maxExtraBinArraysLimit {
      return Err(InvalidMaxExtraBinArrays);
    }

    var transferFeeExcludedAmountIn := env.excludedIn(inAmount);

    var vParameters := SwapQuoteParameters(pair, currentTimestamp);
    var ctx := WalkContext(swapForY, env.bitmap, binArrays, pair.binStep, pair.parameters, vParameters, env.quoteAtBin);
    assert ctx == QuoteContext(env, pair, swapForY, binArrays, currentTimestamp);

    var w := WalkBins(ctx, pair.activeId, transferFeeExcludedAmountIn);
    if w.ranOut && !isPartialFill {
      return Err(SwapQuoteInsufficientLiquidity(true));
    }
    if w.final.startBin.None? {
      return Err(SwapQuoteInsufficientLiquidity(false));
    }

    var extraBinArrays: seq<int> := [];
    if maxExtraBinArrays > 0 && maxExtraBinArrays <= env.maxExtraBinArraysLimit {
      extraBinArrays := CollectExtraBinArrays(ctx, w.final.activeId, w.final.touched, maxExtraBinArrays);
    }

    var quote := FinishQuote(env, pair.binStep, inAmount, allowedSlippage, w.final, extraBinArrays);
    r := Ok(quote);
  }

  /** The tail of swapQuote after the loops: amounts through the transfer-fee transforms, slippage, end price. */
  method FinishQuote(env: QuoteEnv, binStep: nat, inAmount: nat, allowedSlippage: int, final: WalkState,
                     extraBinArrays: seq<int>) returns (q: SwapQuote)
    requires final.inAmountLeft <= env.excludedIn(inAmount)
    ensures q == QuoteFromWalk(env, binStep, inAmount, allowedSlippage, final, extraBinArrays)
  {
    var actualInAmount := env.excludedIn(inAmount) - final.inAmountLeft;
    var transferFeeIncludedInAmount := env.includedIn(actualInAmount);
    if transferFeeIncludedInAmount > inAmount {
      transferFeeIncludedInAmount := inAmount;
    }

    var endPrice := GetPriceOfBinByBinId(final.lastFilledActiveBinId, binStep);

    var binArraysPubkey := final.touched + extraBinArrays;
    var transferFeeExcludedAmountOut := env.excludedOut(final.totalOutAmount);
    var minOutAmount := TruncDiv(transferFeeExcludedAmountOut * (BASIS_POINT_MAX - allowedSlippage), BASIS_POINT_MAX);

    q := Types.SwapQuote(transferFeeIncludedInAmount, transferFeeExcludedAmountOut, final.feeAmount,
                         final.protocolFeeAmount, minOutAmount, binArraysPubkey, endPrice);
  }
}
