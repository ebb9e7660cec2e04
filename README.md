# DLMM SDK core in Dafny

This project models the quoting and position-planning core of a TypeScript SDK for a
Dynamic Liquidity Market Maker (DLMM). A DLMM is a liquidity-book pair. Its liquidity
sits in discrete price bins. Bin `id` has price `(1 + binStep/10000)^id`. Bins are stored
in pages ("bin arrays") of 70 bins each. A swap walks from the active bin, one bin at a
time and in the swap direction, until the input is placed.

The model covers these parts of the SDK:

- the bin price and the `BinLiquidity` report built from a stored bin;
- the page arithmetic and the look-up of the next page that holds liquidity;
- the volatility-fee state (the accumulator and the reference) and the fee summary;
- the swap quote: its main loop over bins, the start-bin and liquidity errors, the
  end price, the minimum output and the look-ahead for extra bin arrays;
- the checks on a deposit's bin distribution: that it is contiguous and that it fits
  the position's width and range;
- the table of bins between two ids, the aggregation of a position's bins, and the
  highest price holding token X;
- the position account wrapper;
- the liquidity planner: the Spot, BidAsk and Normal shapes, the conversion to weights,
  and the dispatch from weights to amounts.

Amounts are unbounded naturals, as in bn.js; the two Decimal totals of a position are
the one exception (see "## Left out"). Prices are exact reals: the SDK computes
them in Decimal floating point. Every loop of the source is a `method` with a `while`
loop, proved equal to a recursive specification function. The properties are proved as
lemmas about those functions.

Collaborators defined in files outside this model are parameters of function type:

- the per-bin swap quote (`swapExactInQuoteAtBin`);
- the transfer-fee calculators;
- the fixed-point fee accrual (`mulShr`);
- the bid, ask and both-sides amount calculators;
- the account decoder;
- the bin-array address derivation.

The bin-array liquidity bitmap is represented by the set of page indices whose bit is
set, together with the page range the bitmap covers.

Two behaviours of the code worth noting:

- A partial-fill quote that places nothing still fails. The code throws
  SWAP_QUOTE_INSUFFICIENT_LIQUIDITY when no bin was filled (`index.ts:2885-2890`).
- The clock is read as seconds. All comparisons are against integer periods, so a
  whole-second timestamp chooses the same branches.

## Model

| member | source | states |
|---|---|---|
| Pricing.GetPriceOfBinByBinId | src/dlmm/helpers/weight.ts:13-16 | the price of every bin is positive |
| Pricing.PriceAtZero | src/dlmm/helpers/weight.ts:13-16 | bin 0 has price exactly 1 for every bin step |
| Pricing.PriceStep | src/dlmm/helpers/weight.ts:13-16 | one bin up multiplies the price by 1 + binStep/10000, for negative ids too |
| Pricing.PriceStrictlyIncreasing | src/dlmm/helpers/weight.ts:13-16 | with a positive step, a higher bin id always has a strictly higher price |
| Pricing.PriceOfBinFourAtStep25 | src/dlmm/helpers/weight.ts:13-16 | a worked value: bin 4 at step 25 has price 1.0025^4 = 1.0100375625390625 |
| Types.BinLiquidityFromBin | src/dlmm/types/index.ts:276-299 | reports the id and version it is given and the price of that bin; the stored bin is recovered from the report, so its reserves, supply and fee and reward accumulators are reported unchanged |
| Types.BinLiquidityEmpty | src/dlmm/types/index.ts:301-323 | reports the id and version it is given and the price of that bin, with no reserves, no supply, no fee accumulators and rewards [0, 0] |
| Types.FromBinKeepsBin | src/dlmm/types/index.ts:276-323 | fromBin keeps the stored bin's reserves, supply and accumulators (the bin is recovered from the report); empty reports a zero bin; both report the given id and version and the same price |
| Types.EmptyIsFromBinOfZeroBin | src/dlmm/types/index.ts:301-323 | empty equals fromBin exactly when the bin holds nothing (iff) |
| Types.PricePerTokenRoundTrip | src/dlmm/types/index.ts:276-323 | the per-token price scaled back by 10^(quote - base decimals) gives the lamport price, in both constructors |
| BinArrays.BinIdToBinArrayIndex | src/dlmm/index.ts:4418-4419 | the page of a bin is the page whose 70-bin range contains it (division rounding toward minus infinity) |
| BinArrays.PageBounds | src/dlmm/index.ts:2957-2959 | getBinArrayLowerUpperBinId: the lower and upper ids both lie on the page, the id below the lower one is on the previous page and the id above the upper one on the next page |
| BinArrays.PageIndexUnique | src/dlmm/index.ts:4418-4419 | a page that holds a bin is that bin's page |
| BinArrays.IsBinIdWithinBinArray | src/dlmm/index.ts:2844-2846 | a bin lies within a page exactly when the page is the bin's page |
| BinArrays.GetBinFromBinArray | src/dlmm/index.ts:2847-2850 | the bin is read at its offset from the page's first bin |
| BinArrays.FindNextBinArrayIndexWithLiquidity | src/dlmm/index.ts:2823-2829 | the page found has liquidity, lies within the bitmap's range and lies at or beyond the current page in the swap direction |
| BinArrays.FindNextBinArrayIndexNearest | src/dlmm/index.ts:2823-2829 | no page with liquidity is skipped between the current page and the one found; none found means no page in that direction has liquidity |
| BinArrays.FindBinArray | src/dlmm/index.ts:2823-2829 | the supplied list holds the array found with that index; none found means no supplied array has it |
| BinArrays.FindNextBinArrayWithLiquidity | src/dlmm/index.ts:2823-2829 | the array found is a supplied one at the nearest liquid page; no liquid page means none is found |
| BinArrays.FoundBinArrayBounds | src/dlmm/index.ts:2876-2882 | a page found in the swap direction lies between the bitmap's edge and the current bin, so the walk's measure stays well-founded |
| Fees.VariableParametersState.Clone | src/dlmm/index.ts:2795 | the copy holds the pair's variable parameters |
| Fees.AccumulatedVolatility | src/dlmm/index.ts:4639-4652 | the accumulator becomes the smaller of the reference plus the bin distance times 10000 and the cap; nothing else changes |
| Fees.UpdateVolatilityAccumulator | src/dlmm/index.ts:4639-4652 | the copy in place becomes AccumulatedVolatility of its old value |
| Fees.UpdatedReference | src/dlmm/index.ts:4654-4675 | nothing changes inside the filter period; after it the index reference is the active bin, and the reference decays to the accumulator times the reduction factor (floored) inside the decay period, or to 0 after it |
| Fees.UpdateReference | src/dlmm/index.ts:4654-4675 | the copy in place becomes UpdatedReference of its old value |
| Fees.AccumulatorUpdateIdempotent | src/dlmm/index.ts:4639-4652 | a second accumulator update at the same bin changes nothing |
| Fees.DecayedReferenceBounded | src/dlmm/index.ts:4654-4675 | with a reduction factor of at most 100%, the new reference never exceeds the accumulator |
| Fees.SwapQuoteOrder | src/dlmm/index.ts:2801-2812 | the quote's order (accumulator, then reference) keeps the timestamp and the accumulator cap; inside the filter period it is the accumulator update alone; past it the reference index is the active bin |
| Fees.DynamicFeeOrder | src/dlmm/index.ts:1404-1415 | getDynamicFee's order (reference, then accumulator) keeps the timestamp and the cap; inside the filter period it is the accumulator update alone; past it the reference index is the active bin, so the accumulator is at most the decayed reference |
| Fees.OrdersAgreeInsideFilterPeriod | src/dlmm/index.ts:2798-2812 | inside the filter period the swap quote's update order and getDynamicFee's order give the same state |
| Fees.OrdersDifferPastFilterPeriod | src/dlmm/index.ts:1404-1415 | past the filter period the two orders can differ: a concrete pair where the quote sees 50000 and getDynamicFee sees 0 |
| Fees.GetDynamicFeeParameters | src/dlmm/index.ts:1399-1415 | getDynamicFee moves a copy (reference, then accumulator); inside the filter period only the accumulator moves |
| Fees.CalculateFeeInfo | src/dlmm/index.ts:1347-1367 | the base percentage is baseFactor·binStep·10·10^power as a share of 10^9, times 100; the maximum is 10% |
| Fees.BaseFeeRate | src/dlmm/index.ts:1352-1355 | the base fee rate is zero exactly when the base factor or the bin step is zero |
| Fees.BaseFeeWithinMaxIff | src/dlmm/index.ts:1347-1367 | the base percentage is within the maximum percentage exactly when the base rate is within MAX_FEE_RATE |
| Fees.GetFeeInfo | src/dlmm/index.ts:1374-1393 | uses power factor 0 for the base fee, the 10% maximum, and the protocol share read in basis points |
| Fees.ProtocolFeeAtMostQuarter | src/dlmm/index.ts:1374-1393 | a protocol share within MAX_PROTOCOL_SHARE shows as 0 to 25% |
| SwapQuoteEngine.Touch | src/dlmm/index.ts:2842 | the bin arrays used are kept once each, in first-use order |
| SwapQuoteEngine.Step | src/dlmm/index.ts:2844-2882 | one pass of the loop never increases the input left |
| SwapQuoteEngine.StepFacts | src/dlmm/index.ts:2842-2882 | a pass records the array, quotes the bin only if the array holds it, records the first filled bin, grows the totals, and moves the id only while input remains |
| SwapQuoteEngine.Walk | src/dlmm/index.ts:2822-2883 | the main loop never increases the input left |
| SwapQuoteEngine.WalkFacts | src/dlmm/index.ts:2822-2883 | the loop stops with input left exactly when no liquid array is left in the swap direction; the start bin is set exactly when input was placed; the touched list stays free of repeats; the totals only grow; the id moves only in the swap direction; the last filled id lies between the start and the stop |
| SwapQuoteEngine.WalkBins | src/dlmm/index.ts:2822-2883 | the imperative loop computes Walk |
| SwapQuoteEngine.NewPageBeyond | src/dlmm/index.ts:2954-2966 | a page recorded by the look-ahead keeps the extras free of repeats, and the jump past it keeps every extra behind the new position |
| SwapQuoteEngine.Prefetch | src/dlmm/index.ts:2929-2973 | the look-ahead only appends to the pages already collected, and stops once maxExtraBinArrays pages are listed |
| SwapQuoteEngine.PrefetchFacts | src/dlmm/index.ts:2929-2973 | the look-ahead yields at most maxExtraBinArrays arrays, none repeated and none already used by the swap |
| SwapQuoteEngine.CollectExtraBinArrays | src/dlmm/index.ts:2929-2973 | the imperative look-ahead computes Prefetch |
| SwapQuoteEngine.TruncDiv | src/dlmm/index.ts:2984-2986 | bn.js division truncates toward zero for both signs |
| SwapQuoteEngine.MinOutAmount | src/dlmm/index.ts:2984-2986 | zero slippage keeps the quoted output, a slippage of 100% gives 0, and a larger one gives no positive minimum |
| SwapQuoteEngine.MinOutAmountBounds | src/dlmm/index.ts:2984-2986 | with a slippage of 0 to 100%, the minimum output lies between 0 and the quoted output, and equals it at slippage 0 |
| SwapQuoteEngine.SwapQuoteParameters | src/dlmm/index.ts:2795-2812 | the quote moves a copy of the parameters: accumulator first, then reference |
| SwapQuoteEngine.SwapQuoteSpec | src/dlmm/index.ts:2765-2998 | fails with the max-extra error exactly when maxExtraBinArrays is outside 0..MAX_EXTRA_BIN_ARRAYS; a quote never consumes more than the input |
| SwapQuoteEngine.QuoteFromWalk | src/dlmm/index.ts:2892-2997 | the consumed input is clamped to the input amount |
| SwapQuoteEngine.SwapQuoteBinArrays | src/dlmm/index.ts:2929-2975 | the reported bin arrays are the used ones, in order, followed by at most maxExtraBinArrays new ones, with no repeats |
| SwapQuoteEngine.SwapQuoteInsufficientLiquidityCases | src/dlmm/index.ts:2831-2890 | running out of arrays without partial fill fails as "in bin arrays"; placing nothing fails with insufficient liquidity; a zero effective input fails; a successful quote placed some input |
| SwapQuoteEngine.SwapQuoteEndPrice | src/dlmm/index.ts:2924-2927 | the end price is the price of the last filled bin, which lies between the start and the stopping id |
| SwapQuoteEngine.SwapQuote | src/dlmm/index.ts:2765-2998 | the imperative quote computes SwapQuoteSpec |
| SwapQuoteEngine.FinishQuote | src/dlmm/index.ts:2892-2997 | the imperative tail (clamping, minimum output, keys) computes QuoteFromWalk |
| SwapQuoteEngine.DistinctConcat | src/dlmm/index.ts:2975 | joining two lists without repeats and without common elements gives a list without repeats |
| Positions.PositionV2Wrapper.GetBinArrayIndexesCoverage | src/dlmm/helpers/positions/wrapper.ts:160-169 | two consecutive pages, the first holding the lower bin |
| Positions.PositionV2Wrapper.GetBinArrayKeysCoverage | src/dlmm/helpers/positions/wrapper.ts:171-175 | one derived key per covered page, in the same order |
| Positions.WidthCountsBins | src/dlmm/helpers/positions/wrapper.ts:180-182 | a bin lies in the position exactly when its offset from the lower bin is below the width |
| Positions.AccessorsPassThrough | src/dlmm/helpers/positions/wrapper.ts:104-158 | the accessors return the decoded fields unchanged; feeOwner and owner both return the owner |
| Positions.CoverageHoldsEveryBin | src/dlmm/helpers/positions/wrapper.ts:160-169 | a position of 1 to 70 bins has every bin in the two covered pages |
| Positions.CoverageIgnoresUpperBin | src/dlmm/helpers/positions/wrapper.ts:160-169 | a 141-bin position reaches a page the coverage leaves out |
| Positions.KeysCoverageDistinct | src/dlmm/helpers/positions/wrapper.ts:171-175 | with an injective derivation, the two covered keys differ |
| Positions.Prefix | src/dlmm/helpers/positions/wrapper.ts:75 | subarray(0, 8) is the first 8 bytes, or all of a shorter buffer |
| Positions.WrapPosition | src/dlmm/helpers/positions/wrapper.ts:70-94 | for an 8-byte discriminator, an account is wrapped exactly when its first 8 bytes are the discriminator; otherwise it fails as an unknown position account |
| LiquidityBook.ProcessXYAmountDistribution | src/dlmm/index.ts:4492-4519 | as written: empty input fails; otherwise success exactly when each id follows a nonzero predecessor by one, else "Discontinuous Bin ID"; success carries the first and last ids and every column in order |
| LiquidityBook.ZeroSkipsContiguityCheck | src/dlmm/index.ts:4505 | a distribution with bin 0 then bin -7 passes the as-written check but is not contiguous |
| LiquidityBook.ProcessXYAmountDistributionChecked | src/dlmm/index.ts:4492-4519 | corrected: success exactly when the input is nonempty and contiguous, and then upper - lower + 1 is the number of entries |
| LiquidityBook.ContiguousSpan | src/dlmm/index.ts:4505 | in a contiguous distribution, entry i has id first + i |
| LiquidityBook.CheckPositionWidth | src/dlmm/index.ts:1858-1862 | the width check passes exactly when upper - lower + 1 is within the bin limit; it fails with that limit |
| LiquidityBook.CheckedDistributionWidth | src/dlmm/index.ts:1858-1862 | after the corrected check, the width check passes exactly when the entry count is within the limit, and the width equals that count |
| LiquidityBook.AsWrittenWidthCanBeNegative | src/dlmm/index.ts:1858-1862 | the as-written check lets through a distribution of width -6 |
| LiquidityBook.UpperBinArrayIndex | src/dlmm/index.ts:1900-1903 | the upper page is the larger of the lower bin's next page and the upper bin's page |
| LiquidityBook.NarrowRangeSpansTwoPages | src/dlmm/index.ts:1900-1903 | a range narrower than a page has the next page as its upper page, and each of its bins lies in one of the two pages |
| LiquidityBook.CheckWithinPosition | src/dlmm/index.ts:2063-2070 | no error exactly when the range lies inside the position; the lower bound is checked first |
| LiquidityBook.CheckedDepositInsidePosition | src/dlmm/index.ts:2063-2070 | after the corrected check and the range check, every bin of the deposit lies inside the position |
| LiquidityBook.AsWrittenDepositEscapesPosition | src/dlmm/index.ts:2063-2070 | with the as-written check, a deposit into bin -7 passes the range check of a position at bin 0 |
| LiquidityBook.GetBinsBetweenLowerAndUpperBound | src/dlmm/index.ts:4408-4488 | one entry per id from lower to upper, in order, each the stored bin (version 1) or an empty bin (version 2) |
| LiquidityBook.CollectPageBins | src/dlmm/index.ts:4428-4484 | one page's pass extends the table with exactly that page's ids in range |
| LiquidityBook.BinsBetweenAscending | src/dlmm/index.ts:4408-4488 | with a positive step, entries later in the table have larger ids and higher prices |
| LiquidityBook.BinAt | src/dlmm/index.ts:4440-4481 | the entry names its bin and that bin's price; on a known page it is version 1 and reports the stored bin unchanged; on an unknown page it is version 2 with no reserves and no supply |
| LiquidityBook.BinAtMatchesStoredBin | src/dlmm/index.ts:4440-4481 | each entry reports its id and that bin's price; it has version 1 exactly when its page is known, and is an empty bin otherwise |
| LiquidityBook.PositionAmount | src/dlmm/index.ts:4229-4235 | a bin without supply, or a position without a share, gets 0; a share equal to the whole supply gets the whole reserve |
| LiquidityBook.NewFee | src/dlmm/index.ts:4242-4258 | a position without a share in the bin accrues no new fee; otherwise the accrual of its share over the fee growth stored minus complete |
| LiquidityBook.PositionBinDataOf | src/dlmm/index.ts:4223-4268 | a record names the bin, its price and the position's share; a share within the supply claims no more than either reserve; no share means no amounts and only the pending fees |
| LiquidityBook.PositionAmountBounded | src/dlmm/index.ts:4229-4235 | a share no larger than the supply never claims more than the reserve |
| LiquidityBook.PositionTotalsWithinReserves | src/dlmm/index.ts:4223-4334 | when no share exceeds its bin's supply, the position's X and Y totals are within the sum of the bins' reserves |
| LiquidityBook.ZeroShareClaimsPendingOnly | src/dlmm/index.ts:4229-4264 | a bin where the position has no share yields no amounts and only its pending fees |
| LiquidityBook.AccumulatePositionBins | src/dlmm/index.ts:4223-4334 | one record per bin, and the totals and fees are the column sums of those records |
| LiquidityBook.ProcessPosition | src/dlmm/index.ts:4172-4406 | no data exactly when the width is not positive; otherwise the record describes the position over the bins from lower to upper |
| LiquidityBook.FindLastIndexWithX | src/dlmm/index.ts:3586-3588 | the last index holding token X, or -1 when none does |
| LiquidityBook.GetMaxPriceInBinArrays | src/dlmm/index.ts:3569-3594 | no result exactly when no array holds X; otherwise the price of the last bin with X in the highest-index array that holds any |
| Sorting.SortBy | src/dlmm/index.ts:3573-3576 | a stable ascending sort: same length, same elements, sorted by the key, and the elements of each key in their input order |
| Weight.SeqMin | src/dlmm/helpers/weight.ts:20 | Math.min over the ids: a member no larger than any id |
| Weight.SeqMax | src/dlmm/helpers/weight.ts:21 | Math.max over the ids: a member no smaller than any id |
| Weight.GaussianVariance | src/dlmm/helpers/weight.ts:39-41 | the variance is ((max - min)/4)^2 when the span is at least 4, and exactly 1 when it is smaller |
| Weight.BuildGaussianFromBins | src/dlmm/helpers/weight.ts:19-44 | as written: no Gaussian for an empty list; the mean lies between the extremes; it is the active bin when that bin (nonzero) is listed; otherwise it is the smallest id when the active bin lies below every id, and the largest id in every other case; with active bin 0 listed, the mean is the largest id |
| Weight.ActiveBinZeroMeanIsLargest | src/dlmm/helpers/weight.ts:25-37 | with active bin 0 listed among -1, 0, 1, the mean is 1, not 0 |
| Weight.GaussianMean | src/dlmm/helpers/weight.ts:24-37 | corrected: the mean is the active bin whenever it is listed; otherwise the smallest id when the active bin lies below every id, and the largest id when it lies above them or in a gap between them |
| Weight.GaussianMeanAgreesAwayFromZero | src/dlmm/helpers/weight.ts:25-37 | the as-written and corrected means agree unless active bin 0 is listed |
| Weight.ComputeAllocationBps | src/dlmm/helpers/weight.ts:61-79 | each share becomes its truncated basis points, and the loss is what makes them add up to 10000 |
| Weight.DistributeAt | src/dlmm/helpers/weight.ts:539-611 | entry k of a distribution is the rule applied to bin k alone |
| Weight.AddSums | src/dlmm/helpers/weight.ts:613-620 | adding a loss to one bin adds it to that token's total and leaves the other total alone |
| Weight.XOnlySums | src/dlmm/helpers/weight.ts:514-537 | an X-only distribution has no Y, and 100 times its X total is within the basis points given |
| Weight.YOnlySums | src/dlmm/helpers/weight.ts:514-537 | a Y-only distribution has no X, and 100 times its Y total is within the basis points given |
| Weight.BidAskSums | src/dlmm/helpers/weight.ts:539-611 | the BidAsk totals are the X shares at or above the active bin and the Y shares at or below it |
| Weight.NormalSumX | src/dlmm/helpers/weight.ts:841-893 | the Normal X total is the X shares above the active bin plus the active bin's X residual, once per listing |
| Weight.NormalSumY | src/dlmm/helpers/weight.ts:841-893 | the Normal Y total is the Y shares below the active bin plus the active bin's Y residual, once per listing |
| Weight.DistributeByIndex | src/dlmm/helpers/weight.ts:514-537 | the binIds.map(...) loop computes Distribute |
| Weight.CollectSides | src/dlmm/helpers/weight.ts:842-858 | the filter loops collect the shares of each side's bins, in order |
| Weight.ShiftIntoBins | src/dlmm/helpers/weight.ts:587-611 | the loop that shifts each side's queue into its bins computes Distribute |
| Weight.OneSided | src/dlmm/helpers/weight.ts:514-537 | one entry per listed bin, in the listed order, each naming its bin |
| Weight.OneSidedDistribution | src/dlmm/helpers/weight.ts:514-537 | the one-sided branch computes OneSided |
| Weight.OneSidedAtMostHundred | src/dlmm/helpers/weight.ts:514-537 | a one-sided distribution holds one token only, with a total of at most 100 |
| Weight.BidAskSpec | src/dlmm/helpers/weight.ts:505-623 | fails exactly when the list is empty; otherwise one entry per listed bin, in order, each naming its bin |
| Weight.CalculateBidAskDistribution | src/dlmm/helpers/weight.ts:505-623 | computes BidAskSpec: X-only to the right, Y-only to the left, both sides plus losses otherwise |
| Weight.BidAskBothSides | src/dlmm/helpers/weight.ts:539-622 | the two-sided branch computes BidAskTwoSided |
| Weight.AddXUnlessZero | src/dlmm/helpers/weight.ts:617-620 | adding a nonzero X loss to the last bin computes AddX |
| Weight.AddYUnlessZero | src/dlmm/helpers/weight.ts:613-616 | adding a nonzero Y loss to the first bin computes AddY |
| Weight.BidAskTwoSidedSumsToHundred | src/dlmm/helpers/weight.ts:539-622 | with the active bin inside the range, each token's percentages add up to exactly 100 |
| Weight.BidAskOneSided | src/dlmm/helpers/weight.ts:514-537 | outside the range only the side's token is placed, with a total of at most 100 |
| Weight.NormalSpec | src/dlmm/helpers/weight.ts:784-893 | fails exactly when the list is empty; otherwise one entry per listed bin, in order, each naming its bin |
| Weight.CalculateNormalDistribution | src/dlmm/helpers/weight.ts:784-893 | computes NormalSpec: an empty list fails; X-only to the right; Y-only to the left; both sides with the active-bin residuals otherwise |
| Weight.NormalTwoSidedSumsToHundred | src/dlmm/helpers/weight.ts:841-893 | with the active bin listed once, each token's percentages add up to exactly 100, and every other bin holds only its side's token |
| Weight.OccursThenInside | src/dlmm/helpers/weight.ts:784-790 | a listed active bin lies between the smallest and largest ids |
| Weight.SpotOutsideRange | src/dlmm/helpers/weight.ts:254-285 | one entry per bin |
| Weight.SpotInsideRange | src/dlmm/helpers/weight.ts:287-327 | one entry per bin |
| Weight.HalfBinCapacityBps | src/dlmm/helpers/weight.ts:290-297 | 10000 / (count + 0.5), truncated, is the integer quotient 20000 div (2·count + 1) |
| Weight.SpotSpec | src/dlmm/helpers/weight.ts:254-327 | fails (division by zero) exactly when the list is empty; otherwise one entry per listed bin, in order, each naming its bin |
| Weight.CalculateSpotDistribution | src/dlmm/helpers/weight.ts:254-327 | computes SpotSpec: equal shares when the active bin is not listed (an empty list divides by zero); half-bin shares around it otherwise |
| Weight.SpotDistributionOutsideRange | src/dlmm/helpers/weight.ts:254-285 | the outside branch, including its loss of floor(loss/100), computes SpotOutsideRange |
| Weight.SpotDistributionInsideRange | src/dlmm/helpers/weight.ts:287-327 | the inside branch computes SpotInsideRange |
| Weight.SpotOutsideRangeExample | src/dlmm/helpers/weight.ts:254-285 | three bins below the active bin get 33% of Y each, 99% in all |
| Weight.SpotInsideRangeExample | src/dlmm/helpers/weight.ts:287-327 | five bins around the active bin give 40, 40, 20/20, 40, 40 |
| Weight.SpotOutsideRangeSums | src/dlmm/helpers/weight.ts:254-285 | outside the range only one token is placed: n equal shares of (10000 div n) div 100, at most 100 in all |
| Weight.SpotInsideRangeYAtMostHundred | src/dlmm/helpers/weight.ts:287-327 | with the active bin listed once, the Y percentages add up to at most 100 |
| Weight.SpotInsideRangeXAtMostHundred | src/dlmm/helpers/weight.ts:287-327 | with the active bin listed once, the X percentages add up to at most 100 |
| Weight.QuotesOf | src/dlmm/helpers/weight.ts:95-115 | one quote per bin |
| Weight.ToWeightDistributionSpec | src/dlmm/helpers/weight.ts:82-134 | at most one weight per input bin, and every weight kept is positive |
| Weight.ToWeightDistribution | src/dlmm/helpers/weight.ts:82-134 | the imperative quotes-then-weights pass computes ToWeightDistributionSpec |
| Weight.QuoteBins | src/dlmm/helpers/weight.ts:95-115 | the quoting loop gives each bin's quote in Y and the running total |
| Weight.WeighQuotes | src/dlmm/helpers/weight.ts:121-131 | the weighing loop keeps, in order, each bin whose floored weight is positive |
| Weight.WeightsInRange | src/dlmm/helpers/weight.ts:121-131 | every weight kept lies in 1..MAX_WEIGHT |
| Weight.WeightsSumBound | src/dlmm/helpers/weight.ts:121-131 | the kept weights add up to at most the floored share of the quotes' total |
| Weight.WeightsOfTotal | src/dlmm/helpers/weight.ts:117-131 | against the quotes' own total, every weight is in 1..MAX_WEIGHT and they add up to at most MAX_WEIGHT |
| Weight.ToWeightDistributionBounds | src/dlmm/helpers/weight.ts:82-134 | a zero total gives no weights; otherwise every weight is in 1..MAX_WEIGHT and they add up to at most MAX_WEIGHT |
| Weight.WeightsFromInput | src/dlmm/helpers/weight.ts:121-131 | every weight belongs to an input bin and is that bin's floored share |
| Weight.FromWeightDistributionToAmountOneSide | src/dlmm/helpers/weight.ts:909-929 | deposits for Y use the bid-side calculator; deposits for X use the ask-side calculator |
| Weight.AsYOnly | src/dlmm/helpers/weight.ts:977-983 | each bid amount becomes a bin with Y only |
| Weight.AsXOnly | src/dlmm/helpers/weight.ts:996-1002 | each ask amount becomes a bin with X only |
| Weight.AmountsForSortedWeights | src/dlmm/helpers/weight.ts:964-1015 | no weights give no amounts; an active bin above every bin is bid-only; one below every bin is ask-only; the both-sides calculator covers the rest |
| Weight.BidOnlyMatchesOneSide | src/dlmm/helpers/weight.ts:969-984 | the bid-only branch of the dispatch agrees with fromWeightDistributionToAmountOneSide for Y |
| Weight.FromWeightDistributionToAmount | src/dlmm/helpers/weight.ts:947-1016 | sorts the caller's array in place by bin id (stable), then returns the dispatch on the sorted weights |

## Left out

- priceImpact and getOutAmount are left out. The price impact divides Decimal values, and its divisor can be zero. Neither figure feeds any other output of the quote.
- computeFeeFromAmount is left out. It is used only to build the priceImpact figure.
- The per-bin swap step (`swapExactInQuoteAtBin`) is given as a parameter. The model assumes only that it never takes more input than what is left.
- getDynamicFee's final percentage is left out, because getTotalFee is not part of this model. Fees.GetDynamicFeeParameters gives the parameters it prices with.
- The two-level bitmap is represented by a set of page indices. Its bit layout, word search and extension account are not modelled.
- Bin-array addresses (`deriveBinArray`) are a parameter, and pages are identified by their index. The quote reports page indices where the SDK reports public keys.
- Account decoding (`decodeAccount`) and the discriminator bytes are parameters.
- getMaxPriceInBinArrays returns the stored fixed-point price. Its conversion through Number and 2^64 is not modelled, because it is floating point.
- The transfer-fee calculators, the `mulShr` fee accrual and the toAmountBidSide, toAmountAskSide and toAmountBothSide calculators are parameters of function type.
- Token decimals are plain integers. Mint and account fetching are not modelled.
- The Gaussian density and generateBinLiquidityAllocation are left out, because they are floating point. The planner takes as inputs (`GaussianShares`) the per-bin shares they produce and the integer percentages the planner floors from those shares.
- Weight.ComputeAllocationBps: the shares are exact reals, truncated as bn.js truncates a JavaScript number. Rounding of the double value itself is not modelled.
- Pricing.GetPriceOfBinByBinId: the price is the exact real power. Decimal precision and rounding of the SDK's computation are not modelled.
- The clock (`Date.now()`) is a whole-second timestamp parameter.
- MAX_EXTRA_BIN_ARRAYS and DEFAULT_BIN_PER_POSITION are defined in constants outside this model, so they are parameters.
- RPC calls, transaction builders and every other method of the DLMM class are outside this model.
- Weight.SpotInsideRangeYAtMostHundred and Weight.SpotInsideRangeXAtMostHundred assume the active bin is listed exactly once. With repeated listings, each copy takes the residual.
- Weight.FromWeightDistributionToAmount: the sort in place is stated as the array's new contents. Aliasing with other arrays is not modelled.
- LiquidityBook.ProcessPosition: the reward amounts of each bin are 0, as in the source. A claimable-reward computation is not part of it.
- LiquidityBook.ProcessPosition: the X and Y totals are exact sums of naturals. The source accumulates them as Decimal values (`index.ts:4213-4214`, `index.ts:4237-4238`), which keep 20 significant digits and so round very large totals.
- LiquidityBook.ProcessPosition: requires a liquidity share and a fee record for every bin of the width. The position account stores both as fixed arrays of 70 entries (`idl.ts:1701-1707`, `idl.ts:1739-1750`), and a position spans at most 70 bins, so a decoded position always meets it.

## Findings

| source | as written | input that shows it | evidently intended | confidence | as-written member | corrected member |
|---|---|---|---|---|---|---|
| src/dlmm/index.ts:4505 | The contiguity check runs only when the previous bin id is truthy. After bin 0 the next id is never checked. | Bin 0 followed by bin -7 is accepted. Its width is then -6, and it passes the range check of a position at bin 0. | Every id follows its predecessor by one, bin 0 included. | not executed | LiquidityBook.ProcessXYAmountDistribution, LiquidityBook.ZeroSkipsContiguityCheck, LiquidityBook.AsWrittenDepositEscapesPosition | LiquidityBook.ProcessXYAmountDistributionChecked, LiquidityBook.CheckedDepositInsidePosition |
| src/dlmm/helpers/weight.ts:25-37 | The Gaussian mean tests the result of `find`, which is the listed id itself. A listed active bin 0 is falsy. | Active bin 0 with bin ids -1, 0, 1 gives mean 1, not 0. | The mean is the active bin whenever the active bin is listed. | not executed | Weight.BuildGaussianFromBins, Weight.ActiveBinZeroMeanIsLargest | Weight.GaussianMean, Weight.GaussianMeanAgreesAwayFromZero |
