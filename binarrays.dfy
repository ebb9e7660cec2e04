/**
 * Paging of bins into bin arrays and the directional lookup of the next bin
 * array holding liquidity. The SDK's helpers for these (binIdToBinArrayIndex,
 * isBinIdWithinBinArray, getBinFromBinArray, findNextBinArrayIndexWithLiquidity,
 * findNextBinArrayWithLiquidity) live in files outside this model; they are
 * given here by the contracts the quote engine relies on. The two-level
 * liquidity bitmap (base bitmap plus extension) is represented by the set of
 * page indices whose bit is set, within the page range the bitmaps address.
 */
module BinArrays {
  import opened Wrappers
  import opened Constants
  import opened Types

  /** binIdToBinArrayIndex: the page holding a bin (division rounding toward minus infinity). */
  function BinIdToBinArrayIndex(binId: int): (index: int)
    ensures index * MAX_BIN_PER_ARRAY <= binId < index * MAX_BIN_PER_ARRAY + MAX_BIN_PER_ARRAY
  {
    binId / MAX_BIN_PER_ARRAY
  }

  /** A page index is determined by any bin id it holds. */
  lemma PageIndexUnique(binId: int, index: int)
    requires index * MAX_BIN_PER_ARRAY <= binId < index * MAX_BIN_PER_ARRAY + MAX_BIN_PER_ARRAY
    ensures BinIdToBinArrayIndex(binId) == index
  {
  }

  /** getBinArrayLowerUpperBinId: first and last bin id of a page. */
  function BinArrayLowerBinId(index: int): int {
    index * MAX_BIN_PER_ARRAY
  }

  function BinArrayUpperBinId(index: int): int {
    index * MAX_BIN_PER_ARRAY + MAX_BIN_PER_ARRAY - 1
  }

  /**
   * The two ids bound page `index` exactly: both lie on it, the id below the
   * lower one is on the page before it and the id above the upper one on the
   * page after it.
   */
  lemma PageBounds(index: int)
    ensures BinIdToBinArrayIndex(BinArrayLowerBinId(index)) == index
    ensures BinIdToBinArrayIndex(BinArrayUpperBinId(index)) == index
    ensures BinIdToBinArrayIndex(BinArrayLowerBinId(index) - 1) == index - 1
    ensures BinIdToBinArrayIndex(BinArrayUpperBinId(index) + 1) == index + 1
  {
    PageIndexUnique(BinArrayLowerBinId(index), index);
    PageIndexUnique(BinArrayUpperBinId(index), index);
    PageIndexUnique(BinArrayLowerBinId(index) - 1, index - 1);
    PageIndexUnique(BinArrayUpperBinId(index) + 1, index + 1);
  }

  /** isBinIdWithinBinArray */
  function IsBinIdWithinBinArray(binId: int, index: int): (r: bool)
    ensures r <==> BinIdToBinArrayIndex(binId) == index
  {
    var within := BinArrayLowerBinId(index) <= binId <= BinArrayUpperBinId(index);
    assert within ==> BinIdToBinArrayIndex(binId) == index by {
      if within { PageIndexUnique(binId, index); }
    }
    within
  }

  /** A page as stored on chain holds exactly MAX_BIN_PER_ARRAY bins. */
  predicate WellFormedBinArray(ba: BinArray) {
    |ba.bins| == MAX_BIN_PER_ARRAY
  }

  /** getBinFromBinArray: the bin of `binId` inside its page. */
  function GetBinFromBinArray(binId: int, ba: BinArray): (bin: Bin)
    requires WellFormedBinArray(ba)
    requires IsBinIdWithinBinArray(binId, ba.index)
    ensures bin == ba.bins[binId - BinArrayLowerBinId(ba.index)]
  {
    ba.bins[binId - BinArrayLowerBinId(ba.index)]
  }

  /** Page indices whose liquidity bit is set, within the range the bitmaps cover. */
  datatype BinArrayBitmap = BinArrayBitmap(liquid: set<int>, minIndex: int, maxIndex: int)

  /** Highest set page index in [minIndex, from]. */
  function SearchDown(bitmap: BinArrayBitmap, from: int): (r: Option<int>)
    ensures r.Some? ==> bitmap.minIndex <= r.value <= from && r.value in bitmap.liquid
    decreases from - bitmap.minIndex
  {
    if from < bitmap.minIndex then None
    else if from in bitmap.liquid then Some(from)
    else SearchDown(bitmap, from - 1)
  }

  /** Lowest set page index in [from, maxIndex]. */
  function SearchUp(bitmap: BinArrayBitmap, from: int): (r: Option<int>)
    ensures r.Some? ==> from <= r.value <= bitmap.maxIndex && r.value in bitmap.liquid
    decreases bitmap.maxIndex - from
  {
    if from > bitmap.maxIndex then None
    else if from in bitmap.liquid then Some(from)
    else SearchUp(bitmap, from + 1)
  }

  /** The downward search skips no set page, and fails only when none is set. */
  lemma {:induction false} SearchDownNearest(bitmap: BinArrayBitmap, from: int)
    ensures SearchDown(bitmap, from).Some? ==>
      forall j :: SearchDown(bitmap, from).value < j <= from ==> j !in bitmap.liquid
    ensures SearchDown(bitmap, from).None? ==>
      forall j :: bitmap.minIndex <= j <= from ==> j !in bitmap.liquid
    decreases from - bitmap.minIndex
  {
    if from >= bitmap.minIndex && from !in bitmap.liquid {
      SearchDownNearest(bitmap, from - 1);
    }
  }

  /** The upward search skips no set page, and fails only when none is set. */
  lemma {:induction false} SearchUpNearest(bitmap: BinArrayBitmap, from: int)
    ensures SearchUp(bitmap, from).Some? ==>
      forall j :: from <= j < SearchUp(bitmap, from).value ==> j !in bitmap.liquid
    ensures SearchUp(bitmap, from).None? ==>
      forall j :: from <= j <= bitmap.maxIndex ==> j !in bitmap.liquid
    decreases bitmap.maxIndex - from
  {
    if from <= bitmap.maxIndex && from !in bitmap.liquid {
      SearchUpNearest(bitmap, from + 1);
    }
  }

  /**
   * findNextBinArrayIndexWithLiquidity: the nearest page with liquidity, starting
   * at the page of `activeId` and moving down (swapForY) or up.
   */
  function FindNextBinArrayIndexWithLiquidity(swapForY: bool, activeId: int, bitmap: BinArrayBitmap): (r: Option<int>)
    ensures r.Some? ==> r.value in bitmap.liquid && bitmap.minIndex <= r.value <= bitmap.maxIndex
    ensures r.Some? && swapForY ==> r.value <= BinIdToBinArrayIndex(activeId)
    ensures r.Some? && !swapForY ==> r.value >= BinIdToBinArrayIndex(activeId)
  {
    var index := BinIdToBinArrayIndex(activeId);
    if swapForY then
      SearchDown(bitmap, if index < bitmap.maxIndex then index else bitmap.maxIndex)
    else
      SearchUp(bitmap, if index > bitmap.minIndex then index else bitmap.minIndex)
  }

  /**
   * The page found is the nearest one in the swap direction: no page of the
   * bitmap's range between it and the current page has liquidity, and when
   * nothing is found no page in that direction has any.
   */
  lemma FindNextBinArrayIndexNearest(swapForY: bool, activeId: int, bitmap: BinArrayBitmap)
    ensures var r := FindNextBinArrayIndexWithLiquidity(swapForY, activeId, bitmap);
      && (r.Some? && swapForY ==>
           forall j :: r.value < j <= BinIdToBinArrayIndex(activeId) && j <= bitmap.maxIndex ==> j !in bitmap.liquid)
      && (r.Some? && !swapForY ==>
           forall j :: BinIdToBinArrayIndex(activeId) <= j < r.value && bitmap.minIndex <= j ==> j !in bitmap.liquid)
      && (r.None? && swapForY ==>
           forall j :: bitmap.minIndex <= j <= BinIdToBinArrayIndex(activeId) && j <= bitmap.maxIndex ==> j !in bitmap.liquid)
      && (r.None? && !swapForY ==>
           forall j :: BinIdToBinArrayIndex(activeId) <= j <= bitmap.maxIndex && bitmap.minIndex <= j ==> j !in bitmap.liquid)
  {
    var index := BinIdToBinArrayIndex(activeId);
    if swapForY {
      SearchDownNearest(bitmap, if index < bitmap.maxIndex then index else bitmap.maxIndex);
    } else {
      SearchUpNearest(bitmap, if index > bitmap.minIndex then index else bitmap.minIndex);
    }
  }

  /** The first supplied bin array with the given index (Array.prototype.find). */
  function FindBinArray(binArrays: seq<BinArray>, index: int): (r: Option<BinArray>)
    ensures r.Some? ==> r.value in binArrays && r.value.index == index
    ensures r.None? ==> forall ba :: ba in binArrays ==> ba.index != index
  {
    if binArrays == [] then None
    else if binArrays[0].index == index then Some(binArrays[0])
    else FindBinArray(binArrays[1..], index)
  }

  /**
   * findNextBinArrayWithLiquidity: the nearest page with liquidity in the swap
   * direction, if the caller supplied it; a page the bitmap marks but the caller
   * did not supply also ends the search.
   */
  function FindNextBinArrayWithLiquidity(swapForY: bool, activeId: int, bitmap: BinArrayBitmap,
                                         binArrays: seq<BinArray>): (r: Option<BinArray>)
    ensures r.Some? ==> r.value in binArrays
    ensures r.Some? ==> FindNextBinArrayIndexWithLiquidity(swapForY, activeId, bitmap) == Some(r.value.index)
    ensures FindNextBinArrayIndexWithLiquidity(swapForY, activeId, bitmap).None? ==> r.None?
  {
    match FindNextBinArrayIndexWithLiquidity(swapForY, activeId, bitmap)
    case None => None
    case Some(index) => FindBinArray(binArrays, index)
  }

  /**
   * How far the walk can still move in the swap direction before it leaves the
   * bins the bitmap covers; it bounds both quote loops.
   */
  function Distance(swapForY: bool, activeId: int, bitmap: BinArrayBitmap): int {
    if swapForY then activeId - BinArrayLowerBinId(bitmap.minIndex) + 1
    else BinArrayUpperBinId(bitmap.maxIndex) + 1 - activeId
  }

  /** A page found in the swap direction lies between the bitmap's edge and the current bin. */
  lemma FoundBinArrayBounds(swapForY: bool, activeId: int, bitmap: BinArrayBitmap, index: int)
    requires FindNextBinArrayIndexWithLiquidity(swapForY, activeId, bitmap) == Some(index)
    ensures Distance(swapForY, activeId, bitmap) >= 1
    ensures swapForY ==> BinArrayLowerBinId(index) <= activeId
    ensures !swapForY ==> activeId <= BinArrayUpperBinId(index)
    ensures swapForY ==> Distance(swapForY, BinArrayLowerBinId(index) - 1, bitmap) >= 0
    ensures !swapForY ==> Distance(swapForY, BinArrayUpperBinId(index) + 1, bitmap) >= 0
  {
    var k := BinIdToBinArrayIndex(activeId);
    if swapForY {
      assert bitmap.minIndex * MAX_BIN_PER_ARRAY <= index * MAX_BIN_PER_ARRAY <= k * MAX_BIN_PER_ARRAY;
    } else {
      assert k * MAX_BIN_PER_ARRAY <= index * MAX_BIN_PER_ARRAY <= bitmap.maxIndex * MAX_BIN_PER_ARRAY;
    }
  }
}
