/**
 * The position account wrapper: accessors over the decoded position, its
 * width, the two bin arrays it is taken to span, and the discriminator gate
 * that accepts an account as a position.
 */
module Positions {
  import opened Wrappers
  import opened Constants
  import opened Types
  import opened BinArrays

  /** PositionV2Wrapper: the account address and the decoded position. */
  datatype PositionV2Wrapper = PositionV2Wrapper(positionAddress: PublicKey, inner: Position) {

    function Address(): PublicKey { positionAddress }

    function FeeOwner(): PublicKey { inner.owner }

    function Owner(): PublicKey { inner.owner }

    function TotalClaimedFeeXAmount(): nat { inner.totalClaimedFeeXAmount }

    function TotalClaimedFeeYAmount(): nat { inner.totalClaimedFeeYAmount }

    function LbPair(): PublicKey { inner.lbPair }

    function LowerBinId(): int { inner.lowerBinId }

    function UpperBinId(): int { inner.upperBinId }

    function LiquidityShares(): seq<nat> { inner.liquidityShares }

    function RewardInfos(): seq<UserRewardInfo> { inner.rewardInfos }

    function FeeInfos(): seq<UserFeeInfo> { inner.feeInfos }

    function LastUpdatedAt(): int { inner.lastUpdatedAt }

    /** width: the number of bins from the lower to the upper bin id, both included. */
    function Width(): int {
      UpperBinId() - LowerBinId() + 1
    }

    /**
     * getBinArrayIndexesCoverage: the page of the lower bin and the page after
     * it, whatever the upper bin is.
     */
    function GetBinArrayIndexesCoverage(): (r: seq<int>)
      ensures |r| == 2 && r[1] == r[0] + 1
      ensures BinArrayLowerBinId(r[0]) <= LowerBinId() <= BinArrayUpperBinId(r[0])
    {
      var lowerBinArrayIndex := BinIdToBinArrayIndex(LowerBinId());
      [lowerBinArrayIndex, lowerBinArrayIndex + 1]
    }

    /** getBinArrayKeysCoverage: the derived address of each covered page, in the same order. */
    function GetBinArrayKeysCoverage(programId: PublicKey, deriveBinArray: (PublicKey, int, PublicKey) -> PublicKey): (r: seq<PublicKey>)
      ensures |r| == |GetBinArrayIndexesCoverage()|
      ensures forall i :: 0 <= i < |r| ==> r[i] == deriveBinArray(LbPair(), GetBinArrayIndexesCoverage()[i], programId)
    {
      var indexes := GetBinArrayIndexesCoverage();
      seq(|indexes|, i requires 0 <= i < |indexes| => deriveBinArray(LbPair(), indexes[i], programId))
    }
  }

  /** The bins of a position are exactly the first Width() ids from its lower bin. */
  lemma WidthCountsBins(w: PositionV2Wrapper, binId: int)
    ensures w.LowerBinId() <= binId <= w.UpperBinId() <==> 0 <= binId - w.LowerBinId() < w.Width()
  {
  }

  /** The accessors hand back the decoded fields unchanged; both owner accessors return the owner. */
  lemma AccessorsPassThrough(w: PositionV2Wrapper)
    ensures w.FeeOwner() == w.Owner() == w.inner.owner
    ensures w.Address() == w.positionAddress
    ensures w.LbPair() == w.inner.lbPair
    ensures w.LowerBinId() == w.inner.lowerBinId && w.UpperBinId() == w.inner.upperBinId
    ensures w.LiquidityShares() == w.inner.liquidityShares
    ensures w.RewardInfos() == w.inner.rewardInfos && w.FeeInfos() == w.inner.feeInfos
    ensures w.LastUpdatedAt() == w.inner.lastUpdatedAt
    ensures w.TotalClaimedFeeXAmount() == w.inner.totalClaimedFeeXAmount
    ensures w.TotalClaimedFeeYAmount() == w.inner.totalClaimedFeeYAmount
  {
  }

  /**
   * A position of 1 to MAX_BIN_PER_ARRAY bins lies within the two covered
   * pages; a wider one can reach past them, because the upper bin is ignored.
   */
  lemma CoverageHoldsEveryBin(w: PositionV2Wrapper, binId: int)
    requires 1 <= w.Width() <= MAX_BIN_PER_ARRAY
    requires w.LowerBinId() <= binId <= w.UpperBinId()
    ensures BinIdToBinArrayIndex(binId) in w.GetBinArrayIndexesCoverage()
  {
    var c := w.GetBinArrayIndexesCoverage();
    if binId <= BinArrayUpperBinId(c[0]) {
      PageIndexUnique(binId, c[0]);
    } else {
      PageIndexUnique(binId, c[1]);
    }
  }

  /** A position twice the page size starting on a page boundary reaches a page the coverage leaves out. */
  lemma CoverageIgnoresUpperBin()
    ensures var w := PositionV2Wrapper([], Position([], [], [], [], 0, 2 * MAX_BIN_PER_ARRAY, 0, [], 0, 0));
            BinIdToBinArrayIndex(w.UpperBinId()) !in w.GetBinArrayIndexesCoverage()
  {
    var w := PositionV2Wrapper([], Position([], [], [], [], 0, 2 * MAX_BIN_PER_ARRAY, 0, [], 0, 0));
    PageIndexUnique(0, 0);
    PageIndexUnique(2 * MAX_BIN_PER_ARRAY, 2);
    assert w.GetBinArrayIndexesCoverage() == [0, 1];
  }

  /** Distinct pages give distinct keys when address derivation is one-to-one in the index. */
  lemma KeysCoverageDistinct(w: PositionV2Wrapper, programId: PublicKey, deriveBinArray: (PublicKey, int, PublicKey) -> PublicKey)
    requires forall a, i, j, p :: deriveBinArray(a, i, p) == deriveBinArray(a, j, p) ==> i == j
    ensures var keys := w.GetBinArrayKeysCoverage(programId, deriveBinArray);
            keys[0] != keys[1]
  {
  }

  /** The first `n` bytes of `data`, or all of it when shorter (Buffer.subarray). */
  function Prefix(data: seq<uint8>, n: nat): (r: seq<uint8>)
    ensures |r| == if |data| < n then |data| else n
    ensures r == data[..|r|]
  {
    if |data| < n then data else data[..n]
  }

  /**
   * wrapPosition: an account whose first 8 bytes are the position
   * discriminator is decoded (by `decodePosition`) and wrapped; any other
   * account is rejected as unknown.
   */
  function WrapPosition(key: PublicKey, data: seq<uint8>, positionDiscriminator: seq<uint8>,
                        decodePosition: seq<uint8> -> Position): (r: Result<PositionV2Wrapper, DlmmError>)
    ensures |positionDiscriminator| == 8 ==>
      (r.Ok? <==> |data| >= 8 && data[..8] == positionDiscriminator)
    ensures r.Ok? ==> r.value == PositionV2Wrapper(key, decodePosition(data))
    ensures r.Err? ==> r.error == UnknownPositionAccount
  {
    var disc := Prefix(data, 8);
    if disc == positionDiscriminator then Ok(PositionV2Wrapper(key, decodePosition(data)))
    else Err(UnknownPositionAccount)
  }
}
