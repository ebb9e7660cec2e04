/**
 * The liquidity-distribution planner: the percentages of each token a deposit
 * puts into each bin (spot, bid-ask and normal shapes), the conversion of a
 * distribution into weights, and the dispatch of weights to the amount
 * calculators. The Gaussian density itself is floating point and stays
 * outside: its per-bin results arrive as inputs, and only the integer
 * arithmetic that follows is modelled.
 */
module Weight {
  import opened Wrappers
  import opened Arith
  import opened Seqs
  import opened Constants
  import opened Pricing
  import opened Types
  import opened Sorting

  // ---------------------------------------------------------------------------
  // Sequences of integers

  function SumInts(s: seq<int>): int {
    if s == [] then 0 else s[0] + SumInts(s[1..])
  }

  lemma {:induction false} SumIntsConcat(a: seq<int>, b: seq<int>)
    ensures SumInts(a + b) == SumInts(a) + SumInts(b)
  {
    if a != [] {
      assert (a + b)[1..] == a[1..] + b;
      SumIntsConcat(a[1..], b);
    } else {
      assert a + b == b;
    }
  }

  /** Math.min over a non-empty list. */
  function SeqMin(s: seq<int>): (m: int)
    requires |s| > 0
    ensures m in s
    ensures forall x :: x in s ==> m <= x
  {
    if |s| == 1 then s[0]
    else
      var rest := SeqMin(s[1..]);
      assert s == [s[0]] + s[1..];
      if s[0] <= rest then s[0] else rest
  }

  /** Math.max over a non-empty list. */
  function SeqMax(s: seq<int>): (m: int)
    requires |s| > 0
    ensures m in s
    ensures forall x :: x in s ==> x <= m
  {
    if |s| == 1 then s[0]
    else
      var rest := SeqMax(s[1..]);
      assert s == [s[0]] + s[1..];
      if s[0] >= rest then s[0] else rest
  }

  /** How often `x` occurs in `s`. */
  function Occurrences(s: seq<int>, x: int): nat {
    if s == [] then 0 else (if s[0] == x then 1 else 0) + Occurrences(s[1..], x)
  }

  /** A bn.js value built from a JavaScript number: the fraction is cut off toward zero. */
  function TruncReal(x: real): int {
    if x >= 0.0 then x.Floor else -((-x).Floor)
  }

  // ---------------------------------------------------------------------------
  // buildGaussianFromBins

  datatype GaussianParameters = GaussianParameters(mean: int, variance: real)

  /**
   * Variance of the density: the square of a quarter of the id span, at least 1.
   */
  function GaussianVariance(smallestBin: int, largestBin: int): (v: real)
    ensures v >= 1.0
    ensures largestBin - smallestBin >= 4 || largestBin - smallestBin <= -4 ==>
              v == ((largestBin - smallestBin) as real / 4.0) * ((largestBin - smallestBin) as real / 4.0)
    ensures -4 < largestBin - smallestBin < 4 ==> v == 1.0
  {
    var stdDev := (largestBin - smallestBin) as real / 4.0;
    var square := stdDev * stdDev;
    assert stdDev >= 1.0 ==> square >= stdDev;
    assert stdDev <= -1.0 ==> square >= -stdDev;
    assert -1.0 < stdDev < 1.0 ==> square < 1.0 by {
      if -1.0 < stdDev < 1.0 { SquareBelowOne(stdDev); }
    }
    if square >= 1.0 then square else 1.0
  }

  /** A number strictly between -1 and 1 has a square below 1. */
  lemma SquareBelowOne(x: real)
    requires -1.0 < x < 1.0
    ensures x * x < 1.0
  {
    if x >= 0.0 {
      assert x * x <= x * 1.0;
    } else {
      assert (-x) * (-x) <= (-x) * 1.0;
    }
  }

  /**
   * buildGaussianFromBins as written. `find` returns the found id itself, so an
   * active bin of id 0 reads as "not found". An empty list has an infinite
   * minimum; None stands for that.
   */
  function BuildGaussianFromBins(activeBin: int, binIds: seq<int>): (r: Option<GaussianParameters>)
    ensures r.None? <==> |binIds| == 0
    ensures r.Some? ==> SeqMin(binIds) <= r.value.mean <= SeqMax(binIds)
    ensures r.Some? && activeBin in binIds && activeBin != 0 ==> r.value.mean == activeBin
    ensures r.Some? && activeBin == 0 && 0 in binIds ==> r.value.mean == SeqMax(binIds)
    ensures r.Some? && activeBin !in binIds ==>
              r.value.mean == if activeBin < SeqMin(binIds) then SeqMin(binIds) else SeqMax(binIds)
    ensures r.Some? ==> r.value.variance == GaussianVariance(SeqMin(binIds), SeqMax(binIds))
  {
    if |binIds| == 0 then None
    else
      var smallestBin := SeqMin(binIds);
      var largestBin := SeqMax(binIds);
      var isAroundActiveBin: Option<int> := if activeBin in binIds then Some(activeBin) else None;
      var mean :=
        if isAroundActiveBin.Some? && isAroundActiveBin.value != 0 then activeBin
        else if activeBin < smallestBin then smallestBin
        else largestBin;
      Some(GaussianParameters(mean, GaussianVariance(smallestBin, largestBin)))
  }

  /** With the active bin at id 0 inside the range, the mean moves to the largest bin. */
  lemma ActiveBinZeroMeanIsLargest()
    ensures BuildGaussianFromBins(0, [-1, 0, 1]) == Some(GaussianParameters(1, 1.0))
  {
    var binIds := [-1, 0, 1];
    assert binIds[1..] == [0, 1] && binIds[1..][1..] == [1];
    assert SeqMin(binIds) == -1;
    assert SeqMax(binIds) == 1;
    assert 0 in binIds by { assert binIds[1] == 0; }
  }

  /** The mean as evidently intended: the active bin whenever it is one of the bins. */
  function GaussianMean(activeBin: int, binIds: seq<int>): (m: int)
    requires |binIds| > 0
    ensures activeBin in binIds ==> m == activeBin
    ensures SeqMin(binIds) <= m <= SeqMax(binIds)
    ensures activeBin !in binIds && activeBin < SeqMin(binIds) ==> m == SeqMin(binIds)
    ensures activeBin !in binIds && activeBin >= SeqMin(binIds) ==> m == SeqMax(binIds)
  {
    if activeBin in binIds then activeBin
    else if activeBin < SeqMin(binIds) then SeqMin(binIds)
    else SeqMax(binIds)
  }

  /** The two means differ only when the active bin is bin 0. */
  lemma {:induction false} GaussianMeanAgreesAwayFromZero(activeBin: int, binIds: seq<int>)
    requires |binIds| > 0
    ensures activeBin != 0 || activeBin !in binIds ==>
              BuildGaussianFromBins(activeBin, binIds).value.mean == GaussianMean(activeBin, binIds)
  {
  }

  // ---------------------------------------------------------------------------
  // computeAllocationBps

  /** new BN(allocation * 10000) for each allocation. */
  function BpsOf(allocations: seq<real>): (r: seq<int>)
    ensures |r| == |allocations|
  {
    if allocations == [] then [] else [TruncReal(allocations[0] * 10000.0)] + BpsOf(allocations[1..])
  }

  /** Peeling allocation `i` off the suffix that starts at it. */
  lemma BpsStep(allocations: seq<real>, i: int)
    requires 0 <= i < |allocations|
    ensures BpsOf(allocations[i..]) == [TruncReal(allocations[i] * 10000.0)] + BpsOf(allocations[i + 1..])
  {
    assert allocations[i..][1..] == allocations[i + 1..];
  }

  /** computeAllocationBps: basis points per bin and the shortfall from 10000. */
  method ComputeAllocationBps(allocations: seq<real>) returns (bpsAllocations: seq<int>, pLoss: int)
    ensures bpsAllocations == BpsOf(allocations)
    ensures pLoss + SumInts(bpsAllocations) == BASIS_POINT_MAX
  {
    var totalAllocation := 0;
    bpsAllocations := [];
    var i := 0;
    while i < |allocations|
      invariant 0 <= i <= |allocations|
      invariant bpsAllocations + BpsOf(allocations[i..]) == BpsOf(allocations)
      invariant totalAllocation == SumInts(bpsAllocations)
    {
      BpsStep(allocations, i);
      var allocBps := TruncReal(allocations[i] * 10000.0);
      SumIntsConcat(bpsAllocations, [allocBps]);
      ghost var rest := BpsOf(allocations[i + 1..]);
      ConcatAssoc(bpsAllocations, [allocBps], rest);
      bpsAllocations := bpsAllocations + [allocBps];
      totalAllocation := totalAllocation + allocBps;
      i := i + 1;
    }
    assert allocations[i..] == [];
    pLoss := BASIS_POINT_MAX - totalAllocation;
  }

  // ---------------------------------------------------------------------------
  // Building distributions bin by bin

  /** Which bins, relative to the active one, take a share of a side. */
  datatype Side = AtOrAbove | AtOrBelow | Above | Below

  predicate OnSide(binId: int, activeBin: int, side: Side) {
    match side
    case AtOrAbove => binId >= activeBin
    case AtOrBelow => binId <= activeBin
    case Above => binId > activeBin
    case Below => binId < activeBin
  }

  /** The values of the bins of one side, in bin order. */
  function Select(binIds: seq<int>, values: seq<int>, activeBin: int, side: Side): seq<int>
    requires |values| == |binIds|
  {
    if binIds == [] then []
    else (if OnSide(binIds[0], activeBin, side) then [values[0]] else [])
         + Select(binIds[1..], values[1..], activeBin, side)
  }

  /** The first bin adds its value to its side's sum when it is on that side. */
  lemma SelectHead(binIds: seq<int>, values: seq<int>, activeBin: int, side: Side)
    requires |values| == |binIds| && binIds != []
    ensures SumInts(Select(binIds, values, activeBin, side))
         == (if OnSide(binIds[0], activeBin, side) then values[0] else 0)
            + SumInts(Select(binIds[1..], values[1..], activeBin, side))
  {
    var head := if OnSide(binIds[0], activeBin, side) then [values[0]] else [];
    SumIntsConcat(head, Select(binIds[1..], values[1..], activeBin, side));
  }

  /**
   * How one bin's entry is formed from its two per-bin values.
   * XOnly / YOnly: a one-sided deposit, the value being basis points.
   * BidAskBoth: percentages on both sides, the active bin taking both.
   * NormalBoth: percentages on both sides, the active bin taking the residues.
   */
  datatype Rule = XOnly | YOnly | BidAskBoth | NormalBoth(activeX: int, activeY: int)

  function Entry(rule: Rule, activeBin: int, binId: int, x: int, y: int): BinLiquidityDistribution {
    match rule
    case XOnly => BinLiquidityDistribution(binId, x / 100, 0)
    case YOnly => BinLiquidityDistribution(binId, 0, y / 100)
    case BidAskBoth =>
      BinLiquidityDistribution(binId, if binId >= activeBin then x else 0, if binId <= activeBin then y else 0)
    case NormalBoth(activeX, activeY) =>
      if binId == activeBin then BinLiquidityDistribution(binId, activeX, activeY)
      else if binId > activeBin then BinLiquidityDistribution(binId, x, 0)
      else BinLiquidityDistribution(binId, 0, y)
  }

  /** The side whose queue a two-sided rule takes its X values from, and its Y values. */
  function XSide(rule: Rule): Side {
    if rule.NormalBoth? then Above else AtOrAbove
  }

  function YSide(rule: Rule): Side {
    if rule.NormalBoth? then Below else AtOrBelow
  }

  /** The bin ids a distribution names, in its order. */
  function BinIdsOf(d: seq<BinLiquidityDistribution>): (ids: seq<int>)
    ensures |ids| == |d|
  {
    if d == [] then [] else [d[0].binId] + BinIdsOf(d[1..])
  }

  /** A distribution whose entries name `ids` one by one names exactly `ids`. */
  lemma {:induction false} NamesIds(d: seq<BinLiquidityDistribution>, ids: seq<int>)
    requires |d| == |ids|
    requires forall i :: 0 <= i < |d| ==> d[i].binId == ids[i]
    ensures BinIdsOf(d) == ids
  {
    if d != [] {
      NamesIds(d[1..], ids[1..]);
      assert ids == [ids[0]] + ids[1..];
    }
  }


  /** Entry `i` of BinIdsOf is the id of entry `i`. */
  lemma {:induction false} IdsAt(d: seq<BinLiquidityDistribution>)
    ensures forall i :: 0 <= i < |d| ==> BinIdsOf(d)[i] == d[i].binId
  {
    if d != [] {
      IdsAt(d[1..]);
    }
  }

  /** The entries of all bins, in bin order. */
  function Distribute(rule: Rule, activeBin: int, binIds: seq<int>, xs: seq<int>, ys: seq<int>): (r: seq<BinLiquidityDistribution>)
    requires |xs| == |binIds| && |ys| == |binIds|
    ensures |r| == |binIds|
  {
    if binIds == [] then []
    else [Entry(rule, activeBin, binIds[0], xs[0], ys[0])] + Distribute(rule, activeBin, binIds[1..], xs[1..], ys[1..])
  }

  /** Adding to a percentage of one entry keeps the ids. */
  lemma AddKeepsIds(d: seq<BinLiquidityDistribution>, k: int, v: int)
    requires 0 <= k < |d|
    ensures BinIdsOf(AddX(d, k, v)) == BinIdsOf(d)
    ensures BinIdsOf(AddY(d, k, v)) == BinIdsOf(d)
  {
    IdsAt(d);
    NamesIds(AddX(d, k, v), BinIdsOf(d));
    NamesIds(AddY(d, k, v), BinIdsOf(d));
  }

  /** Every rule keeps each bin's id, in bin order. */
  lemma {:induction false} DistributeIds(rule: Rule, activeBin: int, binIds: seq<int>, xs: seq<int>, ys: seq<int>)
    requires |xs| == |binIds| && |ys| == |binIds|
    ensures BinIdsOf(Distribute(rule, activeBin, binIds, xs, ys)) == binIds
  {
    if binIds != [] {
      var d := Distribute(rule, activeBin, binIds, xs, ys);
      DistributeIds(rule, activeBin, binIds[1..], xs[1..], ys[1..]);
      assert d[1..] == Distribute(rule, activeBin, binIds[1..], xs[1..], ys[1..]);
      assert binIds == [binIds[0]] + binIds[1..];
    }
  }

  function SumX(d: seq<BinLiquidityDistribution>): int {
    if d == [] then 0 else d[0].distributionX + SumX(d[1..])
  }

  function SumY(d: seq<BinLiquidityDistribution>): int {
    if d == [] then 0 else d[0].distributionY + SumY(d[1..])
  }

  /** `+=` on one entry's X percentage. */
  function AddX(d: seq<BinLiquidityDistribution>, k: int, v: int): seq<BinLiquidityDistribution>
    requires 0 <= k < |d|
  {
    d[k := d[k].(distributionX := d[k].distributionX + v)]
  }

  /** `+=` on one entry's Y percentage. */
  function AddY(d: seq<BinLiquidityDistribution>, k: int, v: int): seq<BinLiquidityDistribution>
    requires 0 <= k < |d|
  {
    d[k := d[k].(distributionY := d[k].distributionY + v)]
  }

  /** Each bin's entry is formed by the rule from that bin's own values. */
  lemma {:induction false} DistributeAt(rule: Rule, activeBin: int, binIds: seq<int>, xs: seq<int>, ys: seq<int>, k: int)
    requires |xs| == |binIds| && |ys| == |binIds|
    requires 0 <= k < |binIds|
    ensures Distribute(rule, activeBin, binIds, xs, ys)[k] == Entry(rule, activeBin, binIds[k], xs[k], ys[k])
    decreases k
  {
    if k > 0 {
      DistributeAt(rule, activeBin, binIds[1..], xs[1..], ys[1..], k - 1);
    }
  }

  /** Adding to one entry moves that column's sum by the same amount and leaves the other. */
  lemma {:induction false} AddSums(d: seq<BinLiquidityDistribution>, k: int, v: int)
    requires 0 <= k < |d|
    ensures SumX(AddX(d, k, v)) == SumX(d) + v && SumY(AddX(d, k, v)) == SumY(d)
    ensures SumY(AddY(d, k, v)) == SumY(d) + v && SumX(AddY(d, k, v)) == SumX(d)
    decreases k
  {
    if k == 0 {
      assert AddX(d, k, v)[1..] == d[1..];
      assert AddY(d, k, v)[1..] == d[1..];
    } else {
      AddSums(d[1..], k - 1, v);
      assert AddX(d, k, v)[1..] == AddX(d[1..], k - 1, v);
      assert AddY(d, k, v)[1..] == AddY(d[1..], k - 1, v);
    }
  }

  /** A one-sided X rule fills no Y, and its floored percentages cover at most the basis points. */
  lemma {:induction false} XOnlySums(activeBin: int, binIds: seq<int>, xs: seq<int>, ys: seq<int>)
    requires |xs| == |binIds| && |ys| == |binIds|
    ensures var d := Distribute(XOnly, activeBin, binIds, xs, ys);
            100 * SumX(d) <= SumInts(xs) && SumY(d) == 0
  {
    if binIds != [] {
      XOnlySums(activeBin, binIds[1..], xs[1..], ys[1..]);
      var d := Distribute(XOnly, activeBin, binIds, xs, ys);
      assert d[1..] == Distribute(XOnly, activeBin, binIds[1..], xs[1..], ys[1..]);
    }
  }

  /** A one-sided Y rule fills no X, and its floored percentages cover at most the basis points. */
  lemma {:induction false} YOnlySums(activeBin: int, binIds: seq<int>, xs: seq<int>, ys: seq<int>)
    requires |xs| == |binIds| && |ys| == |binIds|
    ensures var d := Distribute(YOnly, activeBin, binIds, xs, ys);
            100 * SumY(d) <= SumInts(ys) && SumX(d) == 0
  {
    if binIds != [] {
      YOnlySums(activeBin, binIds[1..], xs[1..], ys[1..]);
      var d := Distribute(YOnly, activeBin, binIds, xs, ys);
      assert d[1..] == Distribute(YOnly, activeBin, binIds[1..], xs[1..], ys[1..]);
    }
  }

  /** Bid-ask columns add up to the values of the bins at or above (X) and at or below (Y) the active bin. */
  lemma {:induction false} BidAskSums(activeBin: int, binIds: seq<int>, xs: seq<int>, ys: seq<int>)
    requires |xs| == |binIds| && |ys| == |binIds|
    ensures var d := Distribute(BidAskBoth, activeBin, binIds, xs, ys);
            SumX(d) == SumInts(Select(binIds, xs, activeBin, AtOrAbove))
            && SumY(d) == SumInts(Select(binIds, ys, activeBin, AtOrBelow))
  {
    if binIds != [] {
      BidAskSums(activeBin, binIds[1..], xs[1..], ys[1..]);
      var d := Distribute(BidAskBoth, activeBin, binIds, xs, ys);
      assert d[1..] == Distribute(BidAskBoth, activeBin, binIds[1..], xs[1..], ys[1..]);
      SelectHead(binIds, xs, activeBin, AtOrAbove);
      SelectHead(binIds, ys, activeBin, AtOrBelow);
    }
  }

  /** The first bin's normal entry opens both column sums. */
  lemma NormalHead(activeX: int, activeY: int, activeBin: int, binIds: seq<int>, xs: seq<int>, ys: seq<int>)
    requires |xs| == |binIds| && |ys| == |binIds| && binIds != []
    ensures SumX(Distribute(NormalBoth(activeX, activeY), activeBin, binIds, xs, ys))
         == (if binIds[0] == activeBin then activeX else if binIds[0] > activeBin then xs[0] else 0)
            + SumX(Distribute(NormalBoth(activeX, activeY), activeBin, binIds[1..], xs[1..], ys[1..]))
    ensures SumY(Distribute(NormalBoth(activeX, activeY), activeBin, binIds, xs, ys))
         == (if binIds[0] == activeBin then activeY else if binIds[0] < activeBin then ys[0] else 0)
            + SumY(Distribute(NormalBoth(activeX, activeY), activeBin, binIds[1..], xs[1..], ys[1..]))
  {
    var rule := NormalBoth(activeX, activeY);
    var d := Distribute(rule, activeBin, binIds, xs, ys);
    assert d[1..] == Distribute(rule, activeBin, binIds[1..], xs[1..], ys[1..]);
  }

  lemma MulSucc(n: int, a: int)
    ensures (n + 1) * a == n * a + a
  {
  }

  /**
   * The normal X column adds up to the values of the bins strictly above the
   * active bin, plus its residue once for every time the active bin occurs.
   */
  lemma {:induction false} NormalSumX(activeX: int, activeY: int, activeBin: int, binIds: seq<int>, xs: seq<int>, ys: seq<int>)
    requires |xs| == |binIds| && |ys| == |binIds|
    ensures SumX(Distribute(NormalBoth(activeX, activeY), activeBin, binIds, xs, ys))
         == SumInts(Select(binIds, xs, activeBin, Above)) + Occurrences(binIds, activeBin) * activeX
  {
    if binIds != [] {
      NormalSumX(activeX, activeY, activeBin, binIds[1..], xs[1..], ys[1..]);
      NormalHead(activeX, activeY, activeBin, binIds, xs, ys);
      SelectHead(binIds, xs, activeBin, Above);
      MulSucc(Occurrences(binIds[1..], activeBin), activeX);
    }
  }

  /** The normal Y column, likewise with the bins strictly below the active bin. */
  lemma {:induction false} NormalSumY(activeX: int, activeY: int, activeBin: int, binIds: seq<int>, xs: seq<int>, ys: seq<int>)
    requires |xs| == |binIds| && |ys| == |binIds|
    ensures SumY(Distribute(NormalBoth(activeX, activeY), activeBin, binIds, xs, ys))
         == SumInts(Select(binIds, ys, activeBin, Below)) + Occurrences(binIds, activeBin) * activeY
  {
    if binIds != [] {
      NormalSumY(activeX, activeY, activeBin, binIds[1..], xs[1..], ys[1..]);
      NormalHead(activeX, activeY, activeBin, binIds, xs, ys);
      SelectHead(binIds, ys, activeBin, Below);
      MulSucc(Occurrences(binIds[1..], activeBin), activeY);
    }
  }

  /** binIds.map((bid, idx) => ...): one entry per bin from the values at the same position. */
  method DistributeByIndex(rule: Rule, activeBin: int, binIds: seq<int>, xs: seq<int>, ys: seq<int>)
    returns (d: seq<BinLiquidityDistribution>)
    requires |xs| == |binIds| && |ys| == |binIds|
    ensures d == Distribute(rule, activeBin, binIds, xs, ys)
  {
    d := [];
    var i := 0;
    while i < |binIds|
      invariant 0 <= i <= |binIds|
      invariant d + Distribute(rule, activeBin, binIds[i..], xs[i..], ys[i..]) == Distribute(rule, activeBin, binIds, xs, ys)
    {
      DistributeStep(rule, activeBin, binIds, xs, ys, i);
      ghost var rest := Distribute(rule, activeBin, binIds[i + 1..], xs[i + 1..], ys[i + 1..]);
      var e := Entry(rule, activeBin, binIds[i], xs[i], ys[i]);
      ConcatAssoc(d, [e], rest);
      d := d + [e];
      i := i + 1;
    }
  }

  /** push() of a bin's value onto a queue when the bin is on the queue's side. */
  method PushIf(queue: seq<int>, onSide: bool, value: int, ghost rest: seq<int>) returns (pushed: seq<int>)
    ensures pushed + rest == queue + ((if onSide then [value] else []) + rest)
    ensures onSide ==> pushed == queue + [value]
    ensures !onSide ==> pushed == queue
  {
    pushed := queue;
    if onSide {
      pushed := pushed + [value];
      assert pushed + rest == queue + ([value] + rest);
    }
  }

  /** The reduce that pushes each bin's value onto the queue of its side. */
  method CollectSides(binIds: seq<int>, xs: seq<int>, ys: seq<int>, activeBin: int, xSide: Side, ySide: Side)
    returns (normX: seq<int>, normY: seq<int>)
    requires |xs| == |binIds| && |ys| == |binIds|
    ensures normX == Select(binIds, xs, activeBin, xSide)
    ensures normY == Select(binIds, ys, activeBin, ySide)
  {
    normX, normY := [], [];
    var i := 0;
    while i < |binIds|
      invariant 0 <= i <= |binIds|
      invariant normX + Select(binIds[i..], xs[i..], activeBin, xSide) == Select(binIds, xs, activeBin, xSide)
      invariant normY + Select(binIds[i..], ys[i..], activeBin, ySide) == Select(binIds, ys, activeBin, ySide)
    {
      SelectStep(binIds, xs, activeBin, xSide, i);
      SelectStep(binIds, ys, activeBin, ySide, i);
      normX := PushIf(normX, OnSide(binIds[i], activeBin, xSide), xs[i], Select(binIds[i + 1..], xs[i + 1..], activeBin, xSide));
      normY := PushIf(normY, OnSide(binIds[i], activeBin, ySide), ys[i], Select(binIds[i + 1..], ys[i + 1..], activeBin, ySide));
      i := i + 1;
    }
  }

  /** Peeling bin `i` off the suffix of a side's values that starts at it. */
  lemma SelectStep(binIds: seq<int>, values: seq<int>, activeBin: int, side: Side, i: int)
    requires |values| == |binIds| && 0 <= i < |binIds|
    ensures Select(binIds[i..], values[i..], activeBin, side)
         == (if OnSide(binIds[i], activeBin, side) then [values[i]] else [])
            + Select(binIds[i + 1..], values[i + 1..], activeBin, side)
  {
    assert binIds[i..][1..] == binIds[i + 1..] && values[i..][1..] == values[i + 1..];
  }

  /** Peeling bin `i` off the suffix of the entries that starts at it. */
  lemma DistributeStep(rule: Rule, activeBin: int, binIds: seq<int>, xs: seq<int>, ys: seq<int>, i: int)
    requires |xs| == |binIds| && |ys| == |binIds| && 0 <= i < |binIds|
    ensures Distribute(rule, activeBin, binIds[i..], xs[i..], ys[i..])
         == [Entry(rule, activeBin, binIds[i], xs[i], ys[i])] + Distribute(rule, activeBin, binIds[i + 1..], xs[i + 1..], ys[i + 1..])
  {
    assert binIds[i..][1..] == binIds[i + 1..] && xs[i..][1..] == xs[i + 1..] && ys[i..][1..] == ys[i + 1..];
  }

  /** shift() on a queue when the bin is on the queue's side; 0 (unused) otherwise. */
  method ShiftIf(queue: seq<int>, onSide: bool, ghost head: int, ghost rest: seq<int>) returns (value: int, remaining: seq<int>)
    requires queue == (if onSide then [head] else []) + rest
    ensures remaining == rest
    ensures onSide ==> value == head
  {
    if onSide {
      value := queue[0];
      remaining := queue[1..];
    } else {
      value := 0;
      remaining := queue;
    }
  }

  /** A two-sided rule ignores a bin's value for a side the bin is not on. */
  lemma EntryOffSide(rule: Rule, activeBin: int, binId: int, x: int, y: int, x': int, y': int)
    requires rule.BidAskBoth? || rule.NormalBoth?
    requires OnSide(binId, activeBin, XSide(rule)) ==> x == x'
    requires OnSide(binId, activeBin, YSide(rule)) ==> y == y'
    ensures Entry(rule, activeBin, binId, x, y) == Entry(rule, activeBin, binId, x', y')
  {
  }

  /**
   * The map that takes, for each bin on a side, the next value off that side's
   * queue with shift(); the queues hand back exactly the bins' own values.
   */
  method ShiftIntoBins(rule: Rule, activeBin: int, binIds: seq<int>, xs: seq<int>, ys: seq<int>,
                       normX0: seq<int>, normY0: seq<int>)
    returns (d: seq<BinLiquidityDistribution>)
    requires rule.BidAskBoth? || rule.NormalBoth?
    requires |xs| == |binIds| && |ys| == |binIds|
    requires normX0 == Select(binIds, xs, activeBin, XSide(rule))
    requires normY0 == Select(binIds, ys, activeBin, YSide(rule))
    ensures d == Distribute(rule, activeBin, binIds, xs, ys)
  {
    var normX, normY := normX0, normY0;
    d := [];
    var i := 0;
    while i < |binIds|
      invariant 0 <= i <= |binIds|
      invariant normX == Select(binIds[i..], xs[i..], activeBin, XSide(rule))
      invariant normY == Select(binIds[i..], ys[i..], activeBin, YSide(rule))
      invariant d + Distribute(rule, activeBin, binIds[i..], xs[i..], ys[i..]) == Distribute(rule, activeBin, binIds, xs, ys)
    {
      SelectStep(binIds, xs, activeBin, XSide(rule), i);
      SelectStep(binIds, ys, activeBin, YSide(rule), i);
      DistributeStep(rule, activeBin, binIds, xs, ys, i);
      var binId := binIds[i];
      var x, y;
      x, normX := ShiftIf(normX, OnSide(binId, activeBin, XSide(rule)), xs[i], Select(binIds[i + 1..], xs[i + 1..], activeBin, XSide(rule)));
      y, normY := ShiftIf(normY, OnSide(binId, activeBin, YSide(rule)), ys[i], Select(binIds[i + 1..], ys[i + 1..], activeBin, YSide(rule)));
      EntryOffSide(rule, activeBin, binId, x, y, xs[i], ys[i]);
      ghost var rest := Distribute(rule, activeBin, binIds[i + 1..], xs[i + 1..], ys[i + 1..]);
      var e := Entry(rule, activeBin, binId, x, y);
      ConcatAssoc(d, [e], rest);
      d := d + [e];
      i := i + 1;
    }
  }

  // ---------------------------------------------------------------------------
  // calculateBidAskDistribution and calculateNormalDistribution

  /**
   * The per-bin results of the Gaussian step, in bin order: the normalised
   * allocation (for the one-sided conversion to basis points) and the floored
   * percentage of the bin's allocation against the X and the Y side's total
   * (halved at the active bin for bid-ask).
   */
  datatype GaussianShares = GaussianShares(allocations: seq<real>, xPercent: seq<int>, yPercent: seq<int>)

  predicate SharesFor(g: GaussianShares, binIds: seq<int>) {
    |g.allocations| == |binIds| && |g.xPercent| == |binIds| && |g.yPercent| == |binIds|
  }

  /** A one-sided distribution: floored basis points per bin, the floored shortfall added at bin `edge`. */
  function OneSided(rule: Rule, binIds: seq<int>, allocations: seq<real>, edge: int): (r: seq<BinLiquidityDistribution>)
    requires rule == XOnly || rule == YOnly
    requires |allocations| == |binIds| && 0 <= edge < |binIds|
    ensures |r| == |binIds|
    ensures BinIdsOf(r) == binIds
  {
    var bps := BpsOf(allocations);
    var pLoss := BASIS_POINT_MAX - SumInts(bps);
    var d := Distribute(rule, 0, binIds, bps, bps);
    DistributeIds(rule, 0, binIds, bps, bps);
    AddKeepsIds(d, edge, pLoss / 100);
    if rule == XOnly then AddX(d, edge, pLoss / 100) else AddY(d, edge, pLoss / 100)
  }

  /**
   * The one-sided branch of both shapes: basis points per bin, each bin's
   * percentage their floor, the floored shortfall added at bin `edge`.
   */
  method OneSidedDistribution(rule: Rule, binIds: seq<int>, allocations: seq<real>, edge: int)
    returns (binDistributions: seq<BinLiquidityDistribution>)
    requires rule == XOnly || rule == YOnly
    requires |allocations| == |binIds| && 0 <= edge < |binIds|
    ensures binDistributions == OneSided(rule, binIds, allocations, edge)
  {
    var bpsAllocations, pLoss := ComputeAllocationBps(allocations);
    binDistributions := DistributeByIndex(rule, 0, binIds, bpsAllocations, bpsAllocations);
    if rule == XOnly {
      binDistributions := binDistributions[edge := binDistributions[edge].(distributionX := binDistributions[edge].distributionX + pLoss / 100)];
    } else {
      binDistributions := binDistributions[edge := binDistributions[edge].(distributionY := binDistributions[edge].distributionY + pLoss / 100)];
    }
  }

  /** A one-sided distribution fills one token only, and never more than 100 percent of it. */
  lemma {:induction false} OneSidedAtMostHundred(rule: Rule, binIds: seq<int>, allocations: seq<real>, edge: int)
    requires rule == XOnly || rule == YOnly
    requires |allocations| == |binIds| && 0 <= edge < |binIds|
    ensures var d := OneSided(rule, binIds, allocations, edge);
            rule == XOnly ==> SumX(d) <= 100 && SumY(d) == 0
    ensures var d := OneSided(rule, binIds, allocations, edge);
            rule == YOnly ==> SumY(d) <= 100 && SumX(d) == 0
  {
    var bps := BpsOf(allocations);
    var pLoss := BASIS_POINT_MAX - SumInts(bps);
    var d := Distribute(rule, 0, binIds, bps, bps);
    if rule == XOnly {
      XOnlySums(0, binIds, bps, bps);
    } else {
      YOnlySums(0, binIds, bps, bps);
    }
    AddSums(d, edge, pLoss / 100);
    assert 100 * (pLoss / 100) <= pLoss;
  }

  /** The bid-ask distribution: an inverted bell, the percentage shortfalls going to the edge bins. */
  function BidAskSpec(activeBin: int, binIds: seq<int>, g: GaussianShares): (r: Result<seq<BinLiquidityDistribution>, DlmmError>)
    requires SharesFor(g, binIds)
    ensures r.Err? <==> |binIds| == 0
    ensures r.Ok? ==> BinIdsOf(r.value) == binIds
  {
    if |binIds| == 0 then Err(UndefinedElement)
    else if activeBin < SeqMin(binIds) then Ok(OneSided(XOnly, binIds, g.allocations, |binIds| - 1))
    else if activeBin > SeqMax(binIds) then Ok(OneSided(YOnly, binIds, g.allocations, 0))
    else
      BidAskTwoSidedIds(activeBin, binIds, g);
      Ok(BidAskTwoSided(activeBin, binIds, g))
  }

  /** Both sides: each bin's own percentages, the shortfalls added at the first (Y) and last (X) bin. */
  function BidAskTwoSided(activeBin: int, binIds: seq<int>, g: GaussianShares): seq<BinLiquidityDistribution>
    requires SharesFor(g, binIds) && |binIds| > 0
  {
    var xPLoss := 100 - SumInts(Select(binIds, g.xPercent, activeBin, AtOrAbove));
    var yPLoss := 100 - SumInts(Select(binIds, g.yPercent, activeBin, AtOrBelow));
    var d := Distribute(BidAskBoth, activeBin, binIds, g.xPercent, g.yPercent);
    AddX(AddY(d, 0, yPLoss), |binIds| - 1, xPLoss)
  }

  lemma BidAskTwoSidedIds(activeBin: int, binIds: seq<int>, g: GaussianShares)
    requires SharesFor(g, binIds) && |binIds| > 0
    ensures BinIdsOf(BidAskTwoSided(activeBin, binIds, g)) == binIds
  {
    var yPLoss := 100 - SumInts(Select(binIds, g.yPercent, activeBin, AtOrBelow));
    var d := Distribute(BidAskBoth, activeBin, binIds, g.xPercent, g.yPercent);
    DistributeIds(BidAskBoth, activeBin, binIds, g.xPercent, g.yPercent);
    AddKeepsIds(d, 0, yPLoss);
    AddKeepsIds(AddY(d, 0, yPLoss), |binIds| - 1, 100 - SumInts(Select(binIds, g.xPercent, activeBin, AtOrAbove)));
  }

  /** calculateBidAskDistribution. */
  method CalculateBidAskDistribution(activeBin: int, binIds: seq<int>, g: GaussianShares)
    returns (r: Result<seq<BinLiquidityDistribution>, DlmmError>)
    requires SharesFor(g, binIds)
    ensures r == BidAskSpec(activeBin, binIds, g)
  {
    if |binIds| == 0 {
      // Math.min of nothing is Infinity: the right-only branch reads entry -1.
      return Err(UndefinedElement);
    }
    var smallestBin := SeqMin(binIds);
    var largestBin := SeqMax(binIds);
    var rightOnly := activeBin < smallestBin;
    var leftOnly := activeBin > largestBin;
    if rightOnly {
      var binDistributions := OneSidedDistribution(XOnly, binIds, g.allocations, |binIds| - 1);
      return Ok(binDistributions);
    }
    if leftOnly {
      var binDistributions := OneSidedDistribution(YOnly, binIds, g.allocations, 0);
      return Ok(binDistributions);
    }
    var distributions := BidAskBothSides(activeBin, binIds, g);
    return Ok(distributions);
  }

  /** The two-sided branch of calculateBidAskDistribution. */
  method BidAskBothSides(activeBin: int, binIds: seq<int>, g: GaussianShares)
    returns (distributions: seq<BinLiquidityDistribution>)
    requires SharesFor(g, binIds) && |binIds| > 0
    ensures distributions == BidAskTwoSided(activeBin, binIds, g)
  {
    var normXAllocations, normYAllocations := CollectSides(binIds, g.xPercent, g.yPercent, activeBin, AtOrAbove, AtOrBelow);
    var xPLoss := 100 - SumInts(normXAllocations);
    var yPLoss := 100 - SumInts(normYAllocations);
    distributions := ShiftIntoBins(BidAskBoth, activeBin, binIds, g.xPercent, g.yPercent, normXAllocations, normYAllocations);
    distributions := AddYUnlessZero(distributions, 0, yPLoss);
    distributions := AddXUnlessZero(distributions, |distributions| - 1, xPLoss);
  }

  /** `if (v != 0) d[k].distributionX += v`: skipping a zero adds nothing. */
  method AddXUnlessZero(d: seq<BinLiquidityDistribution>, k: int, v: int) returns (r: seq<BinLiquidityDistribution>)
    requires 0 <= k < |d|
    ensures r == AddX(d, k, v)
  {
    r := d;
    if v != 0 {
      r := r[k := r[k].(distributionX := r[k].distributionX + v)];
    }
  }

  /** `if (v != 0) d[k].distributionY += v`. */
  method AddYUnlessZero(d: seq<BinLiquidityDistribution>, k: int, v: int) returns (r: seq<BinLiquidityDistribution>)
    requires 0 <= k < |d|
    ensures r == AddY(d, k, v)
  {
    r := d;
    if v != 0 {
      r := r[k := r[k].(distributionY := r[k].distributionY + v)];
    }
  }

  /** With the active bin inside the range, each token's percentages add up to exactly 100. */
  lemma {:induction false} BidAskTwoSidedSumsToHundred(activeBin: int, binIds: seq<int>, g: GaussianShares)
    requires SharesFor(g, binIds) && |binIds| > 0
    requires SeqMin(binIds) <= activeBin <= SeqMax(binIds)
    ensures BidAskSpec(activeBin, binIds, g).Ok?
    ensures SumX(BidAskSpec(activeBin, binIds, g).value) == 100
    ensures SumY(BidAskSpec(activeBin, binIds, g).value) == 100
  {
    var yPLoss := 100 - SumInts(Select(binIds, g.yPercent, activeBin, AtOrBelow));
    var d := Distribute(BidAskBoth, activeBin, binIds, g.xPercent, g.yPercent);
    BidAskSums(activeBin, binIds, g.xPercent, g.yPercent);
    var xPLoss := 100 - SumInts(Select(binIds, g.xPercent, activeBin, AtOrAbove));
    AddSums(d, 0, yPLoss);
    AddSums(AddY(d, 0, yPLoss), |binIds| - 1, xPLoss);
  }

  /** Outside the range only one token is deposited: X to the right of the active bin, Y to its left. */
  lemma {:induction false} BidAskOneSided(activeBin: int, binIds: seq<int>, g: GaussianShares)
    requires SharesFor(g, binIds) && |binIds| > 0
    requires activeBin < SeqMin(binIds) || activeBin > SeqMax(binIds)
    ensures var d := BidAskSpec(activeBin, binIds, g).value;
            activeBin < SeqMin(binIds) ==> SumX(d) <= 100 && SumY(d) == 0
    ensures var d := BidAskSpec(activeBin, binIds, g).value;
            activeBin > SeqMax(binIds) ==> SumY(d) <= 100 && SumX(d) == 0
  {
    if activeBin < SeqMin(binIds) {
      OneSidedAtMostHundred(XOnly, binIds, g.allocations, |binIds| - 1);
    } else {
      OneSidedAtMostHundred(YOnly, binIds, g.allocations, 0);
    }
  }

  /** The normal distribution: a bell around the active bin, which takes what the sides leave. */
  function NormalSpec(activeBin: int, binIds: seq<int>, g: GaussianShares): (r: Result<seq<BinLiquidityDistribution>, DlmmError>)
    requires SharesFor(g, binIds)
    ensures r.Err? <==> |binIds| == 0
    ensures r.Ok? ==> BinIdsOf(r.value) == binIds
  {
    if |binIds| == 0 then Err(UndefinedElement)
    else if activeBin < SeqMin(binIds) then Ok(OneSided(XOnly, binIds, g.allocations, 0))
    else if activeBin > SeqMax(binIds) then Ok(OneSided(YOnly, binIds, g.allocations, |binIds| - 1))
    else
      var activeX := 100 - SumInts(Select(binIds, g.xPercent, activeBin, Above));
      var activeY := 100 - SumInts(Select(binIds, g.yPercent, activeBin, Below));
      DistributeIds(NormalBoth(activeX, activeY), activeBin, binIds, g.xPercent, g.yPercent);
      Ok(Distribute(NormalBoth(activeX, activeY), activeBin, binIds, g.xPercent, g.yPercent))
  }

  /** calculateNormalDistribution. */
  method CalculateNormalDistribution(activeBin: int, binIds: seq<int>, g: GaussianShares)
    returns (r: Result<seq<BinLiquidityDistribution>, DlmmError>)
    requires SharesFor(g, binIds)
    ensures r == NormalSpec(activeBin, binIds, g)
  {
    if |binIds| == 0 {
      // Math.min of nothing is Infinity: the right-only branch reads entry 0 of an empty list.
      return Err(UndefinedElement);
    }
    var smallestBin := SeqMin(binIds);
    var largestBin := SeqMax(binIds);
    var rightOnly := activeBin < smallestBin;
    var leftOnly := activeBin > largestBin;
    if rightOnly {
      var binDistributions := OneSidedDistribution(XOnly, binIds, g.allocations, 0);
      return Ok(binDistributions);
    }
    if leftOnly {
      var binDistributions := OneSidedDistribution(YOnly, binIds, g.allocations, |binIds| - 1);
      return Ok(binDistributions);
    }
    var normXAllocations, normYAllocations := CollectSides(binIds, g.xPercent, g.yPercent, activeBin, Above, Below);
    // reduce((maxPercent, percent) => maxPercent - percent, 100)
    var normXActiveBinAllocation := 100 - SumInts(normXAllocations);
    var normYActiveBinAllocation := 100 - SumInts(normYAllocations);
    var d := ShiftIntoBins(NormalBoth(normXActiveBinAllocation, normYActiveBinAllocation), activeBin, binIds,
                           g.xPercent, g.yPercent, normXAllocations, normYAllocations);
    return Ok(d);
  }

  /**
   * With the active bin present exactly once, each token's percentages add up
   * to exactly 100, and every other bin carries only its own side's token.
   */
  lemma {:induction false} NormalTwoSidedSumsToHundred(activeBin: int, binIds: seq<int>, g: GaussianShares)
    requires SharesFor(g, binIds) && |binIds| > 0
    requires Occurrences(binIds, activeBin) == 1
    ensures NormalSpec(activeBin, binIds, g).Ok?
    ensures SumX(NormalSpec(activeBin, binIds, g).value) == 100
    ensures SumY(NormalSpec(activeBin, binIds, g).value) == 100
    ensures forall k :: 0 <= k < |binIds| && binIds[k] > activeBin ==> NormalSpec(activeBin, binIds, g).value[k].distributionY == 0
    ensures forall k :: 0 <= k < |binIds| && binIds[k] < activeBin ==> NormalSpec(activeBin, binIds, g).value[k].distributionX == 0
  {
    OccursThenInside(binIds, activeBin);
    var activeX := 100 - SumInts(Select(binIds, g.xPercent, activeBin, Above));
    var activeY := 100 - SumInts(Select(binIds, g.yPercent, activeBin, Below));
    var rule := NormalBoth(activeX, activeY);
    assert NormalSpec(activeBin, binIds, g) == Ok(Distribute(rule, activeBin, binIds, g.xPercent, g.yPercent));
    NormalSumX(activeX, activeY, activeBin, binIds, g.xPercent, g.yPercent);
    NormalSumY(activeX, activeY, activeBin, binIds, g.xPercent, g.yPercent);
    forall k | 0 <= k < |binIds|
      ensures binIds[k] > activeBin ==> Distribute(rule, activeBin, binIds, g.xPercent, g.yPercent)[k].distributionY == 0
      ensures binIds[k] < activeBin ==> Distribute(rule, activeBin, binIds, g.xPercent, g.yPercent)[k].distributionX == 0
    {
      DistributeAt(rule, activeBin, binIds, g.xPercent, g.yPercent, k);
    }
  }

  /** A bin id that occurs in the list lies between its minimum and maximum. */
  lemma OccursThenInside(binIds: seq<int>, activeBin: int)
    requires |binIds| > 0 && Occurrences(binIds, activeBin) > 0
    ensures SeqMin(binIds) <= activeBin <= SeqMax(binIds)
  {
    OccursIn(binIds, activeBin);
  }

  lemma {:induction false} OccursIn(s: seq<int>, x: int)
    requires Occurrences(s, x) > 0
    ensures x in s
  {
    if s[0] != x {
      OccursIn(s[1..], x);
    }
  }

  // ---------------------------------------------------------------------------
  // calculateSpotDistribution

  /** How many bins lie on one side of the active bin (filter(...).length). */
  function CountOnSide(binIds: seq<int>, activeBin: int, side: Side): nat {
    if binIds == [] then 0
    else (if OnSide(binIds[0], activeBin, side) then 1 else 0) + CountOnSide(binIds[1..], activeBin, side)
  }

  /** Outside the range: equal shares of 10000 / n basis points, all X or all Y by the first bin's side. */
  function SpotOutsideRange(activeBin: int, binIds: seq<int>): (d: seq<BinLiquidityDistribution>)
    requires |binIds| > 0
    ensures |d| == |binIds|
  {
    var perBin := (BASIS_POINT_MAX / |binIds|) / 100;
    if binIds[0] < activeBin then
      seq(|binIds|, i requires 0 <= i < |binIds| => BinLiquidityDistribution(binIds[i], 0, perBin))
    else
      seq(|binIds|, i requires 0 <= i < |binIds| => BinLiquidityDistribution(binIds[i], perBin, 0))
  }

  /** Basis points of a side bin when the active bin counts as half a bin: 10000 / (count + 1/2). */
  function HalfBinShare(count: nat): int {
    20000 / (2 * count + 1)
  }

  /** Inside the range: equal shares per side, the active bin taking what each side leaves. */
  function SpotInsideRange(activeBin: int, binIds: seq<int>): (d: seq<BinLiquidityDistribution>)
    ensures |d| == |binIds|
  {
    var binYCount := CountOnSide(binIds, activeBin, Below);
    var binXCount := CountOnSide(binIds, activeBin, Above);
    var yBinBps := HalfBinShare(binYCount);
    var xBinBps := HalfBinShare(binXCount);
    var yActiveBinBps := BASIS_POINT_MAX - yBinBps * binYCount;
    var xActiveBinBps := BASIS_POINT_MAX - xBinBps * binXCount;
    seq(|binIds|, i requires 0 <= i < |binIds| =>
      if binIds[i] < activeBin then BinLiquidityDistribution(binIds[i], 0, yBinBps / 100)
      else if binIds[i] > activeBin then BinLiquidityDistribution(binIds[i], xBinBps / 100, 0)
      else BinLiquidityDistribution(binIds[i], xActiveBinBps / 100, yActiveBinBps / 100))
  }

  /** The spot shape: equal shares, the active bin counting as half a bin. */
  function SpotSpec(activeBin: int, binIds: seq<int>): (r: Result<seq<BinLiquidityDistribution>, DlmmError>)
    ensures r.Err? <==> |binIds| == 0
    ensures r.Ok? ==> BinIdsOf(r.value) == binIds
  {
    if activeBin !in binIds then
      if |binIds| == 0 then Err(DivisionByZero)
      else
        NamesIds(SpotOutsideRange(activeBin, binIds), binIds);
        Ok(SpotOutsideRange(activeBin, binIds))
    else
      NamesIds(SpotInsideRange(activeBin, binIds), binIds);
      Ok(SpotInsideRange(activeBin, binIds))
  }

  /** new BN(10000 / (count + 0.5)) is the integer quotient 20000 div (2 count + 1). */
  lemma {:induction false} HalfBinCapacityBps(count: nat)
    ensures TruncReal(10000.0 / (count as real + 0.5)) == HalfBinShare(count)
  {
    var d := 2 * count + 1;
    assert 10000.0 / (count as real + 0.5) == 20000.0 / d as real;
    FloorOfQuotient(20000, d);
  }

  /** The floor of an exact quotient of naturals is their integer quotient. */
  lemma {:induction false} FloorOfQuotient(n: nat, d: nat)
    requires d > 0
    ensures (n as real / d as real).Floor == n / d
  {
    var q, r := n / d, n % d;
    assert n == q * d + r && 0 <= r < d;
    assert n as real == q as real * d as real + r as real;
    var x := n as real / d as real;
    assert x == q as real + r as real / d as real;
    assert 0.0 <= r as real / d as real < 1.0;
  }

  /** calculateSpotDistribution. */
  method CalculateSpotDistribution(activeBin: int, binIds: seq<int>)
    returns (r: Result<seq<BinLiquidityDistribution>, DlmmError>)
    ensures r == SpotSpec(activeBin, binIds)
  {
    if activeBin !in binIds {
      if |binIds| == 0 {
        // divmod by zero
        return Err(DivisionByZero);
      }
      var distributions := SpotDistributionOutsideRange(activeBin, binIds);
      return Ok(distributions);
    }
    var distributions := SpotDistributionInsideRange(activeBin, binIds);
    return Ok(distributions);
  }

  /** The outside-range branch: a rounding loss of 0 or 1 basis point, added at an edge as loss / 100. */
  method SpotDistributionOutsideRange(activeBin: int, binIds: seq<int>) returns (distributions: seq<BinLiquidityDistribution>)
    requires |binIds| > 0
    ensures distributions == SpotOutsideRange(activeBin, binIds)
  {
    var dist := BASIS_POINT_MAX / |binIds|;
    var rem := BASIS_POINT_MAX % |binIds|;
    var loss := if rem == 0 then 0 else 1;
    if binIds[0] < activeBin {
      distributions := seq(|binIds|, i requires 0 <= i < |binIds| => BinLiquidityDistribution(binIds[i], 0, dist / 100));
      // Add the loss to the left most bin
      distributions := distributions[0 := distributions[0].(distributionY := distributions[0].distributionY + loss / 100)];
    } else {
      distributions := seq(|binIds|, i requires 0 <= i < |binIds| => BinLiquidityDistribution(binIds[i], dist / 100, 0));
      // Add the loss to the right most bin
      var last := |binIds| - 1;
      distributions := distributions[last := distributions[last].(distributionX := distributions[last].distributionX + loss / 100)];
    }
    assert loss / 100 == 0;
    ghost var expected := SpotOutsideRange(activeBin, binIds);
    assert forall k :: 0 <= k < |binIds| ==> distributions[k] == expected[k];
  }

  /** The inside-range branch. */
  method SpotDistributionInsideRange(activeBin: int, binIds: seq<int>) returns (distributions: seq<BinLiquidityDistribution>)
    ensures distributions == SpotInsideRange(activeBin, binIds)
  {
    var binYCount := CountOnSide(binIds, activeBin, Below);
    var binXCount := CountOnSide(binIds, activeBin, Above);
    var yBinBps := TruncReal(10000.0 / (binYCount as real + 0.5));
    HalfBinCapacityBps(binYCount);
    var yActiveBinBps := BASIS_POINT_MAX - yBinBps * binYCount;
    var xBinBps := TruncReal(10000.0 / (binXCount as real + 0.5));
    HalfBinCapacityBps(binXCount);
    var xActiveBinBps := BASIS_POINT_MAX - xBinBps * binXCount;
    distributions := seq(|binIds|, i requires 0 <= i < |binIds| =>
      if binIds[i] < activeBin then BinLiquidityDistribution(binIds[i], 0, yBinBps / 100)
      else if binIds[i] > activeBin then BinLiquidityDistribution(binIds[i], xBinBps / 100, 0)
      else BinLiquidityDistribution(binIds[i], xActiveBinBps / 100, yActiveBinBps / 100));
    ghost var expected := SpotInsideRange(activeBin, binIds);
    assert forall k :: 0 <= k < |binIds| ==> distributions[k] == expected[k];
  }

  /** Three bins left of the active bin: 33 percent of Y each, 99 in all. */
  lemma SpotOutsideRangeExample()
    ensures SpotSpec(10, [5, 6, 7]) == Ok([BinLiquidityDistribution(5, 0, 33),
                                          BinLiquidityDistribution(6, 0, 33),
                                          BinLiquidityDistribution(7, 0, 33)])
    ensures SumY(SpotSpec(10, [5, 6, 7]).value) == 99
  {
    var binIds := [5, 6, 7];
    assert 10 !in binIds;
    var d := SpotSpec(10, binIds).value;
    assert d == [BinLiquidityDistribution(5, 0, 33), BinLiquidityDistribution(6, 0, 33), BinLiquidityDistribution(7, 0, 33)];
    assert d[1..][1..] == [d[2]];
  }

  /** Five bins around active bin 0: Y 40, 40, 20 and X 20, 40, 40. */
  lemma SpotInsideRangeExample()
    ensures SpotSpec(0, [-2, -1, 0, 1, 2]) == Ok([BinLiquidityDistribution(-2, 0, 40),
                                                 BinLiquidityDistribution(-1, 0, 40),
                                                 BinLiquidityDistribution(0, 20, 20),
                                                 BinLiquidityDistribution(1, 40, 0),
                                                 BinLiquidityDistribution(2, 40, 0)])
  {
    var binIds := [-2, -1, 0, 1, 2];
    assert binIds[2] == 0;
    assert CountOnSide(binIds, 0, Below) == 2 by {
      assert binIds[1..][1..][1..] == [1, 2];
      assert binIds[1..][1..][1..][1..] == [2];
    }
    assert CountOnSide(binIds, 0, Above) == 2 by {
      assert binIds[1..][1..][1..] == [1, 2];
      assert binIds[1..][1..][1..][1..] == [2];
    }
    var d := SpotSpec(0, binIds).value;
    assert |d| == 5;
    assert d[0] == BinLiquidityDistribution(-2, 0, 40);
    assert d[1] == BinLiquidityDistribution(-1, 0, 40);
    assert d[2] == BinLiquidityDistribution(0, 20, 20);
    assert d[3] == BinLiquidityDistribution(1, 40, 0);
    assert d[4] == BinLiquidityDistribution(2, 40, 0);
    assert d == [BinLiquidityDistribution(-2, 0, 40), BinLiquidityDistribution(-1, 0, 40),
                 BinLiquidityDistribution(0, 20, 20), BinLiquidityDistribution(1, 40, 0),
                 BinLiquidityDistribution(2, 40, 0)];
  }

  /**
   * A Y column whose entry depends only on the bin's side of the active bin
   * adds up to each value times the number of bins on that side.
   */
  lemma {:induction false} ColumnYBySide(d: seq<BinLiquidityDistribution>, binIds: seq<int>, activeBin: int,
                                         below: int, at: int, above: int)
    requires |d| == |binIds|
    requires forall i :: 0 <= i < |d| ==>
      d[i].distributionY == if binIds[i] < activeBin then below else if binIds[i] > activeBin then above else at
    ensures SumY(d) == CountOnSide(binIds, activeBin, Below) * below + Occurrences(binIds, activeBin) * at
                     + CountOnSide(binIds, activeBin, Above) * above
  {
    if d != [] {
      assert forall i :: 0 <= i < |d[1..]| ==> d[1..][i] == d[i + 1] && binIds[1..][i] == binIds[i + 1];
      ColumnYBySide(d[1..], binIds[1..], activeBin, below, at, above);
      MulSucc(CountOnSide(binIds[1..], activeBin, Below), below);
      MulSucc(Occurrences(binIds[1..], activeBin), at);
      MulSucc(CountOnSide(binIds[1..], activeBin, Above), above);
    }
  }

  /** The X column, likewise. */
  lemma {:induction false} ColumnXBySide(d: seq<BinLiquidityDistribution>, binIds: seq<int>, activeBin: int,
                                         below: int, at: int, above: int)
    requires |d| == |binIds|
    requires forall i :: 0 <= i < |d| ==>
      d[i].distributionX == if binIds[i] < activeBin then below else if binIds[i] > activeBin then above else at
    ensures SumX(d) == CountOnSide(binIds, activeBin, Below) * below + Occurrences(binIds, activeBin) * at
                     + CountOnSide(binIds, activeBin, Above) * above
  {
    if d != [] {
      assert forall i :: 0 <= i < |d[1..]| ==> d[1..][i] == d[i + 1] && binIds[1..][i] == binIds[i + 1];
      ColumnXBySide(d[1..], binIds[1..], activeBin, below, at, above);
      MulSucc(CountOnSide(binIds[1..], activeBin, Below), below);
      MulSucc(Occurrences(binIds[1..], activeBin), at);
      MulSucc(CountOnSide(binIds[1..], activeBin, Above), above);
    }
  }

  /** Flooring each of `n` equal parts loses at least as much as flooring their total. */
  lemma MulFloorBound(n: nat, q: nat, d: nat)
    requires d > 0
    ensures n * (q / d) <= (n * q) / d
  {
    var f := q / d;
    assert f * d <= q;
    MulMonotone(f * d, q, n);
    assert (n * f) * d == (f * d) * n;
    DivLowerBound(n * q, d, n * f);
  }

  /** A column holding the same value in every entry adds up to that value times the length. */
  lemma {:induction false} UniformColumns(d: seq<BinLiquidityDistribution>, x: int, y: int)
    requires forall i :: 0 <= i < |d| ==> d[i].distributionX == x && d[i].distributionY == y
    ensures SumX(d) == |d| * x && SumY(d) == |d| * y
  {
    if d != [] {
      assert forall i :: 0 <= i < |d[1..]| ==> d[1..][i] == d[i + 1];
      UniformColumns(d[1..], x, y);
      MulSucc(|d| - 1, x);
      MulSucc(|d| - 1, y);
    }
  }

  /** n equal floored shares of 10000 / n basis points make at most 100 percent. */
  lemma EqualSharesAtMostHundred(n: nat)
    requires n > 0
    ensures n * ((BASIS_POINT_MAX / n) / 100) <= 100
  {
    var share := BASIS_POINT_MAX / n;
    assert n * share <= BASIS_POINT_MAX;
    MulFloorBound(n, share, 100);
    DivBound(n * share, 100, 100);
  }

  /**
   * Outside the range only one token is placed: Y when the first bin lies
   * below the active bin, X otherwise. Each of the n bins gets
   * (10000 div n) div 100 percent, so the token's total is at most 100.
   */
  lemma SpotOutsideRangeSums(activeBin: int, binIds: seq<int>)
    requires |binIds| > 0
    ensures var d := SpotOutsideRange(activeBin, binIds);
            var perBin := (BASIS_POINT_MAX / |binIds|) / 100;
            binIds[0] < activeBin ==> SumX(d) == 0 && SumY(d) == |binIds| * perBin <= 100
    ensures var d := SpotOutsideRange(activeBin, binIds);
            var perBin := (BASIS_POINT_MAX / |binIds|) / 100;
            binIds[0] >= activeBin ==> SumY(d) == 0 && SumX(d) == |binIds| * perBin <= 100
  {
    var d := SpotOutsideRange(activeBin, binIds);
    var perBin := (BASIS_POINT_MAX / |binIds|) / 100;
    if binIds[0] < activeBin {
      UniformColumns(d, 0, perBin);
    } else {
      UniformColumns(d, perBin, 0);
    }
    EqualSharesAtMostHundred(|binIds|);
  }

  /** A side of `count` bins at HalfBinShare(count) each leaves the active bin a non-negative remainder. */
  lemma HalfBinShareFits(count: nat)
    ensures 0 <= count * HalfBinShare(count) <= BASIS_POINT_MAX
  {
    var h, k := HalfBinShare(count), 2 * count + 1;
    FloorTimesDivisor(20000, k);
    OddMultiple(count, h);
  }

  lemma OddMultiple(c: nat, h: nat)
    ensures h * (2 * c + 1) == 2 * (c * h) + h
  {
  }

  /** `count` floored side shares and the floored remainder at the active bin make at most 100 percent. */
  lemma SideAndRemainderAtMostHundred(count: nat)
    ensures count * (HalfBinShare(count) / 100) + (BASIS_POINT_MAX - HalfBinShare(count) * count) / 100 <= 100
  {
    var h := HalfBinShare(count);
    HalfBinShareFits(count);
    MulFloorBound(count, h, 100);
    assert h * count == count * h;
    FloorDivSuperadditive(count * h, BASIS_POINT_MAX - count * h, 100);
  }

  /**
   * Inside the range, with the active bin listed once, the Y percentages add
   * up to at most 100: the lower bins' floored shares plus the floored
   * remainder at the active bin.
   */
  lemma SpotInsideRangeYAtMostHundred(activeBin: int, binIds: seq<int>)
    requires Occurrences(binIds, activeBin) == 1
    ensures SumY(SpotInsideRange(activeBin, binIds)) <= 100
  {
    var b := CountOnSide(binIds, activeBin, Below);
    var h := HalfBinShare(b);
    var rest := (BASIS_POINT_MAX - h * b) / 100;
    ColumnYBySide(SpotInsideRange(activeBin, binIds), binIds, activeBin, h / 100, rest, 0);
    SideAndRemainderAtMostHundred(b);
  }

  /** The X percentages likewise, with the upper bins. */
  lemma SpotInsideRangeXAtMostHundred(activeBin: int, binIds: seq<int>)
    requires Occurrences(binIds, activeBin) == 1
    ensures SumX(SpotInsideRange(activeBin, binIds)) <= 100
  {
    var a := CountOnSide(binIds, activeBin, Above);
    var h := HalfBinShare(a);
    var rest := (BASIS_POINT_MAX - h * a) / 100;
    ColumnXBySide(SpotInsideRange(activeBin, binIds), binIds, activeBin, 0, rest, h / 100);
    SideAndRemainderAtMostHundred(a);
  }

  // ---------------------------------------------------------------------------
  // toWeightDistribution

  /** A bin's share of each token, in basis points of the total. */
  datatype BinBps = BinBps(binId: int, xAmountBpsOfTotal: nat, yAmountBpsOfTotal: nat)

  datatype BinQuote = BinQuote(binId: int, quoteAmount: nat)

  datatype BinWeight = BinWeight(binId: int, weight: int)

  /** Fixed-point scale of the price used to value X in Y. */
  const PRICE_PRECISION: nat := 1000000000000

  /** The largest weight of a bin. */
  const MAX_WEIGHT: nat := 65535

  /** The bin price scaled by PRICE_PRECISION and floored. */
  function ScaledPrice(binId: int, binStep: nat): (p: nat)
  {
    var scaled := GetPriceOfBinByBinId(binId, binStep) * PRICE_PRECISION as real;
    assert scaled >= 0.0;
    scaled.Floor
  }

  /** The value in Y of what a bin receives. */
  function QuoteAmount(amountX: nat, amountY: nat, bin: BinBps, binStep: nat): nat {
    amountX * bin.xAmountBpsOfTotal * ScaledPrice(bin.binId, binStep) / BASIS_POINT_MAX / PRICE_PRECISION
    + amountY * bin.yAmountBpsOfTotal / BASIS_POINT_MAX
  }

  function QuotesOf(amountX: nat, amountY: nat, distributions: seq<BinBps>, binStep: nat): (r: seq<BinQuote>)
    ensures |r| == |distributions|
  {
    if distributions == [] then []
    else [BinQuote(distributions[0].binId, QuoteAmount(amountX, amountY, distributions[0], binStep))]
         + QuotesOf(amountX, amountY, distributions[1..], binStep)
  }

  function SumQuotes(quotes: seq<BinQuote>): nat {
    if quotes == [] then 0 else quotes[0].quoteAmount + SumQuotes(quotes[1..])
  }

  /** The weight of a bin: its share of the total quote, scaled to MAX_WEIGHT and floored. */
  function WeightOf(quoteAmount: nat, totalQuote: nat): int
    requires totalQuote > 0
  {
    quoteAmount * MAX_WEIGHT / totalQuote
  }

  /** The bins of positive weight, in input order. */
  function WeightsOf(quotes: seq<BinQuote>, totalQuote: nat): (r: seq<BinWeight>)
    requires totalQuote > 0
    ensures |r| <= |quotes|
    ensures forall w :: w in r ==> w.weight > 0
  {
    if quotes == [] then []
    else
      var weight := WeightOf(quotes[0].quoteAmount, totalQuote);
      (if weight > 0 then [BinWeight(quotes[0].binId, weight)] else []) + WeightsOf(quotes[1..], totalQuote)
  }

  function ToWeightDistributionSpec(amountX: nat, amountY: nat, distributions: seq<BinBps>, binStep: nat): (r: seq<BinWeight>)
    ensures |r| <= |distributions|
    ensures forall w :: w in r ==> w.weight > 0
  {
    var quotes := QuotesOf(amountX, amountY, distributions, binStep);
    var totalQuote := SumQuotes(quotes);
    if totalQuote == 0 then [] else WeightsOf(quotes, totalQuote)
  }

  /** Peeling bin `i` off the quotes of the suffix that starts at it. */
  lemma QuotesStep(amountX: nat, amountY: nat, distributions: seq<BinBps>, binStep: nat, i: int)
    requires 0 <= i < |distributions|
    ensures QuotesOf(amountX, amountY, distributions[i..], binStep)
         == [BinQuote(distributions[i].binId, QuoteAmount(amountX, amountY, distributions[i], binStep))]
            + QuotesOf(amountX, amountY, distributions[i + 1..], binStep)
    ensures SumQuotes(QuotesOf(amountX, amountY, distributions[i..], binStep))
         == QuoteAmount(amountX, amountY, distributions[i], binStep)
            + SumQuotes(QuotesOf(amountX, amountY, distributions[i + 1..], binStep))
  {
    assert distributions[i..][1..] == distributions[i + 1..];
  }

  /** Peeling quote `i` off the weights of the suffix that starts at it. */
  lemma WeightsStep(quotes: seq<BinQuote>, totalQuote: nat, i: int)
    requires totalQuote > 0 && 0 <= i < |quotes|
    ensures WeightsOf(quotes[i..], totalQuote)
         == (if WeightOf(quotes[i].quoteAmount, totalQuote) > 0
             then [BinWeight(quotes[i].binId, WeightOf(quotes[i].quoteAmount, totalQuote))] else [])
            + WeightsOf(quotes[i + 1..], totalQuote)
  {
    assert quotes[i..][1..] == quotes[i + 1..];
  }

  /** The weighing loop's invariant survives quote `i`, whether it is kept or dropped. */
  lemma WeighStep(r: seq<BinWeight>, quotes: seq<BinQuote>, totalQuote: nat, i: int)
    requires totalQuote > 0 && 0 <= i < |quotes|
    requires r + WeightsOf(quotes[i..], totalQuote) == WeightsOf(quotes, totalQuote)
    ensures var weight := WeightOf(quotes[i].quoteAmount, totalQuote);
            (if weight > 0 then r + [BinWeight(quotes[i].binId, weight)] else r)
              + WeightsOf(quotes[i + 1..], totalQuote) == WeightsOf(quotes, totalQuote)
  {
    WeightsStep(quotes, totalQuote, i);
    var weight := WeightOf(quotes[i].quoteAmount, totalQuote);
    ConcatAssoc(r, [BinWeight(quotes[i].binId, weight)], WeightsOf(quotes[i + 1..], totalQuote));
  }

  /** toWeightDistribution: quote every bin, then weigh each against the total. */
  method ToWeightDistribution(amountX: nat, amountY: nat, distributions: seq<BinBps>, binStep: nat)
    returns (r: seq<BinWeight>)
    ensures r == ToWeightDistributionSpec(amountX, amountY, distributions, binStep)
  {
    var quoteDistributions, totalQuote := QuoteBins(amountX, amountY, distributions, binStep);
    if totalQuote == 0 {
      return [];
    }
    r := WeighQuotes(quoteDistributions, totalQuote);
  }

  /** The map that values each bin in Y, with the running total. */
  method QuoteBins(amountX: nat, amountY: nat, distributions: seq<BinBps>, binStep: nat)
    returns (quoteDistributions: seq<BinQuote>, totalQuote: nat)
    ensures quoteDistributions == QuotesOf(amountX, amountY, distributions, binStep)
    ensures totalQuote == SumQuotes(quoteDistributions)
  {
    totalQuote := 0;
    quoteDistributions := [];
    var i := 0;
    while i < |distributions|
      invariant 0 <= i <= |distributions|
      invariant quoteDistributions + QuotesOf(amountX, amountY, distributions[i..], binStep)
                == QuotesOf(amountX, amountY, distributions, binStep)
      invariant totalQuote + SumQuotes(QuotesOf(amountX, amountY, distributions[i..], binStep))
                == SumQuotes(QuotesOf(amountX, amountY, distributions, binStep))
    {
      QuotesStep(amountX, amountY, distributions, binStep, i);
      var bin := distributions[i];
      var quoteAmount := QuoteAmount(amountX, amountY, bin, binStep);
      totalQuote := totalQuote + quoteAmount;
      ghost var rest := QuotesOf(amountX, amountY, distributions[i + 1..], binStep);
      var quote := BinQuote(bin.binId, quoteAmount);
      ConcatAssoc(quoteDistributions, [quote], rest);
      quoteDistributions := quoteDistributions + [quote];
      i := i + 1;
    }
    assert distributions[i..] == [];
  }

  /** The map to weights followed by the filter that drops weight 0. */
  method WeighQuotes(quotes: seq<BinQuote>, totalQuote: nat) returns (r: seq<BinWeight>)
    requires totalQuote > 0
    ensures r == WeightsOf(quotes, totalQuote)
  {
    r := [];
    var i := 0;
    while i < |quotes|
      invariant 0 <= i <= |quotes|
      invariant r + WeightsOf(quotes[i..], totalQuote) == WeightsOf(quotes, totalQuote)
    {
      WeighStep(r, quotes, totalQuote, i);
      var weight := WeightOf(quotes[i].quoteAmount, totalQuote);
      if weight > 0 {
        r := r + [BinWeight(quotes[i].binId, weight)];
      }
      i := i + 1;
    }
  }

  function SumWeights(ws: seq<BinWeight>): int {
    if ws == [] then 0 else ws[0].weight + SumWeights(ws[1..])
  }

  /** No bin's quote exceeds the total of a list it belongs to. */
  lemma {:induction false} QuoteAtMostSum(quotes: seq<BinQuote>, k: int)
    requires 0 <= k < |quotes|
    ensures quotes[k].quoteAmount <= SumQuotes(quotes)
    decreases k
  {
    if k > 0 {
      QuoteAtMostSum(quotes[1..], k - 1);
    }
  }

  /** A quote no larger than the total weighs at most MAX_WEIGHT. */
  lemma WeightAtMostMax(quoteAmount: nat, totalQuote: nat)
    requires 0 < totalQuote && quoteAmount <= totalQuote
    ensures WeightOf(quoteAmount, totalQuote) <= MAX_WEIGHT
  {
    MulMonotone(quoteAmount, totalQuote, MAX_WEIGHT);
    DivBound(quoteAmount * MAX_WEIGHT, totalQuote, MAX_WEIGHT);
  }

  /** Every kept weight is between 1 and MAX_WEIGHT. */
  lemma {:induction false} WeightsInRange(quotes: seq<BinQuote>, totalQuote: nat)
    requires totalQuote > 0 && SumQuotes(quotes) <= totalQuote
    ensures forall w :: w in WeightsOf(quotes, totalQuote) ==> 1 <= w.weight <= MAX_WEIGHT
  {
    if quotes != [] {
      WeightsInRange(quotes[1..], totalQuote);
      QuoteAtMostSum(quotes, 0);
      WeightAtMostMax(quotes[0].quoteAmount, totalQuote);
    }
  }

  /** One more bin keeps the floored weights within the floored share of the larger sum. */
  lemma AddWeightBound(q: nat, restQuotes: nat, restWeights: int, totalQuote: nat)
    requires totalQuote > 0 && restWeights <= restQuotes * MAX_WEIGHT / totalQuote
    ensures q * MAX_WEIGHT / totalQuote + restWeights <= (q + restQuotes) * MAX_WEIGHT / totalQuote
  {
    FloorDivSuperadditive(q * MAX_WEIGHT, restQuotes * MAX_WEIGHT, totalQuote);
    assert q * MAX_WEIGHT + restQuotes * MAX_WEIGHT == (q + restQuotes) * MAX_WEIGHT;
  }

  /** The weights of a list add up to at most its share of MAX_WEIGHT. */
  lemma {:induction false} WeightsSumBound(quotes: seq<BinQuote>, totalQuote: nat)
    requires totalQuote > 0
    ensures SumWeights(WeightsOf(quotes, totalQuote)) <= SumQuotes(quotes) * MAX_WEIGHT / totalQuote
  {
    if quotes != [] {
      var rest := quotes[1..];
      var q := quotes[0].quoteAmount;
      var weight := WeightOf(q, totalQuote);
      var tail := WeightsOf(rest, totalQuote);
      WeightsSumBound(rest, totalQuote);
      if weight > 0 {
        var ws := [BinWeight(quotes[0].binId, weight)] + tail;
        assert ws[1..] == tail;
        assert SumWeights(WeightsOf(quotes, totalQuote)) == weight + SumWeights(tail);
      } else {
        assert WeightsOf(quotes, totalQuote) == tail;
        assert weight == 0;
      }
      AddWeightBound(q, SumQuotes(rest), SumWeights(tail), totalQuote);
    }
  }

  /** Against their own total, the weights add up to at most MAX_WEIGHT, each between 1 and MAX_WEIGHT. */
  lemma WeightsOfTotal(quotes: seq<BinQuote>)
    requires SumQuotes(quotes) > 0
    ensures forall w :: w in WeightsOf(quotes, SumQuotes(quotes)) ==> 1 <= w.weight <= MAX_WEIGHT
    ensures SumWeights(WeightsOf(quotes, SumQuotes(quotes))) <= MAX_WEIGHT
  {
    var t := SumQuotes(quotes);
    WeightsInRange(quotes, t);
    WeightsSumBound(quotes, t);
    DivBound(t * MAX_WEIGHT, t, MAX_WEIGHT);
  }

  /**
   * toWeightDistribution is empty when nothing has value; otherwise every
   * weight is between 1 and MAX_WEIGHT and the weights add up to at most MAX_WEIGHT.
   */
  lemma {:induction false} ToWeightDistributionBounds(amountX: nat, amountY: nat, distributions: seq<BinBps>, binStep: nat)
    ensures var quotes := QuotesOf(amountX, amountY, distributions, binStep);
            SumQuotes(quotes) == 0 ==> ToWeightDistributionSpec(amountX, amountY, distributions, binStep) == []
    ensures var r := ToWeightDistributionSpec(amountX, amountY, distributions, binStep);
            (forall w :: w in r ==> 1 <= w.weight <= MAX_WEIGHT) && SumWeights(r) <= MAX_WEIGHT
  {
    var quotes := QuotesOf(amountX, amountY, distributions, binStep);
    if SumQuotes(quotes) > 0 {
      WeightsOfTotal(quotes);
    }
  }

  /** Every weight entry comes from a bin of the input with that weight. */
  lemma {:induction false} WeightsFromInput(quotes: seq<BinQuote>, totalQuote: nat)
    requires totalQuote > 0
    ensures forall w :: w in WeightsOf(quotes, totalQuote) ==>
              exists k :: 0 <= k < |quotes| && quotes[k].binId == w.binId
                          && w.weight == WeightOf(quotes[k].quoteAmount, totalQuote)
  {
    if quotes != [] {
      WeightsFromInput(quotes[1..], totalQuote);
      forall w | w in WeightsOf(quotes, totalQuote)
        ensures exists k :: 0 <= k < |quotes| && quotes[k].binId == w.binId
                            && w.weight == WeightOf(quotes[k].quoteAmount, totalQuote)
      {
        if w !in WeightsOf(quotes[1..], totalQuote) {
          assert quotes[0].binId == w.binId;
        } else {
          var k :| 0 <= k < |quotes[1..]| && quotes[1..][k].binId == w.binId
                   && w.weight == WeightOf(quotes[1..][k].quoteAmount, totalQuote);
          assert quotes[k + 1] == quotes[1..][k];
        }
      }
    }
  }

  // ---------------------------------------------------------------------------
  // fromWeightDistributionToAmount and fromWeightDistributionToAmountOneSide

  datatype BinAmount = BinAmount(binId: int, amount: nat)

  datatype BinAmounts = BinAmounts(binId: int, amountX: nat, amountY: nat)

  /**
   * toAmountBidSide(activeId, amount, distributions), toAmountAskSide(activeId,
   * binStep, amount, distributions) and toAmountBothSide(activeId, binStep,
   * amountX, amountY, amountXInActiveBin, amountYInActiveBin, distributions),
   * with their mints and clock bound in; their source is outside this model.
   */
  datatype AmountCalculators = AmountCalculators(
    bidSide: (int, nat, seq<BinWeight>) -> seq<BinAmount>,
    askSide: (int, nat, nat, seq<BinWeight>) -> seq<BinAmount>,
    bothSide: (int, nat, nat, nat, nat, nat, seq<BinWeight>) -> seq<BinAmounts>)

  function WeightBinId(w: BinWeight): int {
    w.binId
  }

  /** fromWeightDistributionToAmountOneSide: the bid calculator for Y, the ask calculator for X. */
  function FromWeightDistributionToAmountOneSide(amount: nat, distributions: seq<BinWeight>, binStep: nat,
                                                 activeId: int, depositForY: bool, calculators: AmountCalculators): (r: seq<BinAmount>)
    ensures depositForY ==> r == calculators.bidSide(activeId, amount, distributions)
    ensures !depositForY ==> r == calculators.askSide(activeId, binStep, amount, distributions)
  {
    if depositForY then calculators.bidSide(activeId, amount, distributions)
    else calculators.askSide(activeId, binStep, amount, distributions)
  }

  /** The bid-side amounts as X/Y pairs, with no X. */
  function AsYOnly(amounts: seq<BinAmount>): (r: seq<BinAmounts>)
    ensures |r| == |amounts|
    ensures forall i :: 0 <= i < |r| ==> r[i] == BinAmounts(amounts[i].binId, 0, amounts[i].amount)
  {
    seq(|amounts|, i requires 0 <= i < |amounts| => BinAmounts(amounts[i].binId, 0, amounts[i].amount))
  }

  /** The ask-side amounts as X/Y pairs, with no Y. */
  function AsXOnly(amounts: seq<BinAmount>): (r: seq<BinAmounts>)
    ensures |r| == |amounts|
    ensures forall i :: 0 <= i < |r| ==> r[i] == BinAmounts(amounts[i].binId, amounts[i].amount, 0)
  {
    seq(|amounts|, i requires 0 <= i < |amounts| => BinAmounts(amounts[i].binId, amounts[i].amount, 0))
  }

  /**
   * The dispatch on sorted weights: nothing for no bins, only Y when the
   * active bin is above every bin, only X when it is below every bin, both otherwise.
   */
  function AmountsForSortedWeights(amountX: nat, amountY: nat, distributions: seq<BinWeight>, binStep: nat,
                                   activeId: int, amountXInActiveBin: nat, amountYInActiveBin: nat,
                                   calculators: AmountCalculators): (r: seq<BinAmounts>)
    ensures |distributions| == 0 ==> r == []
    ensures |distributions| > 0 && activeId > distributions[|distributions| - 1].binId ==>
              r == AsYOnly(calculators.bidSide(activeId, amountY, distributions))
              && forall i :: 0 <= i < |r| ==> r[i].amountX == 0
    ensures |distributions| > 0 && activeId <= distributions[|distributions| - 1].binId && activeId < distributions[0].binId ==>
              r == AsXOnly(calculators.askSide(activeId, binStep, amountX, distributions))
              && forall i :: 0 <= i < |r| ==> r[i].amountY == 0
    ensures |distributions| > 0 && distributions[0].binId <= activeId <= distributions[|distributions| - 1].binId ==>
              r == calculators.bothSide(activeId, binStep, amountX, amountY, amountXInActiveBin, amountYInActiveBin, distributions)
  {
    if |distributions| == 0 then []
    else if activeId > distributions[|distributions| - 1].binId then
      AsYOnly(calculators.bidSide(activeId, amountY, distributions))
    else if activeId < distributions[0].binId then
      AsXOnly(calculators.askSide(activeId, binStep, amountX, distributions))
    else
      calculators.bothSide(activeId, binStep, amountX, amountY, amountXInActiveBin, amountYInActiveBin, distributions)
  }

  /** A bid-only deposit through the two-sided entry gives the same Y amounts as the one-sided entry. */
  lemma {:induction false} BidOnlyMatchesOneSide(amountX: nat, amountY: nat, distributions: seq<BinWeight>, binStep: nat,
                                                 activeId: int, amountXInActiveBin: nat, amountYInActiveBin: nat,
                                                 calculators: AmountCalculators)
    requires |distributions| > 0 && activeId > distributions[|distributions| - 1].binId
    ensures var both := AmountsForSortedWeights(amountX, amountY, distributions, binStep, activeId,
                                                amountXInActiveBin, amountYInActiveBin, calculators);
            var one := FromWeightDistributionToAmountOneSide(amountY, distributions, binStep, activeId, true, calculators);
            |both| == |one|
            && forall i :: 0 <= i < |one| ==> both[i].binId == one[i].binId && both[i].amountY == one[i].amount
  {
  }

  /**
   * fromWeightDistributionToAmount: sorts the caller's array by bin id in place
   * (stably), then dispatches on the sorted weights.
   */
  method FromWeightDistributionToAmount(amountX: nat, amountY: nat, distributions: array<BinWeight>, binStep: nat,
                                        activeId: int, amountXInActiveBin: nat, amountYInActiveBin: nat,
                                        calculators: AmountCalculators)
    returns (r: seq<BinAmounts>)
    modifies distributions
    ensures distributions[..] == SortBy(old(distributions[..]), WeightBinId)
    ensures r == AmountsForSortedWeights(amountX, amountY, distributions[..], binStep, activeId,
                                         amountXInActiveBin, amountYInActiveBin, calculators)
  {
    var sorted := SortBy(distributions[..], WeightBinId);
    forall i | 0 <= i < distributions.Length {
      distributions[i] := sorted[i];
    }
    assert distributions[..] == sorted;
    r := AmountsForSortedWeights(amountX, amountY, distributions[..], binStep, activeId,
                                 amountXInActiveBin, amountYInActiveBin, calculators);
  }
}
