/**
 * The Netlify function that samples the shielded value pools over the last
 * day of Zcash blocks: it asks the node for the tip height, walks a
 * 576-block window every 12 blocks, turns each block's `valuePools` into a
 * data point, and finally makes sure the tip block is in the series.
 */
module ShieldedHourly {
  import opened Wrappers

  /** blocksPerDay and sampleInterval. */
  const BlocksPerDay := 576
  const SampleInterval := 12

  /** The number of heights the stride loop visits: 576 / 12 + 1. */
  const StrideCount := BlocksPerDay / SampleInterval + 1

  /** One entry of a block's `valuePools`; an absent or null `chainValue` is `None`. */
  datatype PoolEntry = PoolEntry(id: string, chainValue: Option<real>)

  /** The `result` of a `getblock` reply, as far as the function reads it. */
  datatype Block = Block(time: Option<int>, valuePools: Option<seq<PoolEntry>>)

  /** One round trip to the node: `fetch` plus `.json()` either throws or yields the reply's `result`. */
  datatype Reply<T> = Threw(message: string) | Returned(result: T)

  /**
   * The node, seen through the three kinds of request the function sends:
   * `getblockcount`, `getblock` with id 'block' (the stride loop) and
   * `getblock` with id 'latest' (the tip refetch). A missing or null
   * `result` of a `getblock` reply is `Returned(None)`.
   */
  datatype Node = Node(
    blockCount: Reply<int>,
    block: int -> Reply<Option<Block>>,
    latest: int -> Reply<Option<Block>>)

  /** A request sent to the node. */
  datatype Call = GetBlockCount | GetBlock(id: string, height: int)

  /** A data point `{t, h, sp, sa, or, v}`. */
  datatype Point = Point(time: Option<int>, height: int, sprout: real, sapling: real, orchard: real, total: real)

  datatype Body =
    | Series(data: seq<Point>, latestBlock: int, fetchedAt: string)
    | ConfigError(error: string)
    | FetchError(error: string, details: string)

  datatype Response = Response(status: int, headers: seq<(string, string)>, body: Body)

  const ErrorHeaders: seq<(string, string)> :=
    [("Content-Type", "application/json"), ("Access-Control-Allow-Origin", "*")]

  const SeriesHeaders: seq<(string, string)> := ErrorHeaders + [("Cache-Control", "public, max-age=60")]

  const NotConfigured := "ZCASH_RPC_URL not configured"

  /** `!rpcUrl` is false: the variable is set and not empty. */
  predicate Configured(rpcUrl: Option<string>) {
    rpcUrl.Some? && rpcUrl.value != ""
  }

  function FailureResponse(message: string): Response {
    Response(500, ErrorHeaders, FetchError("Failed to fetch data", message))
  }

  function SeriesResponse(points: seq<Point>, currentHeight: int, fetchedAt: string): Response {
    Response(200, SeriesHeaders, Series(points, currentHeight, fetchedAt))
  }

  // ---------------------------------------------------------------------------
  // Pool values and rounding

  /** `x || 0` on a `chainValue`: absent, null and 0 all give 0. */
  function ValueOrZero(v: Option<real>): real {
    if v.Some? then v.value else 0.0
  }

  /** No entry of `pools` has that id. */
  predicate Absent(pools: seq<PoolEntry>, id: string) {
    forall k | 0 <= k < |pools| :: pools[k].id != id
  }

  /** Entry `k` is the first with that id. */
  predicate FirstWith(pools: seq<PoolEntry>, id: string, k: int) {
    0 <= k < |pools| && pools[k].id == id && Absent(pools[..k], id)
  }

  /** `pools.find(p => p.id === id)?.chainValue || 0`: the first entry with that id decides. */
  function PoolValue(pools: seq<PoolEntry>, id: string): (v: real)
    ensures Absent(pools, id) ==> v == 0.0
    ensures forall k | FirstWith(pools, id, k) :: v == ValueOrZero(pools[k].chainValue)
  {
    if pools == [] then 0.0
    else if pools[0].id == id then ValueOrZero(pools[0].chainValue)
    else
      var rest := pools[1..];
      assert forall k | FirstWith(pools, id, k) :: FirstWith(rest, id, k - 1) by {
        forall k | FirstWith(pools, id, k) ensures FirstWith(rest, id, k - 1) {
          assert rest[..k - 1] == pools[1..k];
        }
      }
      PoolValue(rest, id)
  }

  /** `sprout + sapling + orchard`: the three pools' value before rounding. */
  function PoolsTotal(pools: seq<PoolEntry>): real {
    PoolValue(pools, "sprout") + PoolValue(pools, "sapling") + PoolValue(pools, "orchard")
  }

  /** `Math.round(x * 100) / 100` on exact values: round half up to hundredths. */
  function RoundCents(x: real): real {
    ((x * 100.0 + 0.5).Floor as real) / 100.0
  }

  /** The rounded value is a whole number of hundredths. */
  lemma RoundCentsWholeHundredths(x: real)
    ensures (RoundCents(x) * 100.0).Floor as real == RoundCents(x) * 100.0
  {
    var cents := (x * 100.0 + 0.5).Floor;
    assert RoundCents(x) * 100.0 == cents as real;
  }

  /** Rounding moves a value by at most half a hundredth. */
  lemma RoundCentsClose(x: real)
    ensures -0.005 < RoundCents(x) - x <= 0.005
  {
    var f := (x * 100.0 + 0.5).Floor;
    assert f as real <= x * 100.0 + 0.5 < f as real + 1.0;
  }

  /** A value already in whole hundredths is left as it is. */
  lemma RoundCentsOfCents(n: int)
    ensures RoundCents(n as real / 100.0) == n as real / 100.0
  {
    var x := n as real / 100.0;
    assert x * 100.0 == n as real;
    var y := x * 100.0 + 0.5;
    assert n as real <= y < n as real + 1.0;
    assert y.Floor == n;
  }

  /** The total is rounded on its own, so it need not be the sum of the rounded pools. */
  lemma TotalIsNotSumOfRoundedPools()
    ensures RoundCents(0.005 + 0.005 + 0.0) != RoundCents(0.005) + RoundCents(0.005) + RoundCents(0.0)
  {
    assert (0.005 * 100.0 + 0.5).Floor == 1;
    assert ((0.005 + 0.005 + 0.0) * 100.0 + 0.5).Floor == 1;
    assert (0.0 * 100.0 + 0.5).Floor == 0;
  }

  // ---------------------------------------------------------------------------
  // One sampled height

  /** `blockData.result && blockData.result.valuePools`. */
  predicate HasPools(result: Option<Block>) {
    result.Some? && result.value.valuePools.Some?
  }

  /** The data point pushed for a block at `height`. */
  function PointOf(height: int, block: Block): Point
    requires block.valuePools.Some?
  {
    var pools := block.valuePools.value;
    var sprout := PoolValue(pools, "sprout");
    var sapling := PoolValue(pools, "sapling");
    var orchard := PoolValue(pools, "orchard");
    Point(block.time, height, RoundCents(sprout), RoundCents(sapling), RoundCents(orchard),
          RoundCents(PoolsTotal(pools)))
  }

  /** What one reply adds to the series: one point when it has pool data, nothing otherwise. */
  function Sample(height: int, result: Option<Block>): (s: seq<Point>)
    ensures |s| == if HasPools(result) then 1 else 0
    ensures |s| == 1 ==>
              var pools := result.value.valuePools.value;
              && s[0].height == height && s[0].time == result.value.time
              && s[0].sprout == RoundCents(PoolValue(pools, "sprout"))
              && s[0].sapling == RoundCents(PoolValue(pools, "sapling"))
              && s[0].orchard == RoundCents(PoolValue(pools, "orchard"))
              && s[0].total == RoundCents(PoolsTotal(pools))
  {
    if HasPools(result) then [PointOf(height, result.value)] else []
  }

  /**
   * Each pushed value is within half a hundredth of the value it rounds:
   * `sp`, `sa` and `or` of their pools and `v` of the three pools' sum.
   */
  lemma SampleNearPools(height: int, result: Option<Block>)
    requires HasPools(result)
    ensures var p := Sample(height, result)[0];
      var pools := result.value.valuePools.value;
      var sprout, sapling, orchard := PoolValue(pools, "sprout"), PoolValue(pools, "sapling"), PoolValue(pools, "orchard");
      && -0.005 < p.sprout - sprout <= 0.005
      && -0.005 < p.sapling - sapling <= 0.005
      && -0.005 < p.orchard - orchard <= 0.005
      && -0.005 < p.total - (sprout + sapling + orchard) <= 0.005
  {
    var pools := result.value.valuePools.value;
    RoundCentsClose(PoolValue(pools, "sprout"));
    RoundCentsClose(PoolValue(pools, "sapling"));
    RoundCentsClose(PoolValue(pools, "orchard"));
    RoundCentsClose(PoolsTotal(pools));
  }

  // ---------------------------------------------------------------------------
  // The stride loop

  /** The heights the loop visits: `currentHeight - 576`, then every 12 blocks while not past the tip. */
  function Heights(currentHeight: int): (hs: seq<int>)
    ensures |hs| == StrideCount
  {
    seq(StrideCount, k requires 0 <= k < StrideCount => currentHeight - BlocksPerDay + SampleInterval * k)
  }

  predicate Increasing(hs: seq<int>) {
    forall i, j | 0 <= i < j < |hs| :: hs[i] < hs[j]
  }

  function PointHeights(points: seq<Point>): (hs: seq<int>)
    ensures |hs| == |points|
    ensures forall k | 0 <= k < |points| :: hs[k] == points[k].height
  {
    seq(|points|, k requires 0 <= k < |points| => points[k].height)
  }

  /**
   * The schedule: the loop visits exactly the heights in
   * [currentHeight - 576, currentHeight] that are a multiple of 12 above the
   * start, in increasing order, and since 576 = 48 * 12 the last is the tip.
   */
  lemma HeightsSchedule(currentHeight: int)
    ensures Increasing(Heights(currentHeight))
    ensures Heights(currentHeight)[StrideCount - 1] == currentHeight
    ensures forall h :: h in Heights(currentHeight) <==>
              currentHeight - BlocksPerDay <= h <= currentHeight
              && (h - (currentHeight - BlocksPerDay)) % SampleInterval == 0
  {
    var hs := Heights(currentHeight);
    var start := currentHeight - BlocksPerDay;
    forall h | start <= h <= currentHeight && (h - start) % SampleInterval == 0
      ensures h in hs
    {
      var k := (h - start) / SampleInterval;
      assert hs[k] == h;
    }
  }

  /** The requests the loop sends for `hs`, in order. */
  function BlockCalls(hs: seq<int>): seq<Call> {
    seq(|hs|, k requires 0 <= k < |hs| => GetBlock("block", hs[k]))
  }

  /** Where the loop over some heights ends: thrown at index `at`, or run through with `points`. */
  datatype Scan = Aborted(message: string, at: nat) | Completed(points: seq<Point>)

  /** The loop over `hs` as a function of the node's `getblock` replies. */
  function ScanHeights(block: int -> Reply<Option<Block>>, hs: seq<int>): (r: Scan)
    ensures r.Aborted? ==>
              r.at < |hs| && block(hs[r.at]) == Threw(r.message)
              && forall k | 0 <= k < r.at :: block(hs[k]).Returned?
    ensures r.Completed? <==> forall k | 0 <= k < |hs| :: block(hs[k]).Returned?
    ensures r.Completed? ==> |r.points| <= |hs|
    decreases |hs|
  {
    if hs == [] then Completed([])
    else
      var prior := ScanHeights(block, hs[..|hs| - 1]);
      if prior.Aborted? then prior
      else
        match block(hs[|hs| - 1])
        case Threw(m) => Aborted(m, |hs| - 1)
        case Returned(result) => Completed(prior.points + Sample(hs[|hs| - 1], result))
  }

  /** One more height that returns: the loop's points grow by what that reply adds. */
  lemma ScanStep(block: int -> Reply<Option<Block>>, hs: seq<int>, i: nat)
    requires i < |hs|
    requires ScanHeights(block, hs[..i]).Completed?
    requires block(hs[i]).Returned?
    ensures ScanHeights(block, hs[..i + 1])
            == Completed(ScanHeights(block, hs[..i]).points + Sample(hs[i], block(hs[i]).result))
  {
    assert hs[..i + 1][..i] == hs[..i];
  }

  /** Once a height throws, the loop over any longer prefix ends in that same throw. */
  lemma {:induction false} ScanStaysAborted(block: int -> Reply<Option<Block>>, hs: seq<int>, i: nat, n: nat)
    requires i < n <= |hs|
    requires ScanHeights(block, hs[..i]).Completed?
    requires block(hs[i]).Threw?
    ensures ScanHeights(block, hs[..n]) == Aborted(block(hs[i]).message, i)
    decreases n
  {
    assert hs[..n][..n - 1] == hs[..n - 1];
    if n == i + 1 {
      assert hs[..n][..i] == hs[..i];
    } else {
      ScanStaysAborted(block, hs, i, n - 1);
    }
  }

  /** The points of a completed scan are in the order of `hs` and each comes from a height of `hs` with pool data. */
  lemma {:induction false} ScanPointsFromHeights(block: int -> Reply<Option<Block>>, hs: seq<int>)
    requires ScanHeights(block, hs).Completed?
    ensures var ps := ScanHeights(block, hs).points;
      forall k | 0 <= k < |ps| ::
        ps[k].height in hs && HasPools(block(ps[k].height).result)
    ensures Increasing(hs) ==> Increasing(PointHeights(ScanHeights(block, hs).points))
    decreases |hs|
  {
    if hs != [] {
      var init := hs[..|hs| - 1];
      var last := hs[|hs| - 1];
      ScanPointsFromHeights(block, init);
      var ps := ScanHeights(block, hs).points;
      var prior := ScanHeights(block, init).points;
      assert ps == prior + Sample(last, block(last).result);
      forall k | 0 <= k < |ps|
        ensures ps[k].height in hs && HasPools(block(ps[k].height).result)
      {
        if k < |prior| {
          assert ps[k] == prior[k];
          assert prior[k].height in init;
        } else {
          assert ps[k].height == last;
        }
      }
      if Increasing(hs) {
        assert Increasing(init);
        forall i, j | 0 <= i < j < |ps| ensures ps[i].height < ps[j].height {
          if j >= |prior| {
            assert ps[i] == prior[i];
            assert prior[i].height in init;
            var m :| 0 <= m < |init| && init[m] == prior[i].height;
            assert hs[m] < hs[|hs| - 1];
          } else {
            assert ps[i] == prior[i] && ps[j] == prior[j];
            assert PointHeights(prior)[i] < PointHeights(prior)[j];
          }
        }
      }
    }
  }

  /** Every height of `hs` with pool data gives a point of a completed scan. */
  lemma {:induction false} ScanKeepsEveryPoolHeight(block: int -> Reply<Option<Block>>, hs: seq<int>, h: int)
    requires ScanHeights(block, hs).Completed?
    requires h in hs && HasPools(block(h).result)
    ensures exists k | 0 <= k < |ScanHeights(block, hs).points| :: ScanHeights(block, hs).points[k].height == h
    decreases |hs|
  {
    var init := hs[..|hs| - 1];
    var last := hs[|hs| - 1];
    var ps := ScanHeights(block, hs).points;
    var prior := ScanHeights(block, init).points;
    assert ps == prior + Sample(last, block(last).result);
    if h == last {
      assert ps[|ps| - 1].height == h;
    } else {
      assert h in init;
      ScanKeepsEveryPoolHeight(block, init, h);
      var k :| 0 <= k < |prior| && prior[k].height == h;
      assert ps[k] == prior[k];
    }
  }

  /** The requests for one more height are those before it and then its own. */
  lemma BlockCallsStep(hs: seq<int>, i: nat)
    requires i < |hs|
    ensures BlockCalls(hs[..i + 1]) == BlockCalls(hs[..i]) + [GetBlock("block", hs[i])]
  {
  }

  /** A throw at the `i`-th stride height, after `i` heights that returned, is how the whole loop ends. */
  lemma StrideAbortsAt(block: int -> Reply<Option<Block>>, currentHeight: int, i: nat)
    requires i < StrideCount
    requires ScanHeights(block, Heights(currentHeight)[..i]).Completed?
    requires block(Heights(currentHeight)[i]).Threw?
    ensures ScanHeights(block, Heights(currentHeight)) == Aborted(block(Heights(currentHeight)[i]).message, i)
  {
    var hs := Heights(currentHeight);
    ScanStaysAborted(block, hs, i, StrideCount);
    assert hs[..StrideCount] == hs;
  }

  /** When the last height has pool data, a completed scan ends with its point; otherwise it is the scan of the heights before it. */
  lemma ScanLast(block: int -> Reply<Option<Block>>, hs: seq<int>)
    requires hs != [] && ScanHeights(block, hs).Completed?
    ensures var ps := ScanHeights(block, hs).points;
      if HasPools(block(hs[|hs| - 1]).result) then ps != [] && ps[|ps| - 1].height == hs[|hs| - 1]
      else ScanHeights(block, hs[..|hs| - 1]) == ScanHeights(block, hs)
  {
  }

  // ---------------------------------------------------------------------------
  // The whole series

  /** Whether the tip is fetched again: the series is empty or does not end at the tip. */
  function NeedsTip(points: seq<Point>, currentHeight: int): (b: bool)
    ensures Increasing(PointHeights(points)) && (forall k | 0 <= k < |points| :: points[k].height <= currentHeight) ==>
              (b <==> forall k | 0 <= k < |points| :: points[k].height != currentHeight)
  {
    points == [] || points[|points| - 1].height != currentHeight
  }

  /** What the function produces once the tip height is known. */
  datatype Outcome = Failed(message: string) | Sampled(points: seq<Point>)

  function SeriesAt(node: Node, currentHeight: int): (o: Outcome)
    ensures var scan := ScanHeights(node.block, Heights(currentHeight));
      o.Failed? <==>
        scan.Aborted? || (NeedsTip(scan.points, currentHeight) && node.latest(currentHeight).Threw?)
    ensures var scan := ScanHeights(node.block, Heights(currentHeight));
      o.Sampled? ==>
        var ps := scan.points;
        && |ps| <= |o.points| <= |ps| + 1 && o.points[..|ps|] == ps
        && (|o.points| > |ps| ==> o.points[|ps|].height == currentHeight)
  {
    match ScanHeights(node.block, Heights(currentHeight))
    case Aborted(m, _) => Failed(m)
    case Completed(ps) =>
      if !NeedsTip(ps, currentHeight) then Sampled(ps)
      else
        match node.latest(currentHeight)
        case Threw(m) => Failed(m)
        case Returned(result) => Sampled(ps + Sample(currentHeight, result))
  }

  /** The requests the loop over `hs` sends: up to the height that threw, or all of them. */
  function LoopCalls(hs: seq<int>, scan: Scan): seq<Call>
    requires scan.Aborted? ==> scan.at < |hs|
  {
    match scan
    case Aborted(_, at) => BlockCalls(hs[..at + 1])
    case Completed(_) => BlockCalls(hs)
  }

  /** The requests sent once the tip height is known. */
  function CallsAt(node: Node, currentHeight: int): seq<Call> {
    var hs := Heights(currentHeight);
    var scan := ScanHeights(node.block, hs);
    LoopCalls(hs, scan)
    + if scan.Completed? && NeedsTip(scan.points, currentHeight) then [GetBlock("latest", currentHeight)] else []
  }

  /** Every point lies in the day's window [currentHeight - 576, currentHeight]. */
  predicate InWindow(points: seq<Point>, currentHeight: int) {
    forall k | 0 <= k < |points| :: currentHeight - BlocksPerDay <= points[k].height <= currentHeight
  }

  /**
   * The series is ordered by height with no height twice, lies in
   * [currentHeight - 576, currentHeight], every height is on the stride
   * schedule, and it has at most 49 points.
   */
  lemma SeriesOrderedAndBounded(node: Node, currentHeight: int)
    requires SeriesAt(node, currentHeight).Sampled?
    ensures var ps := SeriesAt(node, currentHeight).points;
      && Increasing(PointHeights(ps))
      && |ps| <= StrideCount
      && InWindow(ps, currentHeight)
      && forall k | 0 <= k < |ps| :: ps[k].height in Heights(currentHeight)
  {
    var hs := Heights(currentHeight);
    HeightsSchedule(currentHeight);
    var scanned := ScanHeights(node.block, hs).points;
    ScanPointsFromHeights(node.block, hs);
    if NeedsTip(scanned, currentHeight) {
      ScanShortOfTip(node.block, currentHeight);
      var tip := Sample(currentHeight, node.latest(currentHeight).result);
      assert SeriesAt(node, currentHeight).points == scanned + tip;
      AppendTip(scanned, tip, currentHeight);
      var ps := scanned + tip;
      forall k | 0 <= k < |ps| ensures ps[k].height in hs {
        if k >= |scanned| {
          assert ps[k].height == hs[StrideCount - 1];
        } else {
          assert ps[k] == scanned[k];
        }
      }
    }
  }

  /** A completed loop that stops short of the tip has no point at the tip and fewer than 49 points. */
  lemma ScanShortOfTip(block: int -> Reply<Option<Block>>, currentHeight: int)
    requires ScanHeights(block, Heights(currentHeight)).Completed?
    requires NeedsTip(ScanHeights(block, Heights(currentHeight)).points, currentHeight)
    ensures var scanned := ScanHeights(block, Heights(currentHeight)).points;
      && |scanned| < StrideCount
      && forall k | 0 <= k < |scanned| :: scanned[k].height < currentHeight
  {
    var hs := Heights(currentHeight);
    HeightsSchedule(currentHeight);
    var scanned := ScanHeights(block, hs).points;
    ScanPointsFromHeights(block, hs);
    assert forall k | 0 <= k < |scanned| :: scanned[k].height <= currentHeight;
    ScanLast(block, hs);
    assert ScanHeights(block, hs[..StrideCount - 1]).points == scanned;
  }

  /** Appending at most one point at the tip to points below it keeps the heights increasing. */
  lemma AppendTip(scanned: seq<Point>, tip: seq<Point>, currentHeight: int)
    requires Increasing(PointHeights(scanned)) && |tip| <= 1
    requires forall k | 0 <= k < |scanned| :: scanned[k].height < currentHeight
    requires forall k | 0 <= k < |tip| :: tip[k].height == currentHeight
    ensures Increasing(PointHeights(scanned + tip))
  {
    var ps := scanned + tip;
    forall i, j | 0 <= i < j < |ps| ensures PointHeights(ps)[i] < PointHeights(ps)[j] {
      assert ps[i] == scanned[i];
      if j < |scanned| {
        assert PointHeights(scanned)[i] < PointHeights(scanned)[j];
      }
    }
  }

  /** No height with pool data in the window is left out of the series. */
  lemma SeriesKeepsEveryPoolHeight(node: Node, currentHeight: int, h: int)
    requires SeriesAt(node, currentHeight).Sampled?
    requires h in Heights(currentHeight) && HasPools(node.block(h).result)
    ensures exists k | 0 <= k < |SeriesAt(node, currentHeight).points| :: SeriesAt(node, currentHeight).points[k].height == h
  {
    var hs := Heights(currentHeight);
    ScanKeepsEveryPoolHeight(node.block, hs, h);
    var scanned := ScanHeights(node.block, hs).points;
    var k :| 0 <= k < |scanned| && scanned[k].height == h;
    assert SeriesAt(node, currentHeight).points[k] == scanned[k];
  }

  /**
   * The series ends at the tip exactly when the tip block, or the tip
   * refetch that follows it, has pool data; otherwise the function still
   * succeeds with a series that stops short of the tip.
   */
  lemma SeriesEndsAtTipIff(node: Node, currentHeight: int)
    requires SeriesAt(node, currentHeight).Sampled?
    ensures var ps := SeriesAt(node, currentHeight).points;
      (ps != [] && ps[|ps| - 1].height == currentHeight) <==>
        HasPools(node.block(currentHeight).result)
        || (node.latest(currentHeight).Returned? && HasPools(node.latest(currentHeight).result))
  {
    var hs := Heights(currentHeight);
    HeightsSchedule(currentHeight);
    ScanLast(node.block, hs);
    var scanned := ScanHeights(node.block, hs).points;
    if !HasPools(node.block(currentHeight).result) {
      // The loop's points then all come from the heights before the tip.
      var init := hs[..StrideCount - 1];
      assert ScanHeights(node.block, init) == ScanHeights(node.block, hs);
      ScanPointsFromHeights(node.block, init);
      if scanned != [] {
        assert scanned[|scanned| - 1].height in init;
        var m :| 0 <= m < |init| && init[m] == scanned[|scanned| - 1].height;
        assert hs[m] < hs[StrideCount - 1];
      }
      assert NeedsTip(scanned, currentHeight);
    }
  }

  /**
   * With a node that answers the tip refetch as it answered the loop, the
   * refetch never adds a point: the series is exactly the loop's points.
   */
  lemma StableNodeAddsNoTipPoint(node: Node, currentHeight: int)
    requires node.latest(currentHeight) == node.block(currentHeight)
    requires SeriesAt(node, currentHeight).Sampled?
    ensures SeriesAt(node, currentHeight) == Sampled(ScanHeights(node.block, Heights(currentHeight)).points)
  {
    var hs := Heights(currentHeight);
    HeightsSchedule(currentHeight);
    ScanLast(node.block, hs);
  }

  /** A successful series was preceded by one `getblock` request per stride height, in order. */
  lemma SampledCallsStartWithStride(node: Node, currentHeight: int)
    requires SeriesAt(node, currentHeight).Sampled?
    ensures |CallsAt(node, currentHeight)| >= StrideCount
    ensures CallsAt(node, currentHeight)[..StrideCount] == BlockCalls(Heights(currentHeight))
  {
    var hs := Heights(currentHeight);
    assert LoopCalls(hs, ScanHeights(node.block, hs)) == BlockCalls(hs);
  }

  // ---------------------------------------------------------------------------
  // The handler

  /**
   * The `for` loop of the handler: it sends `getblock` for each stride height
   * and pushes a point for each reply with pool data. A throwing round trip
   * leaves the loop (and, in the handler, reaches the `catch`).
   */
  method StrideLoop(block: int -> Reply<Option<Block>>, currentHeight: int) returns (scan: Scan, calls: seq<Call>)
    ensures scan == ScanHeights(block, Heights(currentHeight))
    ensures calls == LoopCalls(Heights(currentHeight), scan)
  {
    var hs := Heights(currentHeight);
    var startBlock := currentHeight - BlocksPerDay;
    var dataPoints: seq<Point> := [];
    var height := startBlock;
    calls := [];
    ghost var visited: nat := 0;
    while height <= currentHeight
      invariant visited <= StrideCount
      invariant height == startBlock + SampleInterval * visited
      invariant ScanHeights(block, hs[..visited]) == Completed(dataPoints)
      invariant calls == BlockCalls(hs[..visited])
      decreases currentHeight - height
    {
      assert hs[visited] == height;
      BlockCallsStep(hs, visited);
      calls := calls + [GetBlock("block", height)];
      var blockData := block(height);
      if blockData.Threw? {
        StrideAbortsAt(block, currentHeight, visited);
        var at := (height - startBlock) / SampleInterval;
        assert at == visited;
        scan := Aborted(blockData.message, at);
        return;
      }
      ScanStep(block, hs, visited);
      if HasPools(blockData.result) {
        dataPoints := dataPoints + [PointOf(height, blockData.result.value)];
      }
      assert ScanHeights(block, hs[..visited + 1]) == Completed(dataPoints);
      height := height + SampleInterval;
      visited := visited + 1;
    }
    assert hs[..visited] == hs;
    scan := Completed(dataPoints);
  }

  /**
   * `exports.handler`. `rpcUrl` is ZCASH_RPC_URL and `fetchedAt` the clock
   * reading put in the reply; `calls` lists the requests sent to the node.
   */
  method Handler(rpcUrl: Option<string>, node: Node, fetchedAt: string) returns (response: Response, calls: seq<Call>)
    ensures !Configured(rpcUrl) ==> response == Response(500, ErrorHeaders, ConfigError(NotConfigured)) && calls == []
    ensures Configured(rpcUrl) && node.blockCount.Threw? ==>
              response == FailureResponse(node.blockCount.message) && calls == [GetBlockCount]
    ensures Configured(rpcUrl) && node.blockCount.Returned? ==>
              var currentHeight := node.blockCount.result;
              calls == [GetBlockCount] + CallsAt(node, currentHeight)
              && match SeriesAt(node, currentHeight)
                 case Failed(m) => response == FailureResponse(m)
                 case Sampled(ps) => response == SeriesResponse(ps, currentHeight, fetchedAt)
    ensures response.status == 200 || response.status == 500
    ensures response.status == 200 ==>
              var currentHeight := response.body.latestBlock;
              var ps := response.body.data;
              && response.body.Series?
              && Increasing(PointHeights(ps))
              && |ps| <= StrideCount
              && InWindow(ps, currentHeight)
              && calls[..StrideCount + 1] == [GetBlockCount] + BlockCalls(Heights(currentHeight))
  {
    calls := [];
    if !Configured(rpcUrl) {
      response := Response(500, ErrorHeaders, ConfigError(NotConfigured));
      return;
    }
    calls := [GetBlockCount];
    if node.blockCount.Threw? {
      response := FailureResponse(node.blockCount.message);
      return;
    }
    var currentHeight := node.blockCount.result;
    var scan, loopCalls := StrideLoop(node.block, currentHeight);
    calls := calls + loopCalls;
    if scan.Aborted? {
      assert CallsAt(node, currentHeight) == loopCalls;
      response := FailureResponse(scan.message);
      return;
    }
    var dataPoints := scan.points;
    if dataPoints == [] || dataPoints[|dataPoints| - 1].height != currentHeight {
      calls := calls + [GetBlock("latest", currentHeight)];
      var latestData := node.latest(currentHeight);
      if latestData.Threw? {
        assert CallsAt(node, currentHeight) == loopCalls + [GetBlock("latest", currentHeight)];
        response := FailureResponse(latestData.message);
        return;
      }
      if HasPools(latestData.result) {
        dataPoints := dataPoints + [PointOf(currentHeight, latestData.result.value)];
      }
    }
    assert SeriesAt(node, currentHeight) == Sampled(dataPoints);
    SeriesOrderedAndBounded(node, currentHeight);
    SampledCallsStartWithStride(node, currentHeight);
    assert calls[..StrideCount + 1] == [GetBlockCount] + CallsAt(node, currentHeight)[..StrideCount];
    response := SeriesResponse(dataPoints, currentHeight, fetchedAt);
  }
}
