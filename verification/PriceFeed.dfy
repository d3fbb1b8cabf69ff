/** Price validation and aggregation: staleness, the median, anomalies, and the four ways to combine prices. */
module PriceFeed {
  import opened Wrappers
  import opened Checked
  import opened Host

  datatype Status = Fresh | Stale | Anomalous | Fallback | Unknown
  datatype Method = Median | Latest | Twap | WeightedAverage

  datatype Point = Point(asset: Symbol, provider: Symbol, price: i128, timestamp: u64, confidence: nat, status: Status)

  datatype Config = Config(maxDeviation: i128, ttl: u64)

  datatype Aggregate = Aggregate(price: int, timestamp: u64, sources: nat, how: Method, status: Status)
  datatype Cached = Cached(aggregate: Aggregate, cachedAt: u64, ttl: u64)

  /** A division whose quotient does not fit panics in every build. */
  datatype Error = NoPriceData | Panicked

  // ---------------------------------------------------------------------------------------------
  // Staleness and the median
  // ---------------------------------------------------------------------------------------------

  function SaturatingSub(a: u64, b: u64): u64 {
    if a >= b then a - b else 0
  }

  predicate IsStale(p: Point, now: u64, ttl: u64) {
    now == 0 || p.timestamp == 0 || SaturatingSub(now, p.timestamp) > ttl
  }

  function FilterStale(points: seq<Point>, now: u64, ttl: u64): seq<Point> {
    if points == [] then []
    else
      FilterStale(points[..|points| - 1], now, ttl)
      + if IsStale(points[|points| - 1], now, ttl) then [] else [points[|points| - 1]]
  }

  function Prices(points: seq<Point>): (r: seq<i128>)
    ensures |r| == |points| && forall i :: 0 <= i < |points| ==> r[i] == points[i].price
  {
    if points == [] then [] else Prices(points[..|points| - 1]) + [points[|points| - 1].price]
  }

  /** Insert before the first greater element. */
  function Insert(arr: seq<i128>, p: i128): seq<i128> {
    if arr == [] then [p]
    else if p < arr[0] then [p] + arr
    else [arr[0]] + Insert(arr[1..], p)
  }

  function Sort(prices: seq<i128>): seq<i128> {
    if prices == [] then [] else Insert(Sort(prices[..|prices| - 1]), prices[|prices| - 1])
  }

  /** The middle of a sorted sequence: the middle element, or half the wrapped sum of the two in the middle. */
  function Middle(sorted: seq<i128>): i128
    requires sorted != []
  {
    var n := |sorted|;
    if n % 2 == 1 then sorted[n / 2]
    else
      var below: int, above: int := sorted[n / 2 - 1], sorted[n / 2];
      TruncDiv(WrapI128(below + above), 2)
  }

  function MedianOf(points: seq<Point>): Option<i128> {
    if points == [] || Sort(Prices(points)) == [] then None else Some(Middle(Sort(Prices(points))))
  }

  // ---------------------------------------------------------------------------------------------
  // Anomalies
  // ---------------------------------------------------------------------------------------------

  /** The distance from the median, scaled to basis points; every step wraps around. */
  function ScaledDistance(price: i128, median: i128): i128 {
    WrapI128(WrapI128(Abs(WrapI128(price - median))) * 10000)
  }

  function IsAnomalous(price: i128, median: i128, maxDeviation: i128): Result<bool, Error> {
    if median == 0 then Ok(false)
    else
      var deviation :- CheckedDiv(ScaledDistance(price, median), median, Panicked);
      Ok(deviation > maxDeviation)
  }

  function Flag(p: Point, median: i128, maxDeviation: i128): Result<Point, Error> {
    var anomalous :- IsAnomalous(p.price, median, maxDeviation);
    Ok(if anomalous then p.(status := Anomalous) else p)
  }

  function FlagAll(points: seq<Point>, median: i128, maxDeviation: i128): Result<seq<Point>, Error> {
    if points == [] then Ok([])
    else
      var before :- FlagAll(points[..|points| - 1], median, maxDeviation);
      var last :- Flag(points[|points| - 1], median, maxDeviation);
      Ok(before + [last])
  }

  /** The fresh points, the anomalous ones among them flagged. */
  function Validate(points: seq<Point>, now: u64, c: Config): Result<seq<Point>, Error> {
    var recent := FilterStale(points, now, c.ttl);
    var median := MedianOf(recent);
    if median.None? then Ok(recent) else FlagAll(recent, median.value, c.maxDeviation)
  }

  function NonAnomalous(points: seq<Point>): seq<Point> {
    if points == [] then []
    else
      var last := points[|points| - 1];
      NonAnomalous(points[..|points| - 1]) + if last.status != Anomalous then [last] else []
  }

  // ---------------------------------------------------------------------------------------------
  // Aggregation
  // ---------------------------------------------------------------------------------------------

  /** The most recent observation so far, ties going to the later one. */
  datatype Newest = Newest(price: int, timestamp: u64)

  function LatestOf(points: seq<Point>): Newest {
    if points == [] then Newest(0, 0)
    else
      var before, last := LatestOf(points[..|points| - 1]), points[|points| - 1];
      if last.timestamp >= before.timestamp then Newest(last.price, last.timestamp) else before
  }

  /** Recent observations weigh more; those older than a million seconds weigh nothing. */
  function RecencyWeight(p: Point, now: u64): int {
    Max(0, 1000000 - SaturatingSub(now, p.timestamp))
  }

  function TrustWeight(p: Point, trust: map<Symbol, u32>): int {
    if p.provider in trust then trust[p.provider] else 1000
  }

  function Weight(p: Point, now: u64, trust: map<Symbol, u32>, m: Method): int {
    match m
    case Twap => RecencyWeight(p, now)
    case WeightedAverage => TrustWeight(p, trust)
    case _ => 0
  }

  /** A list is shorter than 2^32 and a weight below 2^32, so this sum is far from wrapping. */
  function TotalWeight(points: seq<Point>, now: u64, trust: map<Symbol, u32>, m: Method): int {
    if points == [] then 0
    else TotalWeight(points[..|points| - 1], now, trust, m) + Weight(points[|points| - 1], now, trust, m)
  }

  /** The products and their sum wrap around. */
  function WeightedSum(points: seq<Point>, now: u64, trust: map<Symbol, u32>, m: Method): i128 {
    if points == [] then 0
    else
      var before, last := WeightedSum(points[..|points| - 1], now, trust, m), points[|points| - 1];
      WrapI128(before + WrapI128(last.price * Weight(last, now, trust, m)))
  }

  function Average(points: seq<Point>, now: u64, trust: map<Symbol, u32>, m: Method): int {
    var total := TotalWeight(points, now, trust, m);
    if total > 0 then TruncDiv(WeightedSum(points, now, trust, m), total) else 0
  }

  function Rank(s: Status): nat {
    match s
    case Fresh => 0
    case Fallback => 1
    case Stale => 2
    case Anomalous => 3
    case Unknown => 4
  }

  /** The worst status: the one of highest rank, Fresh when there is none. */
  function WorstStatus(points: seq<Point>): Status {
    if points == [] then Fresh
    else
      var before, last := WorstStatus(points[..|points| - 1]), points[|points| - 1].status;
      if Rank(last) > Rank(before) then last else before
  }

  function Combined(points: seq<Point>, now: u64, trust: map<Symbol, u32>, m: Method): int {
    match m
    case Median => MedianOf(points).GetOr(0)
    case Latest => LatestOf(points).price
    case _ => Average(points, now, trust, m)
  }

  function AggregateOf(points: seq<Point>, now: u64, trust: map<Symbol, u32>, m: Method): Aggregate {
    if points == [] then Aggregate(0, now, 0, m, Unknown)
    else Aggregate(Combined(points, now, trust, m), now, |points|, m, WorstStatus(points))
  }

  // ---------------------------------------------------------------------------------------------
  // Resolution
  // ---------------------------------------------------------------------------------------------

  /** A cached price is served for twice its time to live; the doubling wraps around. */
  predicate Serves(c: Cached, now: u64) {
    SaturatingSub(now, c.cachedAt) <= WrappingAdd(c.ttl, c.ttl)
  }

  /** A price comes from the cache, else from the oracles, else from the fallback. */
  function Resolve(cached: Option<Cached>, points: seq<Point>, fallback: Option<int>, now: u64, c: Config,
                   trust: map<Symbol, u32>, m: Method): Result<Aggregate, Error>
  {
    if cached.Some? && Serves(cached.value, now) then Ok(cached.value.aggregate)
    else
      var valid :- Validate(points, now, c);
      var usable := NonAnomalous(valid);
      if usable != [] then Ok(AggregateOf(usable, now, trust, m))
      else if fallback.Some? then Ok(Aggregate(fallback.value, now, 0, Latest, Fallback))
      else Err(NoPriceData)
  }
}
