/** The loops that filter, sort and aggregate oracle prices. */
module PriceFeedContract {
  import opened Wrappers
  import opened Checked
  import opened Host
  import opened PriceFeed
  import opened PriceFeedLaws

  method KeepRecent(points: seq<Point>, now: u64, ttl: u64) returns (out: seq<Point>)
    ensures out == FilterStale(points, now, ttl)
  {
    out := [];
    for i := 0 to |points|
      invariant out == FilterStale(points[..i], now, ttl)
    {
      assert points[..i + 1][..i] == points[..i];
      if !IsStale(points[i], now, ttl) {
        out := out + [points[i]];
      }
    }
    assert points[..|points|] == points;
  }

  /** Position i splits a sorted sequence for p: what comes before is not greater, what comes at i is. */
  lemma {:induction false} InsertAt(arr: seq<i128>, p: i128, i: nat)
    requires i <= |arr| && (forall k :: 0 <= k < i ==> arr[k] <= p) && (i < |arr| ==> p < arr[i])
    ensures Insert(arr, p) == arr[..i] + [p] + arr[i..]
  {
    if i > 0 {
      InsertAt(arr[1..], p, i - 1);
    }
  }

  /** Rebuild the sorted sequence with p before the first greater element. */
  method InsertSorted(arr: seq<i128>, p: i128) returns (r: seq<i128>)
    ensures r == Insert(arr, p)
  {
    hide Insert;
    var i := 0;
    while i < |arr| && p >= arr[i]
      invariant i <= |arr| && forall k :: 0 <= k < i ==> arr[k] <= p
    {
      i := i + 1;
    }
    InsertAt(arr, p, i);
    r := [];
    var j := 0;
    while j < i
      invariant j <= i && r == arr[..j]
    {
      assert arr[..j + 1] == arr[..j] + [arr[j]];
      r := r + [arr[j]];
      j := j + 1;
    }
    r := r + [p];
    assert arr[i..i] == [];
    while j < |arr|
      invariant i <= j <= |arr| && r == arr[..i] + [p] + arr[i..j]
    {
      assert arr[i..j + 1] == arr[i..j] + [arr[j]];
      r := r + [arr[j]];
      j := j + 1;
    }
    assert arr[i..|arr|] == arr[i..];
  }

  lemma SortSnoc(points: seq<Point>, p: Point)
    ensures Sort(Prices(points + [p])) == Insert(Sort(Prices(points)), p.price)
  {
    hide Insert;
    assert (points + [p])[..|points|] == points;
    assert Prices(points + [p])[..|points|] == Prices(points);
  }

  method SortPrices(points: seq<Point>) returns (arr: seq<i128>)
    ensures arr == Sort(Prices(points))
  {
    arr := [];
    assert Sort(Prices(points[..0])) == [];
    hide Sort, Prices, Insert;
    for i := 0 to |points|
      invariant arr == Sort(Prices(points[..i]))
    {
      assert points[..i + 1] == points[..i] + [points[i]];
      SortSnoc(points[..i], points[i]);
      arr := InsertSorted(arr, points[i].price);
    }
    assert points[..|points|] == points;
  }

  method CalculateMedian(points: seq<Point>) returns (median: Option<i128>)
    ensures median == MedianOf(points)
  {
    hide Sort, Prices;
    if points == [] {
      return None;
    }
    var arr := SortPrices(points);
    var n := |arr|;
    if n == 0 {
      return None;
    }
    if n % 2 == 1 {
      return Some(arr[n / 2]);
    }
    var below: int, above: int := arr[n / 2 - 1], arr[n / 2];
    return Some(TruncDiv(WrapI128(below + above), 2));
  }

  method FlagsAnomalous(price: i128, median: i128, maxDeviation: i128) returns (r: Result<bool, Error>)
    ensures r == IsAnomalous(price, median, maxDeviation)
  {
    if median == 0 {
      return Ok(false);
    }
    var diff: int := WrapI128(price - median);
    if diff < 0 {
      diff := WrapI128(-diff);
    }
    var deviation :- CheckedDiv(WrapI128(diff * 10000), median, Panicked);
    return Ok(deviation > maxDeviation);
  }

  /** A panic while flagging a later point undoes everything, as one while flagging this point. */
  lemma {:induction false} FlagAllFails(points: seq<Point>, n: nat, median: i128, maxDeviation: i128)
    requires n <= |points| && FlagAll(points[..n], median, maxDeviation).Err?
    ensures FlagAll(points, median, maxDeviation) == Err(Panicked)
    decreases |points|
  {
    var m := |points| - 1;
    hide CheckedDiv;
    if n == |points| {
      assert points[..n] == points;
      if FlagAll(points[..m], median, maxDeviation).Err? {
        FlagAllFails(points[..m], m, median, maxDeviation) by {
          assert points[..m][..m] == points[..m];
        }
      } else {
        AlwaysPanicked(points[m].price, median, maxDeviation);
      }
    } else {
      assert points[..m][..n] == points[..n];
      FlagAllFails(points[..m], n, median, maxDeviation);
    }
  }

  lemma AlwaysPanicked(price: i128, median: i128, maxDeviation: i128)
    ensures IsAnomalous(price, median, maxDeviation).Err? ==> IsAnomalous(price, median, maxDeviation) == Err(Panicked)
  {
  }

  method ValidatePrices(points: seq<Point>, now: u64, c: Config) returns (r: Result<seq<Point>, Error>)
    ensures r == Validate(points, now, c)
  {
    hide MedianOf, FilterStale, IsAnomalous;
    var recent := KeepRecent(points, now, c.ttl);
    var median := CalculateMedian(recent);
    if median.None? {
      return Ok(recent);
    }
    var valid := [];
    for i := 0 to |recent|
      invariant FlagAll(recent[..i], median.value, c.maxDeviation) == Ok(valid)
    {
      assert recent[..i + 1][..i] == recent[..i];
      var p := recent[i];
      var anomalous := FlagsAnomalous(p.price, median.value, c.maxDeviation);
      if anomalous.Err? {
        AlwaysPanicked(p.price, median.value, c.maxDeviation);
        FlagAllFails(recent, i + 1, median.value, c.maxDeviation);
        return Err(anomalous.error);
      }
      if anomalous.value {
        p := p.(status := Anomalous);
      }
      valid := valid + [p];
    }
    assert recent[..|recent|] == recent;
    return Ok(valid);
  }

  method AggregateLatest(points: seq<Point>) returns (price: int)
    ensures price == LatestOf(points).price
  {
    var latestTs: u64 := 0;
    price := 0;
    for i := 0 to |points|
      invariant Newest(price, latestTs) == LatestOf(points[..i])
    {
      assert points[..i + 1][..i] == points[..i];
      if points[i].timestamp >= latestTs {
        latestTs, price := points[i].timestamp, points[i].price;
      }
    }
    assert points[..|points|] == points;
  }

  method AggregateTwap(points: seq<Point>, now: u64) returns (price: int)
    ensures price == Average(points, now, map[], Twap)
  {
    hide WrapI128;
    var sum: i128, total := 0, 0;
    for i := 0 to |points|
      invariant sum == WeightedSum(points[..i], now, map[], Twap)
      invariant total == TotalWeight(points[..i], now, map[], Twap)
    {
      assert points[..i + 1][..i] == points[..i];
      var weight := 1000000 - SaturatingSub(now, points[i].timestamp);
      if weight > 0 {
        sum := WrapI128(sum + WrapI128(points[i].price * weight));
        total := total + weight;
      }
    }
    assert points[..|points|] == points;
    price := if total > 0 then TruncDiv(sum, total) else 0;
  }

  method AggregateWeighted(points: seq<Point>, now: u64, trust: map<Symbol, u32>) returns (price: int)
    ensures price == Average(points, now, trust, WeightedAverage)
  {
    hide WrapI128;
    var sum: i128, total := 0, 0;
    for i := 0 to |points|
      invariant sum == WeightedSum(points[..i], now, trust, WeightedAverage)
      invariant total == TotalWeight(points[..i], now, trust, WeightedAverage)
    {
      assert points[..i + 1][..i] == points[..i];
      var weight: int := if points[i].provider in trust then trust[points[i].provider] else 1000;
      sum := WrapI128(sum + WrapI128(points[i].price * weight));
      total := total + weight;
    }
    assert points[..|points|] == points;
    price := if total > 0 then TruncDiv(sum, total) else 0;
  }

  lemma {:induction false} UnknownIsWorst(points: seq<Point>, i: nat)
    requires i < |points| && points[i].status == Unknown
    ensures WorstStatus(points) == Unknown
  {
    WorstIsWorst(points, i);
  }

  method FindWorstStatus(points: seq<Point>) returns (worst: Status)
    ensures worst == WorstStatus(points)
  {
    worst := Fresh;
    for i := 0 to |points|
      invariant worst == WorstStatus(points[..i]) && worst != Unknown
    {
      assert points[..i + 1][..i] == points[..i];
      match points[i].status
      case Unknown =>
        UnknownIsWorst(points, i);
        return Unknown;
      case Anomalous =>
        worst := Anomalous;
      case Stale =>
        if worst == Fresh || worst == Fallback {
          worst := Stale;
        }
      case Fallback =>
        if worst == Fresh {
          worst := Fallback;
        }
      case Fresh =>
    }
    assert points[..|points|] == points;
  }

  lemma {:induction false} TwapIgnoresTrust(points: seq<Point>, now: u64, trust: map<Symbol, u32>)
    ensures TotalWeight(points, now, trust, Twap) == TotalWeight(points, now, map[], Twap)
    ensures WeightedSum(points, now, trust, Twap) == WeightedSum(points, now, map[], Twap)
  {
    if points != [] {
      TwapIgnoresTrust(points[..|points| - 1], now, trust);
    }
  }

  method AggregatePrices(points: seq<Point>, now: u64, trust: map<Symbol, u32>, m: Method) returns (r: Aggregate)
    ensures r == AggregateOf(points, now, trust, m)
  {
    hide MedianOf, LatestOf, WorstStatus;
    if points == [] {
      return Aggregate(0, now, 0, m, Unknown);
    }
    var price;
    match m {
      case Median =>
        var median := CalculateMedian(points);
        price := median.GetOr(0);
      case Latest => price := AggregateLatest(points);
      case Twap =>
        TwapIgnoresTrust(points, now, trust);
        price := AggregateTwap(points, now);
      case WeightedAverage => price := AggregateWeighted(points, now, trust);
    }
    var status := FindWorstStatus(points);
    return Aggregate(price, now, |points|, m, status);
  }

  method ResolvePrice(cached: Option<Cached>, points: seq<Point>, fallback: Option<int>, now: u64, c: Config,
                      trust: map<Symbol, u32>, m: Method) returns (r: Result<Aggregate, Error>)
    ensures r == Resolve(cached, points, fallback, now, c, trust, m)
  {
    hide Validate, AggregateOf;
    if cached.Some? {
      var age := SaturatingSub(now, cached.value.cachedAt);
      if age <= WrappingAdd(cached.value.ttl, cached.value.ttl) {
        return Ok(cached.value.aggregate);
      }
    }
    var valid :- ValidatePrices(points, now, c);
    var usable := [];
    for i := 0 to |valid|
      invariant usable == NonAnomalous(valid[..i])
    {
      assert valid[..i + 1][..i] == valid[..i];
      if valid[i].status != Anomalous {
        usable := usable + [valid[i]];
      }
    }
    assert valid[..|valid|] == valid;
    if usable != [] {
      var aggregate := AggregatePrices(usable, now, trust, m);
      return Ok(aggregate);
    }
    if fallback.Some? {
      return Ok(Aggregate(fallback.value, now, 0, Latest, Fallback));
    }
    return Err(NoPriceData);
  }
}
