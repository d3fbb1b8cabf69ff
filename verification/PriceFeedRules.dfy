/** Where a resolved price comes from, how old what it rests on may be, and what weighs how much. */
module PriceFeedRules {
  import opened Wrappers
  import opened Checked
  import opened Host
  import opened PriceFeed
  import opened PriceFeedLaws

  // ---------------------------------------------------------------------------------------------
  // Resolution
  // ---------------------------------------------------------------------------------------------

  /** A cached price counts for twice its time to live, a number of 64 bits. */
  predicate CacheCounts(cached: Option<Cached>, now: u64) {
    cached.Some? && now <= cached.value.cachedAt + (2 * cached.value.ttl) % (U64_MAX + 1)
  }

  /** The points that a resolution adds up: those of the list that are usable. */
  ghost predicate RestsOn(usable: seq<Point>, points: seq<Point>, now: u64, c: Config, median: i128) {
    forall p :: p in usable <==>
      && p in points && now != 0 && p.timestamp != 0 && now <= p.timestamp + c.ttl
      && p.status != Anomalous && Keeps(p.price, median, c.maxDeviation)
  }

  /**
   A price that comes neither from the cache nor from the fallback rests on listed points, none of them older than
   the time to live, submitted as anomalous, or too far from the median of those that are not too old. It reports
   their number, the worst of their status, the method, and the present as its time.
   */
  lemma RestsOnFresh(cached: Option<Cached>, points: seq<Point>, fallback: Option<int>, now: u64, c: Config,
                     trust: map<Symbol, u32>, m: Method) returns (usable: seq<Point>)
    requires var r := Resolve(cached, points, fallback, now, c, trust, m);
             !CacheCounts(cached, now) && r.Ok? && r.value.sources > 0
    ensures var median := MedianOf(FilterStale(points, now, c.ttl));
            median.Some? && RestsOn(usable, points, now, c, median.value)
    ensures usable != [] && Resolve(cached, points, fallback, now, c, trust, m)
                            == Ok(Aggregate(Combined(usable, now, trust, m), now, |usable|, m, WorstStatus(usable)))
  {
    hide Validate, NonAnomalous, MedianOf, FilterStale, Combined, WorstStatus, RestsOn;
    usable := NonAnomalous(Validate(points, now, c).value);
    UsableAre(points, now, c);
  }

  lemma UsableAre(points: seq<Point>, now: u64, c: Config)
    requires Validate(points, now, c).Ok? && NonAnomalous(Validate(points, now, c).value) != []
    ensures var median := MedianOf(FilterStale(points, now, c.ttl));
            median.Some? && RestsOn(NonAnomalous(Validate(points, now, c).value), points, now, c, median.value)
  {
    hide Validate, NonAnomalous, MedianOf, FilterStale, Keeps;
    var usable, median := NonAnomalous(Validate(points, now, c).value), MedianOf(FilterStale(points, now, c.ttl));
    forall p
      ensures p in usable <==> p in points && median.Some? && Usable(p, now, c, median.value)
    {
      UsableExact(points, now, c, p);
    }
    assert usable[0] in usable;
  }

  /** The cache is served while it counts, and only then; the fallback is served, or the call fails for want of data,
      only when no point is usable. */
  lemma SourceIff(cached: Option<Cached>, points: seq<Point>, fallback: Option<int>, now: u64, c: Config,
                  trust: map<Symbol, u32>, m: Method)
    ensures var r := Resolve(cached, points, fallback, now, c, trust, m);
            var median := MedianOf(FilterStale(points, now, c.ttl));
            if CacheCounts(cached, now) then r == Ok(cached.value.aggregate)
            else if Validate(points, now, c).Err? then r == Err(Panicked)
            else if exists p :: p in points && median.Some? && Usable(p, now, c, median.value) then
              r.Ok? && r.value.sources > 0 && r.value.how == m
            else if fallback.Some? then r == Ok(Aggregate(fallback.value, now, 0, Latest, Fallback))
            else r == Err(NoPriceData)
  {
    var median := MedianOf(FilterStale(points, now, c.ttl));
    ValidatePanics(points, now, c);
    hide Validate, MedianOf, FilterStale, Combined, WorstStatus, Usable, NonAnomalous;
    if Validate(points, now, c).Ok? {
      var usable := NonAnomalous(Validate(points, now, c).value);
      forall p
        ensures p in usable <==> p in points && median.Some? && Usable(p, now, c, median.value)
      {
        UsableExact(points, now, c, p);
      }
      if usable != [] {
        assert usable[0] in usable;
      }
    }
  }

  lemma ValidatePanics(points: seq<Point>, now: u64, c: Config)
    ensures Validate(points, now, c).Err? ==> Validate(points, now, c) == Err(Panicked)
  {
    var recent := FilterStale(points, now, c.ttl);
    if MedianOf(recent).Some? {
      FlagPanics(recent, MedianOf(recent).value, c.maxDeviation);
    }
  }

  lemma {:induction false} FlagPanics(points: seq<Point>, median: i128, maxDeviation: i128)
    ensures FlagAll(points, median, maxDeviation).Err? ==> FlagAll(points, median, maxDeviation) == Err(Panicked)
  {
    if points != [] {
      FlagPanics(points[..|points| - 1], median, maxDeviation);
    }
  }

  // ---------------------------------------------------------------------------------------------
  // Weights and status
  // ---------------------------------------------------------------------------------------------

  /** By recency, a point and its age in seconds make up a million together, and an older one weighs nothing; by trust,
      a point weighs what its provider is trusted with, or a thousand. */
  lemma WeightsMean(p: Point, now: u64, trust: map<Symbol, u32>)
    ensures Weight(p, now, trust, Twap) >= 0
    ensures Weight(p, now, trust, Twap) == 0 <==> now >= p.timestamp + 1000000
    ensures Weight(p, now, trust, Twap) > 0 ==> Weight(p, now, trust, Twap) + Max(0, now - p.timestamp) == 1000000
    ensures p.provider in trust ==> Weight(p, now, trust, WeightedAverage) == trust[p.provider]
    ensures p.provider !in trust ==> Weight(p, now, trust, WeightedAverage) == 1000
  {
  }

  /** The weighted averages are that: the sum of price times weight over the sum of the weights, rounded down. */
  lemma AverageExact(points: seq<Point>, now: u64, trust: map<Symbol, u32>, m: Method)
    requires points != [] && Weighs(m) && Mass(points, now, trust, m) > 0
    requires 0 <= ExactSum(points, now, trust, m) <= I128_MAX
    ensures var price, mass := AggregateOf(points, now, trust, m).price, Mass(points, now, trust, m);
            price * mass <= ExactSum(points, now, trust, m) < (price + 1) * mass
  {
    hide TotalWeight, WeightedSum, ExactSum, WorstStatus, WrapI128;
    SumWraps(points, now, trust, m);
    FloorBracket(ExactSum(points, now, trust, m), TotalWeight(points, now, trust, m));
  }

  ghost predicate Has(points: seq<Point>, status: Status) {
    exists i :: 0 <= i < |points| && points[i].status == status
  }

  /** The status reported for some points is the first of Unknown, Anomalous, Stale and Fallback that one of them
      has, and Fresh if none has any. */
  lemma WorstMeans(points: seq<Point>)
    requires points != []
    ensures WorstStatus(points)
            == if Has(points, Unknown) then Unknown else if Has(points, Anomalous) then Anomalous
               else if Has(points, Stale) then Stale else if Has(points, Fallback) then Fallback else Fresh
  {
    hide WorstStatus;
    forall i | 0 <= i < |points|
      ensures Rank(points[i].status) <= Rank(WorstStatus(points))
    {
      WorstIsWorst(points, i);
    }
    WorstIsWorst(points, 0);
  }
}
