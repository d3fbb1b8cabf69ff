/** The median is correct and robust, and every aggregate stays within the prices it combines. */
module PriceFeedLaws {
  import opened Wrappers
  import opened Checked
  import opened Host
  import opened PriceFeed

  // ---------------------------------------------------------------------------------------------
  // Sorting
  // ---------------------------------------------------------------------------------------------

  ghost predicate Sorted(s: seq<int>) {
    forall i, j :: 0 <= i < j < |s| ==> s[i] <= s[j]
  }

  lemma {:induction false} InsertMember(arr: seq<i128>, p: i128)
    ensures forall x :: x in Insert(arr, p) ==> x in arr || x == p
  {
    if arr != [] && p >= arr[0] {
      InsertMember(arr[1..], p);
    }
  }

  lemma ConsSorted(x: int, s: seq<int>)
    requires Sorted(s) && forall y :: y in s ==> x <= y
    ensures Sorted([x] + s)
  {
    forall i, j | 0 <= i < j < |s| + 1
      ensures ([x] + s)[i] <= ([x] + s)[j]
    {
      assert s[j - 1] in s;
    }
  }

  lemma SortedTail(arr: seq<int>)
    requires Sorted(arr) && arr != []
    ensures Sorted(arr[1..]) && forall y :: y in arr[1..] ==> arr[0] <= y
  {
  }

  lemma {:induction false} InsertSorted(arr: seq<i128>, p: i128)
    requires Sorted(arr)
    ensures Sorted(Insert(arr, p))
  {
    if arr != [] && p < arr[0] {
      SortedTail(arr);
      assert arr == [arr[0]] + arr[1..];
      ConsSorted(p, arr);
    } else if arr != [] {
      SortedTail(arr);
      InsertSorted(arr[1..], p);
      InsertMember(arr[1..], p);
      ConsSorted(arr[0], Insert(arr[1..], p));
    }
  }

  lemma {:induction false} InsertPermutes(arr: seq<i128>, p: i128)
    ensures multiset(Insert(arr, p)) == multiset(arr) + multiset{p} && |Insert(arr, p)| == |arr| + 1
  {
    if arr != [] && p >= arr[0] {
      InsertPermutes(arr[1..], p);
      assert arr == [arr[0]] + arr[1..];
    }
  }

  /** The insertion loop yields a sorted permutation of the prices. */
  lemma {:induction false} SortedPermutation(prices: seq<i128>)
    ensures Sorted(Sort(prices)) && multiset(Sort(prices)) == multiset(prices) && |Sort(prices)| == |prices|
  {
    if prices != [] {
      var init := prices[..|prices| - 1];
      SortedPermutation(init);
      InsertSorted(Sort(init), prices[|prices| - 1]);
      InsertPermutes(Sort(init), prices[|prices| - 1]);
      assert prices == init + [prices[|prices| - 1]];
    }
  }

  // ---------------------------------------------------------------------------------------------
  // Robustness
  // ---------------------------------------------------------------------------------------------

  predicate Within(x: int, a: int, b: int) {
    a <= x <= b
  }

  /** How many of the values lie in [a, b]. */
  function CountIn(s: seq<int>, a: int, b: int): nat {
    if s == [] then 0 else CountIn(s[..|s| - 1], a, b) + if Within(s[|s| - 1], a, b) then 1 else 0
  }

  lemma {:induction false} CountInJoin(s: seq<int>, t: seq<int>, a: int, b: int)
    ensures CountIn(s + t, a, b) == CountIn(s, a, b) + CountIn(t, a, b)
  {
    if t == [] {
      assert s + t == s;
    } else {
      assert (s + t)[..|s + t| - 1] == s + t[..|t| - 1];
      CountInJoin(s, t[..|t| - 1], a, b);
    }
  }

  lemma {:induction false} CountInsert(arr: seq<i128>, p: i128, a: int, b: int)
    ensures CountIn(Insert(arr, p), a, b) == CountIn(arr, a, b) + CountIn([p], a, b)
  {
    hide CountIn;
    if arr == [] {
      assert [] + [p] == [p];
      CountInJoin([], [p], a, b);
    } else if p < arr[0] {
      CountInJoin([p], arr, a, b);
    } else {
      CountInsert(arr[1..], p, a, b);
      CountInJoin([arr[0]], Insert(arr[1..], p), a, b);
      CountInJoin([arr[0]], arr[1..], a, b);
      assert arr == [arr[0]] + arr[1..];
    }
  }

  lemma {:induction false} CountSorted(prices: seq<i128>, a: int, b: int)
    ensures CountIn(Sort(prices), a, b) == CountIn(prices, a, b)
  {
    if prices != [] {
      var init, last := prices[..|prices| - 1], prices[|prices| - 1];
      CountSorted(init, a, b);
      CountInsert(Sort(init), last, a, b);
      CountInJoin(init, [last], a, b);
      assert prices == init + [last];
    }
  }

  lemma {:induction false} CountNone(s: seq<int>, a: int, b: int)
    requires forall i :: 0 <= i < |s| ==> !Within(s[i], a, b)
    ensures CountIn(s, a, b) == 0
  {
    if s != [] {
      CountNone(s[..|s| - 1], a, b);
    }
  }

  lemma {:induction false} CountAtMost(s: seq<int>, a: int, b: int)
    ensures CountIn(s, a, b) <= |s|
  {
    if s != [] {
      CountAtMost(s[..|s| - 1], a, b);
    }
  }

  lemma CountCut(s: seq<int>, k: nat, a: int, b: int)
    requires k <= |s|
    ensures CountIn(s, a, b) == CountIn(s[..k], a, b) + CountIn(s[k..], a, b)
    ensures CountIn(s[..k], a, b) <= k && CountIn(s[k..], a, b) <= |s| - k
  {
    hide CountIn;
    assert s == s[..k] + s[k..];
    CountInJoin(s[..k], s[k..], a, b);
    CountAtMost(s[..k], a, b);
    CountAtMost(s[k..], a, b);
  }

  /** In a sorted sequence with more than n - k values in [a, b], position k - 1 is not below a. */
  lemma NotBelow(s: seq<int>, k: nat, a: int, b: int)
    requires Sorted(s) && 0 < k <= |s| && CountIn(s, a, b) > |s| - k
    ensures a <= s[k - 1]
  {
    hide CountIn;
    CountCut(s, k, a, b);
    if s[k - 1] < a {
      CountNone(s[..k], a, b);
    }
  }

  /** In a sorted sequence with more than k values in [a, b], position k is not above b. */
  lemma NotAbove(s: seq<int>, k: nat, a: int, b: int)
    requires Sorted(s) && k < |s| && CountIn(s, a, b) > k
    ensures s[k] <= b
  {
    hide CountIn;
    CountCut(s, k, a, b);
    if b < s[k] {
      CountNone(s[k..], a, b);
    }
  }

  lemma MeanWithin(x: int, y: int)
    requires x <= y
    ensures x <= TruncDiv(x + y, 2) <= y
  {
  }

  /** The two middle elements, which are one for an odd length. */
  function LowerMiddle(s: seq<i128>): int
    requires s != []
  {
    s[(|s| - 1) / 2]
  }

  function UpperMiddle(s: seq<i128>): int
    requires s != []
  {
    s[|s| / 2]
  }

  /** No median is taken of an even number of prices whose two middle ones have a sum that does not fit. */
  predicate MiddleFits(points: seq<Point>) {
    var sorted := Sort(Prices(points));
    |sorted| % 2 == 1 || sorted == [] || FitsI128(LowerMiddle(sorted) + UpperMiddle(sorted))
  }

  lemma MiddlesWithin(s: seq<i128>, a: int, b: int)
    requires s != [] && Sorted(s) && 2 * CountIn(s, a, b) > |s|
    ensures a <= LowerMiddle(s) <= UpperMiddle(s) <= b
  {
    var h := |s| / 2;
    NotBelow(s, (|s| - 1) / 2 + 1, a, b);
    NotAbove(s, h, a, b);
  }

  lemma MiddleWithin(s: seq<i128>, a: int, b: int)
    requires s != [] && Sorted(s) && 2 * CountIn(s, a, b) > |s|
    requires |s| % 2 == 1 || FitsI128(LowerMiddle(s) + UpperMiddle(s))
    ensures a <= Middle(s) <= b
  {
    hide CountIn, Sorted;
    MiddlesWithin(s, a, b);
    if |s| % 2 == 0 {
      MeanWithin(LowerMiddle(s), UpperMiddle(s));
    }
  }

  /** If strictly more than half of the prices lie in [a, b], so does the median, when it is taken of a sum
      that fits: a minority of liars cannot move it out of the honest range. */
  lemma MedianRobust(points: seq<Point>, a: int, b: int)
    requires 2 * CountIn(Prices(points), a, b) > |points| && MiddleFits(points)
    ensures MedianOf(points).Some? && a <= MedianOf(points).value <= b
  {
    hide CountIn, Sort, Prices, Sorted, Middle;
    CountAtMost(Prices(points), a, b);
    SortedPermutation(Prices(points));
    CountSorted(Prices(points), a, b);
    MiddleWithin(Sort(Prices(points)), a, b);
  }

  /** More than half of the prices in a range whose bounds can be doubled are enough for that. */
  lemma HonestMajorityFits(points: seq<Point>, a: int, b: int)
    requires 2 * CountIn(Prices(points), a, b) > |points| && I128_MIN <= 2 * a && 2 * b <= I128_MAX
    ensures MiddleFits(points)
  {
    CountAtMost(Prices(points), a, b);
    SortedPermutation(Prices(points));
    CountSorted(Prices(points), a, b);
    MiddlesWithin(Sort(Prices(points)), a, b);
  }

  /** A majority in [a, b] always holds the median there. */
  ghost predicate HoldsMedian(a: int, b: int) {
    forall points :: 2 * CountIn(Prices(points), a, b) > |points| ==>
      MedianOf(points).Some? && a <= MedianOf(points).value <= b
  }

  /** Two equal prices: the median is half their wrapped sum. */
  lemma TwinMedian(p: Point)
    ensures MedianOf([p, p]) == Some(TruncDiv(WrapI128(2 * p.price), 2))
    ensures CountIn(Prices([p, p]), p.price, p.price) == 2
  {
    var x, points := p.price, [p, p];
    assert points[..1] == [p] && [p][..0] == [];
    assert Prices(points) == [x, x];
    assert [x, x][..1] == [x] && [x][..0] == [] && [x][1..] == [];
    assert Insert([x], x) == [x] + Insert([], x) == [x, x];
    assert Sort([x, x]) == Insert(Sort([x]), x) && Sort([x]) == Insert(Sort([]), x) == [x];
    assert CountIn([x], x, x) == 1;
  }

  /** For a range of non-negative prices that is so if and only if its upper end can be doubled. */
  lemma RobustIff(a: int, b: i128)
    requires 0 <= a <= b
    ensures HoldsMedian(a, b) <==> 2 * b <= I128_MAX
  {
    if 2 * b <= I128_MAX {
      forall points | 2 * CountIn(Prices(points), a, b) > |points|
        ensures MedianOf(points).Some? && a <= MedianOf(points).value <= b
      {
        HonestMajorityFits(points, a, b);
        MedianRobust(points, a, b);
      }
    } else {
      var p := Point("", "", b, 0, 0, Fresh);
      TwinMedian(p);
      CountIncreases(Prices([p, p]), b, b, a, b);
      assert MedianOf([p, p]).value < 0;
    }
  }

  lemma {:induction false} CountIncreases(s: seq<int>, a: int, b: int, c: int, d: int)
    requires c <= a && b <= d
    ensures CountIn(s, a, b) <= CountIn(s, c, d)
  {
    if s != [] {
      CountIncreases(s[..|s| - 1], a, b, c, d);
    }
  }

  lemma {:induction false} CountAll(s: seq<int>, a: int, b: int)
    requires forall i :: 0 <= i < |s| ==> Within(s[i], a, b)
    ensures CountIn(s, a, b) == |s|
  {
    if s != [] {
      CountAll(s[..|s| - 1], a, b);
    }
  }

  /** Every price of a set lies in [a, b]. */
  ghost predicate AllWithin(points: seq<Point>, a: int, b: int) {
    forall i :: 0 <= i < |points| ==> Within(points[i].price, a, b)
  }

  // ---------------------------------------------------------------------------------------------
  // Aggregates
  // ---------------------------------------------------------------------------------------------

  lemma {:induction false} LatestWithin(points: seq<Point>, a: int, b: int)
    requires points != [] && AllWithin(points, a, b)
    ensures a <= LatestOf(points).price <= b
  {
    if |points| > 1 {
      LatestWithin(points[..|points| - 1], a, b);
    } else {
      assert points[..0] == [];
    }
  }

  /** The latest price is that of a newest point, and of the last one of those. */
  lemma {:induction false} LatestIsNewest(points: seq<Point>) returns (i: nat)
    requires points != []
    ensures i < |points| && LatestOf(points) == Newest(points[i].price, points[i].timestamp)
    ensures forall k :: 0 <= k < |points| ==> points[k].timestamp <= points[i].timestamp
    ensures forall k :: i < k < |points| ==> points[k].timestamp < points[i].timestamp
  {
    var n := |points| - 1;
    if n == 0 {
      assert points[..0] == [];
      i := 0;
    } else {
      i := LatestIsNewest(points[..n]);
      if points[n].timestamp >= points[i].timestamp {
        i := n;
      }
    }
  }

  lemma Scale(a: int, x: int, b: int, w: int)
    requires a <= x <= b && 0 <= w
    ensures a * w <= x * w <= b * w
  {
  }

  lemma AddBetween(a: int, b: int, total: int, sum: int, x: int, w: int)
    requires a * total <= sum <= b * total && a <= x <= b && 0 <= w
    ensures a * (total + w) <= sum + x * w <= b * (total + w)
  {
    Scale(a, x, b, w);
    assert a * (total + w) == a * total + a * w && b * (total + w) == b * total + b * w;
  }

  /** The weighted sum without wrapping. */
  function ExactSum(points: seq<Point>, now: u64, trust: map<Symbol, u32>, m: Method): int {
    if points == [] then 0
    else
      var last := points[|points| - 1];
      ExactSum(points[..|points| - 1], now, trust, m) + last.price * Weight(last, now, trust, m)
  }

  /** Wrapping at every step comes to wrapping once. */
  lemma {:induction false} SumWraps(points: seq<Point>, now: u64, trust: map<Symbol, u32>, m: Method)
    ensures WeightedSum(points, now, trust, m) == WrapI128(ExactSum(points, now, trust, m))
  {
    if points != [] {
      var init, last := points[..|points| - 1], points[|points| - 1];
      var before, term := ExactSum(init, now, trust, m), last.price * Weight(last, now, trust, m);
      hide Weight, WrapI128;
      SumWraps(init, now, trust, m);
      WrapSum(before, WrapI128(term));
      WrapSum(before, term);
    }
  }

  lemma {:induction false} SumBetween(points: seq<Point>, now: u64, trust: map<Symbol, u32>, m: Method, a: int, b: int)
    requires AllWithin(points, a, b)
    ensures var total := TotalWeight(points, now, trust, m);
            0 <= total && a * total <= ExactSum(points, now, trust, m) <= b * total
  {
    if points != [] {
      var init, last := points[..|points| - 1], points[|points| - 1];
      hide Weight;
      SumBetween(init, now, trust, m, a, b);
      WeightNonNegative(last, now, trust, m);
      AddBetween(a, b, TotalWeight(init, now, trust, m), ExactSum(init, now, trust, m), last.price,
                 Weight(last, now, trust, m));
    }
  }

  lemma WeightNonNegative(p: Point, now: u64, trust: map<Symbol, u32>, m: Method)
    ensures Weight(p, now, trust, m) >= 0
  {
  }

  /** The quotient of a number between a * t and b * t by t, truncated toward zero, is between a and b. */
  lemma QuotientBetween(sum: int, t: int, a: int, b: int)
    requires 0 < t && a * t <= sum <= b * t
    ensures a <= TruncDiv(sum, t) <= b
  {
    if sum >= 0 {
      FloorIff(a, sum, t);
      FloorIff(b + 1, sum, t);
      assert (b + 1) * t == b * t + t;
    } else {
      assert -b * t == -(b * t) && -a * t == -(a * t);
      FloorIff(-b, -sum, t);
      FloorIff(-a + 1, -sum, t);
      assert (-a + 1) * t == -a * t + t;
    }
  }

  predicate Weighs(m: Method) {
    m == Twap || m == WeightedAverage
  }

  /** The weights in play, or 1 for the two methods that do not weigh. */
  function Mass(points: seq<Point>, now: u64, trust: map<Symbol, u32>, m: Method): int {
    if Weighs(m) then TotalWeight(points, now, trust, m) else 1
  }

  /** What an aggregation adds up fits: the two middle prices, or the weighted prices. */
  predicate SumFits(points: seq<Point>, now: u64, trust: map<Symbol, u32>, m: Method) {
    match m
    case Median => MiddleFits(points)
    case Latest => true
    case _ => FitsI128(ExactSum(points, now, trust, m))
  }

  lemma CombinedWithin(points: seq<Point>, now: u64, trust: map<Symbol, u32>, m: Method, a: int, b: int)
    requires points != [] && AllWithin(points, a, b)
    requires Mass(points, now, trust, m) > 0 && SumFits(points, now, trust, m)
    ensures a <= Combined(points, now, trust, m) <= b
  {
    match m
    case Median =>
      CountAll(Prices(points), a, b);
      MedianRobust(points, a, b);
    case Latest => LatestWithin(points, a, b);
    case _ =>
      SumWraps(points, now, trust, m);
      SumBetween(points, now, trust, m, a, b);
      QuotientBetween(ExactSum(points, now, trust, m), TotalWeight(points, now, trust, m), a, b);
  }

  /** For positive prices in [a, b] whose sums fit, each of the four aggregates stays in [a, b] exactly when its
      weights do not all vanish; an average without weight is zero. */
  lemma AggregateWithinIff(points: seq<Point>, now: u64, trust: map<Symbol, u32>, m: Method, a: int, b: int)
    requires points != [] && AllWithin(points, a, b) && 0 < a && SumFits(points, now, trust, m)
    ensures a <= AggregateOf(points, now, trust, m).price <= b <==> Mass(points, now, trust, m) > 0
  {
    if Mass(points, now, trust, m) > 0 {
      CombinedWithin(points, now, trust, m, a, b);
    } else {
      SumBetween(points, now, trust, m, a, b);
    }
  }

  /** Prices up to b, taken with all the weights in play, fit when b times the weights does. */
  lemma BoundedSumFits(points: seq<Point>, now: u64, trust: map<Symbol, u32>, m: Method, b: int)
    requires points != [] && AllWithin(points, 0, b)
    requires if Weighs(m) then b * Mass(points, now, trust, m) <= I128_MAX else 2 * b <= I128_MAX
    ensures SumFits(points, now, trust, m)
  {
    CountAll(Prices(points), 0, b);
    if Weighs(m) {
      SumBetween(points, now, trust, m, 0, b);
    } else {
      HonestMajorityFits(points, 0, b);
    }
  }

  lemma AgreeingQuotient(b: int, total: int)
    requires 0 < b && 0 < total
    ensures TruncDiv(WrapI128(b * total), total) == b <==> b * total <= I128_MAX
  {
    var exact := b * total;
    assert exact > 0;
    var sum := WrapI128(exact);
    if exact <= I128_MAX {
      QuotientBetween(exact, total, b, b);
    } else if sum >= 0 {
      assert sum < exact;
      FloorIff(b, sum, total);
    } else {
      FloorBracket(-sum, total);
    }
  }

  /** When every provider submits the same positive price b, an average with weight is b if and only if b times
      the weights fits; otherwise it wraps to something else. */
  lemma AgreeingIff(points: seq<Point>, now: u64, trust: map<Symbol, u32>, m: Method, b: int)
    requires points != [] && AllWithin(points, b, b) && 0 < b && Weighs(m) && Mass(points, now, trust, m) > 0
    ensures AggregateOf(points, now, trust, m).price == b <==> b * Mass(points, now, trust, m) <= I128_MAX
  {
    hide TotalWeight, WeightedSum, ExactSum, TruncDiv, WrapI128, WorstStatus, MedianOf, LatestOf;
    SumBetween(points, now, trust, m, b, b);
    SumWraps(points, now, trust, m);
    AgreeingQuotient(b, TotalWeight(points, now, trust, m));
  }

  /** The reported status is that of some point or Fresh, and no point's is worse. */
  lemma {:induction false} WorstIsWorst(points: seq<Point>, i: nat)
    requires i < |points|
    ensures Rank(points[i].status) <= Rank(WorstStatus(points))
    ensures WorstStatus(points) == Fresh || exists k :: 0 <= k < |points| && points[k].status == WorstStatus(points)
  {
    var n := |points| - 1;
    if n > 0 {
      WorstIsWorst(points[..n], if i < n then i else 0);
    } else {
      assert points[..0] == [];
    }
  }

  // ---------------------------------------------------------------------------------------------
  // The path from fresh data to a price
  // ---------------------------------------------------------------------------------------------

  /** A price that the anomaly test lets pass. */
  predicate Keeps(price: i128, median: i128, maxDeviation: i128) {
    IsAnomalous(price, median, maxDeviation) == Ok(false)
  }

  /** The present and the time of a point are known, and no more than the time to live lies between them. */
  predicate Recent(p: Point, now: u64, ttl: u64) {
    now != 0 && p.timestamp != 0 && now <= p.timestamp + ttl
  }

  /** The points a resolution uses: those of a known time no longer ago than the time to live, not too far from the
      median of the fresh ones, and not submitted as anomalous. */
  predicate Usable(p: Point, now: u64, c: Config, median: i128) {
    && now != 0 && p.timestamp != 0 && now <= p.timestamp + c.ttl
    && p.status != Anomalous && Keeps(p.price, median, c.maxDeviation)
  }

  /** A point passes the filter if and only if it is listed, its time and the present are known, and no more than the
      time to live lies between them. */
  lemma {:induction false} FreshExact(points: seq<Point>, now: u64, ttl: u64, p: Point)
    ensures p in FilterStale(points, now, ttl)
            <==> p in points && now != 0 && p.timestamp != 0 && now <= p.timestamp + ttl
  {
    if points != [] {
      FreshExact(points[..|points| - 1], now, ttl, p);
      assert points == points[..|points| - 1] + [points[|points| - 1]];
    }
  }

  lemma NonAnomalousSnoc(points: seq<Point>, q: Point)
    ensures NonAnomalous(points + [q]) == NonAnomalous(points) + if q.status != Anomalous then [q] else []
  {
    assert (points + [q])[..|points|] == points;
  }

  lemma InEnd(points: seq<Point>, q: Point, p: Point)
    ensures p in points + [q] <==> p in points || p == q
    ensures p in points + [] <==> p in points
  {
  }

  /** Flagging leaves a point usable, and then as it is, exactly when it was not anomalous and the test lets it pass. */
  lemma FlagOne(p: Point, median: i128, maxDeviation: i128)
    requires Flag(p, median, maxDeviation).Ok?
    ensures var q := Flag(p, median, maxDeviation).value;
            && (q.status != Anomalous <==> p.status != Anomalous && Keeps(p.price, median, maxDeviation))
            && (q.status != Anomalous ==> q == p)
  {
    hide IsAnomalous;
  }

  lemma FlagLast(points: seq<Point>, median: i128, maxDeviation: i128)
    requires points != [] && FlagAll(points, median, maxDeviation).Ok?
    ensures var init, last := points[..|points| - 1], points[|points| - 1];
            && FlagAll(init, median, maxDeviation).Ok? && Flag(last, median, maxDeviation).Ok?
            && FlagAll(points, median, maxDeviation).value
               == FlagAll(init, median, maxDeviation).value + [Flag(last, median, maxDeviation).value]
  {
    hide Flag;
  }

  lemma FlaggedNone(median: i128, maxDeviation: i128)
    ensures FlagAll([], median, maxDeviation) == Ok([]) && NonAnomalous([]) == []
  {
  }

  lemma {:induction false} FlaggedExact(points: seq<Point>, median: i128, maxDeviation: i128, p: Point)
    requires FlagAll(points, median, maxDeviation).Ok?
    ensures p in NonAnomalous(FlagAll(points, median, maxDeviation).value)
            <==> p in points && p.status != Anomalous && Keeps(p.price, median, maxDeviation)
  {
    hide Flag, FlagAll, Keeps, NonAnomalous;
    if points == [] {
      FlaggedNone(median, maxDeviation);
    } else {
      var init, last := points[..|points| - 1], points[|points| - 1];
      FlagLast(points, median, maxDeviation);
      FlagOne(last, median, maxDeviation);
      FlaggedExact(init, median, maxDeviation, p);
      var flagged, q := FlagAll(init, median, maxDeviation).value, Flag(last, median, maxDeviation).value;
      NonAnomalousSnoc(flagged, q);
      InEnd(NonAnomalous(flagged), q, p);
      InEnd(init, last, p);
      assert points == init + [last];
    }
  }

  /** The test divides by a median that is not negative without a panic. */
  lemma {:induction false} FlagAllOk(points: seq<Point>, median: i128, maxDeviation: i128)
    requires median >= 0
    ensures FlagAll(points, median, maxDeviation).Ok?
  {
    if points != [] {
      FlagAllOk(points[..|points| - 1], median, maxDeviation);
      hide ScaledDistance, TruncDiv;
      if median > 0 {
        QuotientFits(ScaledDistance(points[|points| - 1].price, median), median);
      }
    }
  }

  lemma QuotientFits(a: i128, b: i128)
    requires b > 0
    ensures FitsI128(TruncDiv(a, b))
  {
    var n := Abs(a);
    FloorBracket(n, b);
    FloorIff(n + 1, n, b);
    MulMono(1, b, n + 1);
    assert TruncDiv(a, b) == if a >= 0 then n / b else -(n / b);
  }

  lemma FreshMedian(recent: seq<Point>)
    requires recent != []
    ensures MedianOf(recent).Some?
  {
    SortedPermutation(Prices(recent));
  }

  /** Exactly the usable points reach the aggregation; validation panics only for a negative median. */
  lemma UsableExact(points: seq<Point>, now: u64, c: Config, p: Point)
    ensures var median := MedianOf(FilterStale(points, now, c.ttl));
            var valid := Validate(points, now, c);
            && (median.Some? && median.value >= 0 ==> valid.Ok?)
            && (valid.Ok? ==>
                  (p in NonAnomalous(valid.value)
                   <==> p in points && median.Some? && Usable(p, now, c, median.value)))
  {
    hide FilterStale, MedianOf, IsAnomalous;
    var recent := FilterStale(points, now, c.ttl);
    FreshExact(points, now, c.ttl, p);
    if recent != [] {
      FreshMedian(recent);
      var median := MedianOf(recent).value;
      if median >= 0 {
        FlagAllOk(recent, median, c.maxDeviation);
      }
      if FlagAll(recent, median, c.maxDeviation).Ok? {
        FlaggedExact(recent, median, c.maxDeviation, p);
      }
    } else {
      NoMedian();
    }
  }

  lemma NoMedian()
    ensures MedianOf([]).None?
  {
  }

  /** Within the configured deviation, in exact arithmetic and without the rounding. */
  predicate Near(price: int, median: int, maxDeviation: int) {
    Abs(price - median) * 10000 < (maxDeviation + 1) * median
  }

  /** The largest distance whose product with 10000 fits. */
  const MAX_DISTANCE := I128_MAX / 10000

  /** A price within that distance of a positive median passes the test exactly when it is near the median. */
  lemma KeepsNear(price: i128, median: i128, maxDeviation: i128)
    requires median > 0 && Abs(price - median) <= MAX_DISTANCE
    ensures Keeps(price, median, maxDeviation) <==> Near(price, median, maxDeviation)
  {
    QuotientFits(ScaledDistance(price, median), median);
    FloorIff(maxDeviation + 1, Abs(price - median) * 10000, median);
  }

  /** The test is exact for every configured deviation. */
  ghost predicate TestExact(price: i128, median: i128) {
    forall maxDeviation: i128 :: 0 <= maxDeviation ==>
      (Keeps(price, median, maxDeviation) <==> Near(price, median, maxDeviation))
  }

  /** A price too far for that passes under a deviation that it exceeds: the one the wrapped product amounts to. */
  lemma TooFar(price: i128, median: i128) returns (maxDeviation: i128)
    requires median > 0 && Abs(price - median) > MAX_DISTANCE
    ensures 0 <= maxDeviation && Keeps(price, median, maxDeviation) && !Near(price, median, maxDeviation)
  {
    var w := ScaledDistance(price, median);
    QuotientFits(w, median);
    maxDeviation := Max(0, TruncDiv(w, median));
    var exact := Abs(price - median) * 10000;
    FloorBracket(Abs(w), median);
    assert (maxDeviation + 1) * median == maxDeviation * median + median;
    assert maxDeviation * median <= Max(0, w);
    WrappedBelow(price, median);
  }

  /** A product beyond the range and its wrapped form are at least a median apart. */
  lemma WrappedApart(exact: int, median: i128)
    requires exact > I128_MAX && median > 0
    ensures Max(0, WrapI128(exact)) + median <= exact
  {
    var k := WrapShift(exact);
    assert WrapI128(exact) <= exact - TWO_128;
  }

  /** The wrapped product, and one median more, is below the exact one. */
  lemma WrappedBelow(price: i128, median: i128)
    requires median > 0 && Abs(price - median) > MAX_DISTANCE
    ensures Max(0, ScaledDistance(price, median)) + median <= Abs(price - median) * 10000
  {
    var distance: int := Abs(price - median);
    WrappedApart(distance * 10000, median);
    var w: int := ScaledDistance(price, median);
    if distance <= I128_MAX {
      assert WrapI128(price - median) == price - median;
      assert WrapI128(Abs(price - median)) == distance;
      assert w == WrapI128(distance * 10000);
    } else {
      assert w <= I128_MAX;
    }
  }

  /**
   The anomaly test is exact, whatever the configured deviation, if and only if the price is within
   I128_MAX / 10000 of the median; beyond that its product wraps around.
   */
  lemma NotAnomalousIff(price: i128, median: i128)
    requires median > 0
    ensures TestExact(price, median) <==> Abs(price - median) <= MAX_DISTANCE
  {
    hide Keeps, Near;
    if Abs(price - median) <= MAX_DISTANCE {
      forall maxDeviation: i128 | 0 <= maxDeviation
        ensures Keeps(price, median, maxDeviation) <==> Near(price, median, maxDeviation)
      {
        KeepsNear(price, median, maxDeviation);
      }
    } else {
      var maxDeviation := TooFar(price, median);
    }
  }

  /** Between two numbers that are near m, everything is near m. */
  lemma NearBetween(x: int, lo: int, hi: int, m: int, bound: int)
    requires lo <= x <= hi && Abs(lo - m) * 10000 < bound && Abs(hi - m) * 10000 < bound
    ensures Abs(x - m) * 10000 < bound
  {
  }

  function Lowest(points: seq<Point>): int
    requires points != []
  {
    if |points| == 1 then points[0].price
    else Min(Lowest(points[..|points| - 1]), points[|points| - 1].price)
  }

  function Highest(points: seq<Point>): int
    requires points != []
  {
    if |points| == 1 then points[0].price
    else Max(Highest(points[..|points| - 1]), points[|points| - 1].price)
  }

  lemma {:induction false} Extremes(points: seq<Point>) returns (lo: nat, hi: nat)
    requires points != []
    ensures lo < |points| && hi < |points|
    ensures Lowest(points) == points[lo].price && Highest(points) == points[hi].price
    ensures AllWithin(points, Lowest(points), Highest(points))
  {
    var n := |points| - 1;
    if n == 0 {
      lo, hi := 0, 0;
    } else {
      lo, hi := Extremes(points[..n]);
      if points[n].price < points[lo].price {
        lo := n;
      }
      if points[n].price > points[hi].price {
        hi := n;
      }
    }
  }

  /** Every fresh price is close enough to the positive median for the anomaly test to be exact. */
  ghost predicate Comparable(recent: seq<Point>) {
    && MedianOf(recent).Some? && MedianOf(recent).value > 0
    && forall p :: p in recent ==> Abs(p.price - MedianOf(recent).value) <= MAX_DISTANCE
  }

  lemma UsableNear(points: seq<Point>, now: u64, c: Config, p: Point)
    requires Comparable(FilterStale(points, now, c.ttl)) && Validate(points, now, c).Ok?
    requires p in NonAnomalous(Validate(points, now, c).value)
    ensures Near(p.price, MedianOf(FilterStale(points, now, c.ttl)).value, c.maxDeviation)
  {
    hide MedianOf, FilterStale, Validate, NonAnomalous, Keeps, Near;
    UsableExact(points, now, c, p);
    FreshExact(points, now, c.ttl, p);
    KeepsNear(p.price, MedianOf(FilterStale(points, now, c.ttl)).value, c.maxDeviation);
  }

  /** The cache does not serve, and some point is usable. */
  ghost predicate FreshPath(cached: Option<Cached>, points: seq<Point>, now: u64, c: Config) {
    && !(cached.Some? && Serves(cached.value, now))
    && Validate(points, now, c).Ok? && NonAnomalous(Validate(points, now, c).value) != []
  }

  /**
   On the fresh-data path a resolution succeeds with a price between the lowest and the highest usable
   price, and so near the median m of the fresh prices: |price - m| * 10000 < (max_deviation + 1) * m.
   */
  lemma ResolvedNearMedian(cached: Option<Cached>, points: seq<Point>, fallback: Option<int>, now: u64, c: Config,
                           trust: map<Symbol, u32>, m: Method)
    requires FreshPath(cached, points, now, c) && Comparable(FilterStale(points, now, c.ttl))
    requires var usable := NonAnomalous(Validate(points, now, c).value);
             Mass(usable, now, trust, m) > 0 && SumFits(usable, now, trust, m)
    ensures var usable := NonAnomalous(Validate(points, now, c).value);
            var median := MedianOf(FilterStale(points, now, c.ttl)).value;
            var r := Resolve(cached, points, fallback, now, c, trust, m);
            && r.Ok? && r.value.sources == |usable| && r.value.how == m
            && Lowest(usable) <= r.value.price <= Highest(usable) && Near(r.value.price, median, c.maxDeviation)
  {
    hide FilterStale, Validate, NonAnomalous, MedianOf, Lowest, Highest, Mass, SumFits, Combined, WorstStatus;
    var usable := NonAnomalous(Validate(points, now, c).value);
    var median := MedianOf(FilterStale(points, now, c.ttl)).value;
    var lo, hi := Extremes(usable);
    UsableNear(points, now, c, usable[lo]);
    UsableNear(points, now, c, usable[hi]);
    CombinedWithin(usable, now, trust, m, Lowest(usable), Highest(usable));
    NearBetween(Combined(usable, now, trust, m), usable[lo].price, usable[hi].price, median,
                (c.maxDeviation + 1) * median);
  }

  /** A fresh point with the median price is usable unless it was submitted as anomalous, or the configured
      deviation is negative and the median not zero. */
  lemma MedianUsableIff(points: seq<Point>, now: u64, c: Config, p: Point)
    requires var median := MedianOf(FilterStale(points, now, c.ttl)); median.Some? && p.price == median.value
    requires p in FilterStale(points, now, c.ttl) && Validate(points, now, c).Ok?
    ensures p in NonAnomalous(Validate(points, now, c).value)
            <==> p.status != Anomalous && (c.maxDeviation >= 0 || p.price == 0)
  {
    hide FilterStale, Validate, NonAnomalous, MedianOf, Keeps;
    FreshExact(points, now, c.ttl, p);
    NoDeviation(p.price, c.maxDeviation);
    UsableExact(points, now, c, p);
  }

  /** Some point of a list has a price, and was not submitted as anomalous if that is asked for. */
  ghost predicate HasPrice(points: seq<Point>, price: i128, accepted: bool) {
    exists i :: 0 <= i < |points| && points[i].price == price && (accepted ==> points[i].status != Anomalous)
  }

  /**
   With an odd number of fresh points the median is one of their prices. It is usable if and only if some point
   with that price was not submitted as anomalous, and the configured deviation is not negative or the median zero.
   */
  lemma OddCountUsable(points: seq<Point>, now: u64, c: Config)
    requires |FilterStale(points, now, c.ttl)| % 2 == 1
    ensures var recent, median := FilterStale(points, now, c.ttl), MedianOf(FilterStale(points, now, c.ttl));
            && median.Some? && HasPrice(recent, median.value, false)
            && (Validate(points, now, c).Ok? ==>
                  (HasPrice(NonAnomalous(Validate(points, now, c).value), median.value, false)
                   <==> HasPrice(recent, median.value, true) && (c.maxDeviation >= 0 || median.value == 0)))
  {
    var recent := FilterStale(points, now, c.ttl);
    OddMedian(recent);
    hide FilterStale, Validate, NonAnomalous, MedianOf;
    var median := MedianOf(recent).value;
    if Validate(points, now, c).Ok? {
      var usable := NonAnomalous(Validate(points, now, c).value);
      if HasPrice(usable, median, false) {
        var i :| 0 <= i < |usable| && usable[i].price == median;
        var p := usable[i];
        UsableExact(points, now, c, p);
        FreshExact(points, now, c.ttl, p);
        MedianUsableIff(points, now, c, p);
        assert p in recent;
      }
      if HasPrice(recent, median, true) && (c.maxDeviation >= 0 || median == 0) {
        var i :| 0 <= i < |recent| && recent[i].price == median && recent[i].status != Anomalous;
        MedianUsableIff(points, now, c, recent[i]);
        assert recent[i] in usable;
      }
    }
  }

  lemma OddMedian(recent: seq<Point>)
    requires |recent| % 2 == 1
    ensures MedianOf(recent).Some? && HasPrice(recent, MedianOf(recent).value, false)
  {
    var prices := Prices(recent);
    SortedPermutation(prices);
    var median := Sort(prices)[|prices| / 2];
    assert median in multiset(Sort(prices));
    assert median in prices;
    var i :| 0 <= i < |prices| && prices[i] == median;
    assert recent[i].price == median;
  }

  lemma ZeroQuotient(b: int)
    requires b != 0
    ensures TruncDiv(0, b) == 0
  {
    var q := 0 / b;
    assert b * q + 0 % b == 0;
    if q >= 1 {
      MulMono(1, q, Abs(b));
    } else if q <= -1 {
      MulMono(q, -1, Abs(b));
    }
  }

  lemma NoDeviation(median: i128, maxDeviation: i128)
    ensures Keeps(median, median, maxDeviation) <==> maxDeviation >= 0 || median == 0
  {
    if median != 0 {
      hide TruncDiv;
      ZeroQuotient(median);
    }
  }

  /** The lower of the two middle prices is the closest to the median of all. */
  lemma LowerMiddleClosest(s: seq<i128>, x: i128)
    requires s != [] && Sorted(s) && x in s && (|s| % 2 == 1 || FitsI128(LowerMiddle(s) + UpperMiddle(s)))
    requires LowerMiddle(s) > 0
    ensures Abs(LowerMiddle(s) - Middle(s)) <= Abs(x - Middle(s))
  {
    var k :| 0 <= k < |s| && s[k] == x;
    var i, j := (|s| - 1) / 2, |s| / 2;
    assert k <= i ==> s[k] <= s[i];
    assert k >= j ==> s[j] <= s[k];
    assert s[i] <= s[j] by {
      if i < j {
        assert s[i] <= s[j];
      }
    }
  }

  lemma MiddleListed(points: seq<Point>) returns (i: nat)
    requires points != []
    ensures Sort(Prices(points)) != [] && i < |points| && points[i].price == LowerMiddle(Sort(Prices(points)))
  {
    SortedPermutation(Prices(points));
    var x := Sort(Prices(points))[(|points| - 1) / 2];
    assert x in multiset(Prices(points));
    i :| 0 <= i < |points| && Prices(points)[i] == x;
  }

  /** The lower of the two middle prices among the fresh points. */
  function LowerFresh(recent: seq<Point>): int {
    if Sort(Prices(recent)) == [] then 0 else LowerMiddle(Sort(Prices(recent)))
  }

  /** It is positive, and every fresh price is no closer to the median. */
  lemma FreshNoCloser(recent: seq<Point>, p: Point)
    requires p in recent && Comparable(recent) && MiddleFits(recent) && LowerFresh(recent) > 0
    ensures Abs(LowerFresh(recent) - MedianOf(recent).value) <= Abs(p.price - MedianOf(recent).value)
  {
    hide Sort, Prices;
    SortedPermutation(Prices(recent));
    PriceListed(recent, p);
    LowerMiddleClosest(Sort(Prices(recent)), p.price);
  }

  lemma UsableMiddle(points: seq<Point>, now: u64, c: Config) returns (p: Point)
    requires forall p :: p in points ==> p.status != Anomalous
    requires Comparable(FilterStale(points, now, c.ttl))
    ensures p in FilterStale(points, now, c.ttl) && p.price == LowerFresh(FilterStale(points, now, c.ttl))
    ensures Validate(points, now, c).Ok?
    ensures p in NonAnomalous(Validate(points, now, c).value)
            <==> Near(p.price, MedianOf(FilterStale(points, now, c.ttl)).value, c.maxDeviation)
  {
    var recent := FilterStale(points, now, c.ttl);
    if recent == [] {
      NoMedian();
    }
    hide Prices, CountIn;
    var i := MiddleListed(recent);
    p := recent[i];
    assert p in recent;
    hide FilterStale, Validate, NonAnomalous, Keeps, Sort, MedianOf, Near;
    FreshExact(points, now, c.ttl, p);
    UsableExact(points, now, c, p);
    KeepsNear(p.price, MedianOf(recent).value, c.maxDeviation);
  }

  /**
   Some fresh point is usable if and only if the lower of the two middle prices is near the median;
   with an odd number that price is the median.
   */
  lemma SomeUsableIff(points: seq<Point>, now: u64, c: Config)
    requires forall p :: p in points ==> p.status != Anomalous
    requires var recent := FilterStale(points, now, c.ttl);
             Comparable(recent) && MiddleFits(recent) && LowerFresh(recent) > 0
    ensures var recent := FilterStale(points, now, c.ttl);
            && Validate(points, now, c).Ok?
            && (NonAnomalous(Validate(points, now, c).value) != []
                <==> Near(LowerFresh(recent), MedianOf(recent).value, c.maxDeviation))
  {
    hide FilterStale, Validate, NonAnomalous, Keeps, LowerFresh, MedianOf, MiddleFits, Comparable;
    var recent := FilterStale(points, now, c.ttl);
    var middle := UsableMiddle(points, now, c);
    var usable := NonAnomalous(Validate(points, now, c).value);
    if usable != [] {
      var p := usable[0];
      assert p in usable;
      UsableExact(points, now, c, p);
      FreshExact(points, now, c.ttl, p);
      UsableNear(points, now, c, p);
      FreshNoCloser(recent, p);
    }
  }

  lemma PriceListed(points: seq<Point>, p: Point)
    requires p in points
    ensures p.price in Sort(Prices(points))
  {
    SortedPermutation(Prices(points));
    var i :| 0 <= i < |points| && points[i] == p;
    assert Prices(points)[i] in Prices(points);
    assert p.price in multiset(Sort(Prices(points)));
  }

  lemma RecentMeans(p: Point, now: u64, ttl: u64)
    ensures Recent(p, now, ttl) <==> !IsStale(p, now, ttl)
  {
  }

  lemma FreshSnoc(points: seq<Point>, p: Point, now: u64, ttl: u64)
    requires Recent(p, now, ttl)
    ensures FilterStale(points + [p], now, ttl) == FilterStale(points, now, ttl) + [p]
  {
    hide IsStale, Recent;
    RecentMeans(p, now, ttl);
    assert (points + [p])[..|points|] == points;
  }

  lemma ThreeFresh(p: Point, q: Point, r: Point, now: u64, ttl: u64)
    requires Recent(p, now, ttl) && Recent(q, now, ttl) && Recent(r, now, ttl)
    ensures FilterStale([p, q, r], now, ttl) == [p, q, r]
  {
    assert FilterStale([], now, ttl) == [];
    hide FilterStale, Recent;
    FreshSnoc([], p, now, ttl);
    FreshSnoc([p], q, now, ttl);
    FreshSnoc([p, q], r, now, ttl);
    assert [] + [p] == [p] && [p] + [q] == [p, q] && [p, q] + [r] == [p, q, r];
  }

  lemma ThreePrices(p: Point, q: Point, r: Point)
    ensures Prices([p, q, r]) == [p.price, q.price, r.price]
  {
  }

  lemma TwoEqual(x: i128, z: i128)
    ensures CountIn([x, x, z], x, x) >= 2
  {
    assert [x, x, z][..2] == [x, x] && [x, x][..1] == [x] && [x][..0] == [];
    assert CountIn([x], x, x) == 1;
    assert CountIn([x, x], x, x) == 2;
  }

  lemma TwoOfThree(p: Point, q: Point, r: Point)
    requires p.price == q.price
    ensures MedianOf([p, q, r]) == Some(p.price)
  {
    hide CountIn, Sort, Prices;
    ThreePrices(p, q, r);
    TwoEqual(p.price, r.price);
    SortedPermutation(Prices([p, q, r]));
    MedianRobust([p, q, r], p.price, p.price);
  }

  /** The product wraps to a negative one. */
  lemma FarPriceKept()
    ensures Keeps(MAX_DISTANCE + 101, 100, 5000) && !Near(MAX_DISTANCE + 101, 100, 5000)
  {
    assert ScaledDistance(MAX_DISTANCE + 101, 100) < 0;
  }

  /**
   The wrapped product lets a price through that is far beyond the deviation: next to two prices of 100,
   the newest one, 101 above I128_MAX / 10000, is taken for near, and a resolution to the latest price
   returns it.
   */
  lemma WrappedDeviationExample(p: Point, q: Point, r: Point, now: u64, c: Config, trust: map<Symbol, u32>)
    requires p.price == q.price == 100 && r.price == MAX_DISTANCE + 101 && c.maxDeviation == 5000
    requires p.timestamp < r.timestamp && q.timestamp < r.timestamp && r.status == Fresh
    requires Recent(p, now, c.ttl) && Recent(q, now, c.ttl) && Recent(r, now, c.ttl)
    ensures !Near(r.price, 100, c.maxDeviation)
    ensures Resolve(None, [p, q, r], None, now, c, trust, Latest).Ok?
    ensures Resolve(None, [p, q, r], None, now, c, trust, Latest).value.price == r.price
  {
    hide FilterStale, Validate, NonAnomalous, MedianOf, Keeps, LatestOf, WorstStatus;
    var points := [p, q, r];
    ThreeFresh(p, q, r, now, c.ttl);
    TwoOfThree(p, q, r);
    FarPriceKept();
    UsableExact(points, now, c, r);
    var usable := NonAnomalous(Validate(points, now, c).value);
    var i := LatestIsNewest(usable);
    var k :| 0 <= k < |usable| && usable[k] == r;
    assert usable[i] in usable;
    UsableExact(points, now, c, usable[i]);
  }
}
