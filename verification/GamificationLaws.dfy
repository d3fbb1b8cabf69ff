/** Batches replay, streaks, bounded scores, a stable leaderboard that its pages tile, and the reward pool. */
module GamificationLaws {
  import opened Wrappers
  import opened Checked
  import opened Host
  import opened Sums
  import opened Gamification

  // ---------------------------------------------------------------------------------------------
  // Batches
  // ---------------------------------------------------------------------------------------------

  /** Tallying does not look at what refreshing writes. */
  lemma TallyRefresh(s: Stats, now: u64, t: Trade)
    ensures RecordTrade(Refresh(s, now), now, t) == Refresh(Tally(s, t), now)
  {
    hide TotalScore, TierOf;
    TotalScoreFrame(Tally(Refresh(s, now), t), Tally(s, t).(lastActive := now));
  }

  lemma TotalScoreFrame(a: Stats, b: Stats)
    requires a.successes == b.successes && a.bestRoi == b.bestRoi && a.bestStreak == b.bestStreak
    requires a.modules == b.modules && a.totalModules == b.totalModules && a.community == b.community
    ensures TotalScore(a) == TotalScore(b)
  {
  }

  /** A batch of at least one trade leaves what recording its trades one by one leaves. */
  lemma {:induction false} BatchIsReplay(s: Stats, now: u64, ts: seq<Trade>)
    requires ts != []
    ensures RecordBatch(s, now, ts) == Replay(s, now, ts)
  {
    hide Refresh, Tally, RecordTrade;
    var init, last := ts[..|ts| - 1], ts[|ts| - 1];
    if init == [] {
      assert TallyAll(s, init) == s && Replay(s, now, init) == s;
      SingleTrade(s, now, last);
    } else {
      BatchIsReplay(s, now, init);
      TallyRefresh(TallyAll(s, init), now, last);
    }
  }

  lemma SingleTrade(s: Stats, now: u64, t: Trade)
    ensures RecordTrade(s, now, t) == Refresh(Tally(s, t), now)
  {
  }

  /** The stored score and tier are those of the counters. */
  predicate Current(s: Stats) {
    s.score == TotalScore(s) && s.tier == TierOf(s.score)
  }

  /** An empty batch differs from doing nothing exactly in the time of last activity. */
  lemma BatchIsReplayIff(s: Stats, now: u64, ts: seq<Trade>)
    requires Current(s)
    ensures RecordBatch(s, now, ts) == Replay(s, now, ts) <==> ts != [] || s.lastActive == now
  {
    hide TotalScore, TierOf;
    if ts != [] {
      BatchIsReplay(s, now, ts);
    } else {
      TotalScoreFrame(s, s.(lastActive := now));
    }
  }

  // ---------------------------------------------------------------------------------------------
  // Streaks
  // ---------------------------------------------------------------------------------------------

  /** The trades from i up to j all succeeded. */
  ghost predicate AllSucceed(ts: seq<Trade>, i: int, j: int) {
    0 <= i <= j <= |ts| && forall k :: i <= k < j ==> ts[k].success
  }

  /** n is the length of the run of successes that ends the sequence. */
  ghost predicate EndsWith(ts: seq<Trade>, n: nat) {
    n <= |ts| && AllSucceed(ts, |ts| - n, |ts|) && (n < |ts| ==> !ts[|ts| - n - 1].success)
  }

  /** No run of successes is longer than n. */
  ghost predicate NoLonger(ts: seq<Trade>, n: nat) {
    forall i, j :: AllSucceed(ts, i, j) ==> j - i <= n
  }

  ghost predicate RunAt(ts: seq<Trade>, i: int, n: nat) {
    AllSucceed(ts, i, i + n)
  }

  ghost predicate HasRun(ts: seq<Trade>, n: nat) {
    exists i :: RunAt(ts, i, n)
  }

  /** The counters are those of a trading history. */
  ghost predicate Reflects(s: Stats, ts: seq<Trade>) {
    && s.tradeCount == |ts| && EndsWith(ts, s.streak)
    && NoLonger(ts, s.bestStreak) && HasRun(ts, s.bestStreak)
  }

  /** A run of successes that reaches the end does not start before the one that ends the sequence. */
  lemma EndingRun(ts: seq<Trade>, t: Trade, streak: nat, i: int)
    requires EndsWith(ts, streak) && AllSucceed(ts + [t], i, |ts| + 1)
    ensures i >= |ts| - streak && (i <= |ts| ==> t.success)
  {
    var us := ts + [t];
    assert us[|ts|] == t;
    assert streak < |ts| ==> us[|ts| - streak - 1] == ts[|ts| - streak - 1];
  }

  lemma NoLongerSnoc(ts: seq<Trade>, t: Trade, streak: nat, best: nat)
    requires EndsWith(ts, streak) && NoLonger(ts, best)
    ensures NoLonger(ts + [t], if t.success then Max(best, streak + 1) else best)
  {
    var us := ts + [t];
    forall i, j | AllSucceed(us, i, j)
      ensures j - i <= if t.success then Max(best, streak + 1) else best
    {
      if j <= |ts| {
        assert forall k :: i <= k < j ==> us[k] == ts[k];
        assert AllSucceed(ts, i, j);
      } else {
        EndingRun(ts, t, streak, i);
      }
    }
  }

  lemma RunSnoc(ts: seq<Trade>, t: Trade, n: nat)
    requires HasRun(ts, n)
    ensures HasRun(ts + [t], n)
  {
    var i :| RunAt(ts, i, n);
    assert RunAt(ts + [t], i, n);
  }

  lemma EndSnoc(ts: seq<Trade>, t: Trade, streak: nat)
    requires EndsWith(ts, streak)
    ensures EndsWith(ts + [t], if t.success then streak + 1 else 0)
    ensures t.success ==> HasRun(ts + [t], streak + 1)
  {
    if t.success {
      assert RunAt(ts + [t], |ts| - streak, streak + 1);
    }
  }

  lemma TallyReflects(s: Stats, ts: seq<Trade>, t: Trade)
    requires Reflects(s, ts)
    ensures Reflects(Tally(s, t), ts + [t])
  {
    hide EndsWith, NoLonger, HasRun;
    NoLongerSnoc(ts, t, s.streak, s.bestStreak);
    RunSnoc(ts, t, s.bestStreak);
    EndSnoc(ts, t, s.streak);
  }

  lemma {:induction false} TallyAllReflects(s: Stats, ts: seq<Trade>, more: seq<Trade>)
    requires Reflects(s, ts)
    ensures Reflects(TallyAll(s, more), ts + more)
  {
    hide Reflects, Tally;
    if more == [] {
      assert ts + more == ts;
    } else {
      var init, last := more[..|more| - 1], more[|more| - 1];
      TallyAllReflects(s, ts, init);
      TallyReflects(TallyAll(s, init), ts + init, last);
      assert ts + more == ts + init + [last];
    }
  }

  /** The trades an activity records. */
  function TradesOf(a: Activity): seq<Trade> {
    match a
    case OneTrade(t) => [t]
    case ManyTrades(ts) => ts
    case _ => []
  }

  lemma ReflectsFrame(s: Stats, t: Stats, ts: seq<Trade>)
    requires t.tradeCount == s.tradeCount && t.streak == s.streak && t.bestStreak == s.bestStreak
    ensures Reflects(s, ts) ==> Reflects(t, ts)
  {
  }

  lemma ActivityReflects(s: Stats, now: u64, a: Activity, ts: seq<Trade>)
    requires Reflects(s, ts)
    ensures Reflects(After(s, now, a), ts + TradesOf(a))
  {
    hide Reflects, TotalScore, Tally;
    match a
    case OneTrade(t) =>
      TallyReflects(s, ts, t);
      ReflectsFrame(Tally(s, t), After(s, now, a), ts + [t]);
    case ManyTrades(more) =>
      TallyAllReflects(s, ts, more);
      ReflectsFrame(TallyAll(s, more), After(s, now, a), ts + more);
    case Module =>
      ReflectsFrame(s, After(s, now, a), ts);
      assert ts + [] == ts;
    case Community =>
      ReflectsFrame(s, After(s, now, a), ts);
      assert ts + [] == ts;
  }

  /** Everything a user traded in a run since registering. */
  ghost function HistoryOf(s0: State, calls: seq<Call>, user: Address): seq<Trade> {
    if calls == [] then []
    else
      var init, last := calls[..|calls| - 1], calls[|calls| - 1];
      HistoryOf(s0, init, user)
      + if last.Perform? && last.user == user && user in Run(s0, init).stats then TradesOf(last.activity) else []
  }

  /** One call's effect on a user's statistics. */
  ghost predicate StatsStep(s: State, c: Call, t: State, user: Address) {
    if c.Perform? && c.user == user && user in s.stats then
      user in t.stats && t.stats[user] == After(s.stats[user], c.now, c.activity)
    else if user in s.stats then
      user in t.stats && (t.stats[user] == s.stats[user] || t.stats[user] == Win(s.stats[user]))
    else user in t.stats ==> c.Register? && t.stats[user] == NewPlayer(s.totalModules, c.now)
  }

  /** Issuing badges writes the badge lists, the pool and what was paid. */
  lemma {:induction false} IssueAllFrame(s: State, user: Address, bs: seq<Badge>)
    ensures var t := IssueAll(s, user, bs);
            t == s.(pool := t.pool, distributed := t.distributed, badges := t.badges)
  {
    hide RewardOf, WrapI128;
    if bs != [] {
      IssueAllFrame(s, user, bs[..|bs| - 1]);
    }
  }

  lemma StepStats(s: State, c: Call, user: Address)
    ensures StatsStep(s, c, Step(s, c), user)
  {
    hide After, Win, IssueAll, Evaluated, RewardOf, Redefined, Defines, WrapI128;
    if c.CheckBadges? && c.user in s.stats {
      IssueAllFrame(s, c.user, Evaluated(s.stats[c.user], BadgesOf(s, c.user), |CHECKS|));
    }
  }

  lemma NewReflects(totalModules: nat, now: u64)
    ensures Reflects(NewPlayer(totalModules, now), [])
  {
    assert RunAt([], 0, 0);
  }

  lemma WinReflects(s: Stats, ts: seq<Trade>)
    requires Reflects(s, ts)
    ensures Reflects(Win(s), ts)
  {
    hide Reflects, TotalScore;
    ReflectsFrame(s, Win(s), ts);
  }

  /**
   In every run a player's current streak is the run of successes that ends its trades, and the best
   streak the longest run of successes anywhere in them, whether recorded singly or in batches.
   */
  lemma {:induction false} RunStreaks(admin: Address, totalModules: nat, calls: seq<Call>, user: Address)
    ensures var s0 := Initialized(admin, totalModules);
            var s := Run(s0, calls);
            && (user in s.stats ==> Reflects(s.stats[user], HistoryOf(s0, calls, user)))
            && (user !in s.stats ==> HistoryOf(s0, calls, user) == [])
  {
    hide Step, Reflects, After, Win, NewPlayer, TradesOf;
    var s0 := Initialized(admin, totalModules);
    if calls != [] {
      var init, last := calls[..|calls| - 1], calls[|calls| - 1];
      RunStreaks(admin, totalModules, init, user);
      var before, ts := Run(s0, init), HistoryOf(s0, init, user);
      StepStats(before, last, user);
      assert ts + [] == ts;
      if user in before.stats {
        WinReflects(before.stats[user], ts);
        if last.Perform? {
          ActivityReflects(before.stats[user], last.now, last.activity, ts);
        }
      } else if last.Register? {
        NewReflects(before.totalModules, last.now);
      }
    }
  }

  // ---------------------------------------------------------------------------------------------
  // Scores
  // ---------------------------------------------------------------------------------------------

  lemma LearnInRange(modules: nat, total: nat)
    ensures 0 <= LearnScore(modules, total) <= 15
  {
    if total > 0 {
      FloorIff(0, modules * 15, total);
    }
  }

  /** The largest return whose product with the top score of 30 fits. */
  const MAX_ROI: i128 := I128_MAX / 30

  lemma RoiInRange(roi: i128)
    requires roi <= MAX_ROI
    ensures 0 <= RoiScore(roi) <= 30
  {
    if roi > 0 {
      assert WrapI128(roi * 30) == roi * 30;
    }
  }

  lemma ScoreInRange(s: Stats)
    requires s.bestRoi <= MAX_ROI
    ensures 0 <= TotalScore(s) <= 100
  {
    hide LearnScore, RoiScore;
    LearnInRange(s.modules, s.totalModules);
    RoiInRange(s.bestRoi);
  }

  /** One more than that, and the product wraps to the far end. */
  lemma WrappedRoi()
    ensures RoiScore(MAX_ROI + 1) < -1000
  {
  }

  /** A stored score is current, the tier is that of the score, and the score in range for returns in range. */
  ghost predicate Graded(s: Stats) {
    Current(s) && (s.bestRoi <= MAX_ROI ==> 0 <= s.score <= 100)
  }

  lemma ScoredGraded(s: Stats)
    ensures Graded(Scored(s))
  {
    hide TotalScore;
    TotalScoreFrame(s, Scored(s));
    if s.bestRoi <= MAX_ROI {
      ScoreInRange(s);
    }
  }

  lemma ActivityGraded(s: Stats, now: u64, a: Activity)
    ensures Graded(After(s, now, a)) && Graded(Win(s))
  {
    hide Scored, Graded, Tally, TallyAll;
    ScoredGraded(s.(won := s.won + 1));
    match a
    case OneTrade(t) => ScoredGraded(Tally(s, t).(lastActive := now));
    case ManyTrades(ts) => ScoredGraded(TallyAll(s, ts).(lastActive := now));
    case Module =>
      ScoredGraded(s.(lastActive := now));
      ScoredGraded(s.(modules := s.modules + 1).(lastActive := now));
    case Community => ScoredGraded(s.(community := s.community + 1).(lastActive := now));
  }

  lemma NewGraded(totalModules: nat, now: u64)
    ensures Graded(NewPlayer(totalModules, now))
  {
    LearnInRange(0, totalModules);
    if totalModules > 0 {
      FloorIff(1, 0, totalModules);
    }
  }

  lemma {:induction false} StatsGraded(admin: Address, totalModules: nat, calls: seq<Call>, user: Address)
    requires user in Run(Initialized(admin, totalModules), calls).stats
    ensures Graded(Run(Initialized(admin, totalModules), calls).stats[user])
  {
    hide Step, Graded, After, Win, NewPlayer;
    var init, last := calls[..|calls| - 1], calls[|calls| - 1];
    var before := Run(Initialized(admin, totalModules), init);
    StepStats(before, last, user);
    if user in before.stats {
      StatsGraded(admin, totalModules, init, user);
      ActivityGraded(before.stats[user], if last.Perform? then last.now else 0,
                     if last.Perform? then last.activity else Module);
    } else {
      NewGraded(before.totalModules, last.now);
    }
  }

  /** The best return of a trading history, or zero. */
  function BestRoi(ts: seq<Trade>): i128 {
    if ts == [] then 0
    else
      var before, last := BestRoi(ts[..|ts| - 1]), ts[|ts| - 1].roi;
      if last > before then last else before
  }

  lemma {:induction false} TallyAllBest(s: Stats, ts: seq<Trade>, more: seq<Trade>)
    requires s.bestRoi == BestRoi(ts)
    ensures TallyAll(s, more).bestRoi == BestRoi(ts + more)
  {
    if more == [] {
      assert ts + more == ts;
    } else {
      var init, last := more[..|more| - 1], more[|more| - 1];
      TallyAllBest(s, ts, init);
      assert (ts + more)[..|ts + more| - 1] == ts + init;
    }
  }

  lemma ActivityBest(s: Stats, now: u64, a: Activity, ts: seq<Trade>)
    requires s.bestRoi == BestRoi(ts)
    ensures After(s, now, a).bestRoi == BestRoi(ts + TradesOf(a)) && Win(s).bestRoi == s.bestRoi
  {
    hide BestRoi, TotalScore;
    match a
    case OneTrade(t) =>
      TallyAllBest(s, ts, [t]);
      assert [t][..0] == [] && TallyAll(s, [t]) == Tally(TallyAll(s, []), t);
    case ManyTrades(more) => TallyAllBest(s, ts, more);
    case Module => assert ts + [] == ts;
    case Community => assert ts + [] == ts;
  }

  /** In every run a player's best return is the best of its trades, or zero. */
  lemma {:induction false} RunBestRoi(admin: Address, totalModules: nat, calls: seq<Call>, user: Address)
    ensures var s0 := Initialized(admin, totalModules);
            && (user in Run(s0, calls).stats ==>
                  Run(s0, calls).stats[user].bestRoi == BestRoi(HistoryOf(s0, calls, user)))
            && (user !in Run(s0, calls).stats ==> HistoryOf(s0, calls, user) == [])
  {
    hide Step, After, Win, TradesOf, BestRoi;
    var s0 := Initialized(admin, totalModules);
    NoTrades();
    if calls != [] {
      var init, last := calls[..|calls| - 1], calls[|calls| - 1];
      RunBestRoi(admin, totalModules, init, user);
      var before, ts := Run(s0, init), HistoryOf(s0, init, user);
      StepStats(before, last, user);
      assert ts + [] == ts;
      if user in before.stats {
        ActivityBest(before.stats[user], if last.Perform? then last.now else 0,
                     if last.Perform? then last.activity else Module, ts);
      }
    }
  }

  lemma NoTrades()
    ensures BestRoi([]) == 0
  {
  }

  /** No trade returned more than this. */
  ghost predicate RoiBounded(ts: seq<Trade>, bound: i128) {
    forall t :: t in ts ==> t.roi <= bound
  }

  lemma {:induction false} BestBounded(ts: seq<Trade>, bound: i128)
    requires RoiBounded(ts, bound) && 0 <= bound
    ensures BestRoi(ts) <= bound
  {
    if ts != [] {
      BestBounded(ts[..|ts| - 1], bound);
    }
  }

  /**
   In every run every player's score is the one of its counters, with its tier, and between 0 and 100
   unless some trade returned more than I128_MAX / 30.
   */
  lemma RunGraded(admin: Address, totalModules: nat, calls: seq<Call>, user: Address)
    requires user in Run(Initialized(admin, totalModules), calls).stats
    ensures var s0 := Initialized(admin, totalModules);
            var p := Run(s0, calls).stats[user];
            Current(p) && (RoiBounded(HistoryOf(s0, calls, user), MAX_ROI) ==> 0 <= p.score <= 100)
  {
    hide Run, Current, BestRoi, HistoryOf, RoiBounded;
    StatsGraded(admin, totalModules, calls, user);
    RunBestRoi(admin, totalModules, calls, user);
    if RoiBounded(HistoryOf(Initialized(admin, totalModules), calls, user), MAX_ROI) {
      BestBounded(HistoryOf(Initialized(admin, totalModules), calls, user), MAX_ROI);
    }
  }

  /** As long as no trade returns more than the bound, every score of every run is between 0 and 100. */
  ghost predicate AlwaysInRange(admin: Address, totalModules: nat, bound: i128) {
    forall calls, user :: ScoresInRange(admin, totalModules, calls, user, bound)
  }

  ghost predicate ScoresInRange(admin: Address, totalModules: nat, calls: seq<Call>, user: Address, bound: i128) {
    var s0 := Initialized(admin, totalModules);
    user in Run(s0, calls).stats && RoiBounded(HistoryOf(s0, calls, user), bound) ==>
      0 <= Run(s0, calls).stats[user].score <= 100
  }

  /** A player registers and records one trade with the next larger return: the score is negative. */
  lemma WrappedScoreExample(admin: Address, totalModules: nat, now: u64, user: Address) returns (calls: seq<Call>)
    ensures var s0 := Initialized(admin, totalModules);
            && user in Run(s0, calls).stats && Run(s0, calls).stats[user].score < 0
            && HistoryOf(s0, calls, user) == [Trade(MAX_ROI + 1, true)]
  {
    var s0, t := Initialized(admin, totalModules), Trade(MAX_ROI + 1, true);
    var join, trade := Register(now, user), Perform(now, user, OneTrade(t));
    calls := [join, trade];
    assert calls[..1] == [join] && [join][..0] == [];
    var joined := Run(s0, [join]);
    assert joined == Step(Run(s0, []), join) == Step(s0, join);
    assert joined.stats == map[user := NewPlayer(totalModules, now)];
    assert Run(s0, calls) == Step(joined, trade);
    assert HistoryOf(s0, [join], user) == [];
    assert HistoryOf(s0, calls, user) == [] + [t];
    WrappedRoi();
    LearnInRange(0, totalModules);
    assert RecordTrade(NewPlayer(totalModules, now), now, t).bestRoi == MAX_ROI + 1;
    hide LearnScore, RoiScore;
  }

  /** A bound on returns keeps every score of every run in range if and only if it is at most I128_MAX / 30. */
  lemma InRangeIff(admin: Address, totalModules: nat, bound: i128)
    requires 0 <= bound
    ensures AlwaysInRange(admin, totalModules, bound) <==> bound <= MAX_ROI
  {
    hide Run, HistoryOf;
    if bound <= MAX_ROI {
      forall calls, user
        ensures ScoresInRange(admin, totalModules, calls, user, bound)
      {
        if user in Run(Initialized(admin, totalModules), calls).stats {
          RunGraded(admin, totalModules, calls, user);
        }
      }
    } else {
      var calls := WrappedScoreExample(admin, totalModules, 0, "");
      assert !ScoresInRange(admin, totalModules, calls, "", bound);
    }
  }

  // ---------------------------------------------------------------------------------------------
  // The leaderboard
  // ---------------------------------------------------------------------------------------------

  ghost predicate Descending(rows: seq<Row>) {
    forall i, j :: 0 <= i < j < |rows| ==> rows[i].key >= rows[j].key
  }

  /** The rows with a given key, in order. */
  function WithKey(rows: seq<Row>, key: int): seq<Row> {
    if rows == [] then []
    else WithKey(rows[..|rows| - 1], key) + if rows[|rows| - 1].key == key then [rows[|rows| - 1]] else []
  }

  lemma {:induction false} InsertKeys(rows: seq<Row>, r: Row)
    ensures forall x :: x in InsertRow(rows, r) ==> x in rows || x == r
  {
    if rows != [] && r.key > rows[|rows| - 1].key {
      InsertKeys(rows[..|rows| - 1], r);
    }
  }

  lemma {:induction false} InsertDescending(rows: seq<Row>, r: Row)
    requires Descending(rows)
    ensures Descending(InsertRow(rows, r))
  {
    if rows != [] && r.key > rows[|rows| - 1].key {
      var init, last := rows[..|rows| - 1], rows[|rows| - 1];
      InsertDescending(init, r);
      InsertKeys(init, r);
      var placed := InsertRow(init, r);
      forall i | 0 <= i < |placed|
        ensures placed[i].key >= last.key
      {
        assert placed[i] in placed;
      }
      assert InsertRow(rows, r) == placed + [last];
    }
  }

  lemma WithKeySnoc(rows: seq<Row>, r: Row, key: int)
    ensures WithKey(rows + [r], key) == WithKey(rows, key) + if r.key == key then [r] else []
  {
    assert (rows + [r])[..|rows|] == rows;
  }

  /** A row is moved up only past rows with other keys. */
  lemma {:induction false} InsertStable(rows: seq<Row>, r: Row, key: int)
    ensures WithKey(InsertRow(rows, r), key) == WithKey(rows, key) + if r.key == key then [r] else []
  {
    if rows == [] || r.key <= rows[|rows| - 1].key {
      WithKeySnoc(rows, r, key);
    } else {
      var init, last := rows[..|rows| - 1], rows[|rows| - 1];
      InsertStable(init, r, key);
      WithKeySnoc(InsertRow(init, r), last, key);
      WithKeySnoc(init, last, key);
      assert rows == init + [last];
      assert WithKey(init, key) + [] == WithKey(init, key);
    }
  }

  lemma {:induction false} InsertPermutes(rows: seq<Row>, r: Row)
    ensures multiset(InsertRow(rows, r)) == multiset(rows) + multiset{r}
  {
    if rows != [] && r.key > rows[|rows| - 1].key {
      InsertPermutes(rows[..|rows| - 1], r);
      assert rows == rows[..|rows| - 1] + [rows[|rows| - 1]];
    }
  }

  lemma {:induction false} RankedDescending(rows: seq<Row>)
    ensures Descending(Ranked(rows))
  {
    if rows != [] {
      RankedDescending(rows[..|rows| - 1]);
      hide Descending, InsertRow;
      InsertDescending(Ranked(rows[..|rows| - 1]), rows[|rows| - 1]);
    }
  }

  lemma {:induction false} RankedPermutes(rows: seq<Row>)
    ensures multiset(Ranked(rows)) == multiset(rows)
  {
    if rows != [] {
      hide InsertRow;
      var init, last := rows[..|rows| - 1], rows[|rows| - 1];
      RankedPermutes(init);
      InsertPermutes(Ranked(init), last);
      assert rows == init + [last];
    }
  }

  lemma {:induction false} RankedStable(rows: seq<Row>, key: int)
    ensures WithKey(Ranked(rows), key) == WithKey(rows, key)
  {
    if rows != [] {
      hide InsertRow;
      var init, last := rows[..|rows| - 1], rows[|rows| - 1];
      RankedStable(init, key);
      InsertStable(Ranked(init), last, key);
    }
  }

  /** The ranking is a permutation of the rows in descending order of key, and rows with equal keys keep
      their order. */
  lemma RankedExact(rows: seq<Row>, key: int)
    ensures Descending(Ranked(rows)) && multiset(Ranked(rows)) == multiset(rows)
    ensures WithKey(Ranked(rows), key) == WithKey(rows, key)
  {
    hide Descending, Ranked, WithKey;
    RankedDescending(rows);
    RankedPermutes(rows);
    RankedStable(rows, key);
  }

  lemma {:induction false} RangeJoin(ranked: seq<Row>, a: nat, b: nat, c: nat)
    requires a <= b <= c <= |ranked|
    ensures PlaceRange(ranked, a, b) + PlaceRange(ranked, b, c) == PlaceRange(ranked, a, c)
  {
  }

  /** The first n pages, each starting `step` after the one before. */
  function Pages(ranked: seq<Row>, step: nat, limit: nat, n: nat): seq<Placed> {
    if n == 0 then [] else Pages(ranked, step, limit, n - 1) + Page(ranked, (n - 1) * step, limit)
  }

  /** Successive pages join up to the ranking when they are as far apart as a page is long. */
  lemma {:induction false} PagesTile(ranked: seq<Row>, limit: nat, n: nat)
    ensures Pages(ranked, Min(limit, MAX_PAGE), limit, n)
            == PlaceRange(ranked, 0, Min(n * Min(limit, MAX_PAGE), |ranked|))
  {
    if n > 0 {
      var step := Min(limit, MAX_PAGE);
      PagesTile(ranked, limit, n - 1);
      assert n * step == (n - 1) * step + step;
      RangeJoin(ranked, 0, PageStart(|ranked|, (n - 1) * step), PageEnd(|ranked|, (n - 1) * step, limit));
    }
  }

  /** Page k of pages `step` apart shows position i. */
  predicate Shows(total: nat, step: nat, limit: nat, k: nat, i: nat) {
    PageStart(total, k * step) <= i < PageEnd(total, k * step, limit)
  }

  ghost predicate ShownOnce(total: nat, step: nat, limit: nat, i: nat) {
    exists k: nat :: Shows(total, step, limit, k, i) && forall j: nat :: Shows(total, step, limit, j, i) ==> j == k
  }

  ghost predicate Tiles(total: nat, step: nat, limit: nat) {
    forall i: nat :: i < total ==> ShownOnce(total, step, limit, i)
  }

  lemma ShowsIff(total: nat, step: nat, limit: nat, k: nat, i: nat)
    requires i < total
    ensures Shows(total, step, limit, k, i) <==> k * step <= i < k * step + Min(limit, MAX_PAGE)
  {
  }

  /** Blocks of one length that start at its multiples do not overlap. */
  lemma SameBlock(i: nat, step: nat, j: nat, k: nat)
    requires step > 0 && j * step <= i < j * step + step && k * step <= i < k * step + step
    ensures j == k
  {
    MulCancel(j, k, step);
    MulCancel(k, j, step);
  }

  lemma PageOf(total: nat, step: nat, limit: nat, i: nat)
    requires i < total && step == Min(limit, MAX_PAGE) > 0
    ensures ShownOnce(total, step, limit, i)
  {
    hide Shows;
    var k := i / step;
    FloorBracket(i, step);
    ShowsIff(total, step, limit, k, i);
    forall j: nat | Shows(total, step, limit, j, i)
      ensures j == k
    {
      ShowsIff(total, step, limit, j, i);
      SameBlock(i, step, j, k);
    }
  }

  lemma OnePage(total: nat, step: nat, limit: nat, i: nat)
    requires i < total <= Min(step, Min(limit, MAX_PAGE))
    ensures ShownOnce(total, step, limit, i)
  {
    hide Shows;
    ShowsIff(total, step, limit, 0, i);
    forall j: nat | Shows(total, step, limit, j, i)
      ensures j == 0
    {
      ShowsIff(total, step, limit, j, i);
      AtLeastOnce(j, step);
    }
  }

  /** When pages are closer than they are long, position `step` is on the first two of them. */
  lemma ShownTwice(total: nat, step: nat, limit: nat)
    requires 0 < step < Min(limit, MAX_PAGE) && step < total
    ensures !ShownOnce(total, step, limit, step)
  {
    hide Shows;
    ShowsIff(total, step, limit, 0, step);
    ShowsIff(total, step, limit, 1, step);
  }

  /** When they are further apart, the position after the first page is on none. */
  lemma NeverShown(total: nat, step: nat, limit: nat)
    requires Min(limit, MAX_PAGE) < step && Min(limit, MAX_PAGE) < total
    ensures !ShownOnce(total, step, limit, Min(limit, MAX_PAGE))
  {
    hide Shows;
    var length := Min(limit, MAX_PAGE);
    forall k: nat ensures !Shows(total, step, limit, k, length) {
      ShowsIff(total, step, limit, k, length);
      AtLeastOnce(k, step);
    }
  }

  /**
   Pages `step` apart show every position exactly once when and only when they are as far apart as a
   page is long, which is at most a hundred whatever the limit asked for, or all fits on the first page.
   */
  lemma TilesIff(total: nat, step: nat, limit: nat)
    requires total > 0 && step > 0
    ensures Tiles(total, step, limit)
            <==> (step == Min(limit, MAX_PAGE) || total <= Min(step, Min(limit, MAX_PAGE)))
  {
    hide ShownOnce;
    var length := Min(limit, MAX_PAGE);
    if step == length {
      forall i: nat | i < total ensures ShownOnce(total, step, limit, i) {
        PageOf(total, step, limit, i);
      }
    } else if total <= Min(step, length) {
      forall i: nat | i < total ensures ShownOnce(total, step, limit, i) {
        OnePage(total, step, limit, i);
      }
    } else if step < length {
      ShownTwice(total, step, limit);
    } else {
      NeverShown(total, step, limit);
    }
  }

  // ---------------------------------------------------------------------------------------------
  // Rewards
  // ---------------------------------------------------------------------------------------------

  /** What the administrator put into the pool. */
  ghost function Funded(s0: State, calls: seq<Call>): int {
    if calls == [] then 0
    else
      var init, last := calls[..|calls| - 1], calls[|calls| - 1];
      Funded(s0, init) + if last.Fund? && last.caller == s0.admin then last.amount else 0
  }

  /** Everything that was ever in the pool: still there, or with the users. */
  ghost function Wealth(s: State): int {
    s.pool + Total(s.distributed)
  }

  lemma PayWealth(s: State, user: Address, reward: int)
    ensures WrapI128(Wealth(Pay(s, user, reward))) == WrapI128(Wealth(s))
    ensures FitsI128(At(s.distributed, user) + reward) ==> Wealth(Pay(s, user, reward)) == Wealth(s)
  {
    hide Total;
    var received := At(s.distributed, user) + reward;
    TotalUpdate(s.distributed, user, WrapI128(received));
    var k := WrapShift(received);
    WrapMultiple(Wealth(s), -k);
  }

  /** Nobody holds or was paid a negative amount, and all of it together fits. */
  ghost predicate Solvent(s: State) {
    && s.pool >= 0 && Wealth(s) <= I128_MAX
    && (forall a :: a in s.distributed ==> s.distributed[a] >= 0)
    && (forall id :: id in s.challenges ==> s.challenges[id].reward > 0)
  }

  /** A payment the pool covers cannot overflow while everything together fits. */
  lemma PaySolvent(s: State, user: Address, reward: int)
    requires Solvent(s) && 0 <= reward <= s.pool
    ensures Solvent(Pay(s, user, reward)) && Wealth(Pay(s, user, reward)) == Wealth(s)
  {
    TotalNonNegative(s.distributed);
    hide Total;
    PayWealth(s, user, reward);
  }

  lemma IssueWealth(s: State, user: Address, b: Badge)
    ensures var t := Issue(s, user, b);
            && WrapI128(Wealth(t)) == WrapI128(Wealth(s)) && t.admin == s.admin
            && (Solvent(s) ==> Solvent(t) && Wealth(t) == Wealth(s))
  {
    hide RewardOf, Total, WrapI128;
    var reward := RewardOf(s.definitions, b);
    PayWealth(s, user, reward);
    if Solvent(s) && 0 < reward <= s.pool {
      PaySolvent(s, user, reward);
    }
  }

  lemma {:induction false} IssueAllWealth(s: State, user: Address, bs: seq<Badge>)
    ensures var t := IssueAll(s, user, bs);
            && WrapI128(Wealth(t)) == WrapI128(Wealth(s)) && t.admin == s.admin
            && (Solvent(s) ==> Solvent(t) && Wealth(t) == Wealth(s))
  {
    hide Wealth, Solvent, Issue, WrapI128;
    if bs != [] {
      IssueAllWealth(s, user, bs[..|bs| - 1]);
      IssueWealth(IssueAll(s, user, bs[..|bs| - 1]), user, bs[|bs| - 1]);
    }
  }

  lemma CheckWealth(s: State, user: Address)
    requires user in s.stats
    ensures var t := CheckAll(s, user).value;
            && WrapI128(Wealth(t)) == WrapI128(Wealth(s)) && t.admin == s.admin
            && (Solvent(s) ==> Solvent(t) && Wealth(t) == Wealth(s))
  {
    hide IssueAll, Evaluated, Total, WrapI128;
    IssueAllWealth(s, user, Evaluated(s.stats[user], BadgesOf(s, user), |CHECKS|));
  }

  lemma SolventFrame(s: State, t: State)
    requires Solvent(s) && t.pool == s.pool && t.distributed == s.distributed
    requires forall id :: id in t.challenges ==> t.challenges[id].reward > 0
    ensures Solvent(t) && Wealth(t) == Wealth(s)
  {
  }

  lemma AdvanceWealth(s: State, now: u64, user: Address, id: Symbol, increment: i128)
    requires Advance(s, now, user, id, increment).Ok?
    ensures var t := Advance(s, now, user, id, increment).value;
            && WrapI128(Wealth(t)) == WrapI128(Wealth(s)) && t.admin == s.admin
            && (Solvent(s) ==> Solvent(t) && Wealth(t) == Wealth(s))
  {
    hide Win, Total, WrapI128;
    var t, reward := Advance(s, now, user, id, increment).value, s.challenges[id].reward;
    var paid := Pay(s, user, reward);
    PayWealth(s, user, reward);
    if Solvent(s) {
      if reward <= s.pool {
        PaySolvent(s, user, reward);
      }
      SolventFrame(if t.pool == s.pool then s else paid, t);
    }
  }

  /** What one call puts into the pool. */
  function FundedBy(s: State, c: Call): int {
    if c.Fund? && c.caller == s.admin then c.amount else 0
  }

  lemma FundWealth(s: State, amount: i128)
    ensures var t := s.(pool := WrapI128(s.pool + amount));
            && WrapI128(Wealth(t)) == WrapI128(Wealth(s) + amount)
            && (Solvent(s) && 0 <= amount && Wealth(s) + amount <= I128_MAX ==>
                  Solvent(t) && Wealth(t) == Wealth(s) + amount)
  {
    var k := WrapShift(s.pool + amount);
    WrapMultiple(Wealth(s) + amount, -k);
    if Solvent(s) {
      TotalNonNegative(s.distributed);
    }
  }

  lemma StepWealth(s: State, c: Call)
    ensures var t := Step(s, c);
            && WrapI128(Wealth(t)) == WrapI128(Wealth(s) + FundedBy(s, c)) && t.admin == s.admin
            && (Solvent(s) && 0 <= FundedBy(s, c) && Wealth(s) + FundedBy(s, c) <= I128_MAX ==>
                  Solvent(t) && Wealth(t) == Wealth(s) + FundedBy(s, c))
  {
    hide After, Advance, CheckAll, Issue, Redefined, Defines, Total, WrapI128, Solvent;
    var t := Step(s, c);
    if Apply(s, c).Ok? {
      match c
      case CheckBadges(user) => CheckWealth(s, user) by { CheckNeeds(s, user); }
      case IssueBadge(_, user, b) => IssueWealth(s, user, b);
      case Progress(now, user, id, increment) => AdvanceWealth(s, now, user, id, increment);
      case TierPayout(user) =>
        PayWealth(s, user, TierReward(s.stats[user].tier));
        if Solvent(s) {
          PaySolvent(s, user, TierReward(s.stats[user].tier));
        }
      case Fund(_, amount) => FundWealth(s, amount);
      case _ =>
        if Solvent(s) {
          OthersSolvent(s, c);
        }
    }
  }

  lemma CheckNeeds(s: State, user: Address)
    ensures CheckAll(s, user).Ok? <==> user in s.stats
  {
    hide IssueAll, Evaluated;
  }

  lemma OthersSolvent(s: State, c: Call)
    requires Solvent(s) && !c.CheckBadges? && !c.IssueBadge? && !c.Progress? && !c.TierPayout? && !c.Fund?
    ensures Solvent(Step(s, c)) && Wealth(Step(s, c)) == Wealth(s)
  {
    hide After, Advance, CheckAll, Issue, Redefined, Defines, Total;
    SolventFrame(s, Step(s, c));
  }

  lemma InitialWealth(admin: Address, totalModules: nat)
    ensures Wealth(Initialized(admin, totalModules)) == INITIAL_POOL
  {
  }

  /** In every run the pool and all distributed rewards together are a million plus what was funded, up to
      multiples of 2^128. */
  lemma {:induction false} RunRewardsWrap(admin: Address, totalModules: nat, calls: seq<Call>)
    ensures var s0 := Initialized(admin, totalModules);
            && WrapI128(Wealth(Run(s0, calls))) == WrapI128(INITIAL_POOL + Funded(s0, calls))
            && Run(s0, calls).admin == admin
  {
    hide Step, Wealth, WrapI128;
    var s0 := Initialized(admin, totalModules);
    if calls == [] {
      InitialWealth(admin, totalModules);
    } else {
      var init, last := calls[..|calls| - 1], calls[|calls| - 1];
      RunRewardsWrap(admin, totalModules, init);
      StepWealth(Run(s0, init), last);
      WrapSum(Wealth(Run(s0, init)), FundedBy(Run(s0, init), last));
      WrapSum(INITIAL_POOL + Funded(s0, init), FundedBy(Run(s0, init), last));
    }
  }

  /** Nobody funds a negative amount. */
  ghost predicate FundsAdd(calls: seq<Call>) {
    forall k :: 0 <= k < |calls| && calls[k].Fund? ==> calls[k].amount >= 0
  }

  /** And exactly that, with a pool and payments that are never negative, while it fits. */
  lemma {:induction false} RunRewards(admin: Address, totalModules: nat, calls: seq<Call>)
    requires FundsAdd(calls) && INITIAL_POOL + Funded(Initialized(admin, totalModules), calls) <= I128_MAX
    ensures var s0 := Initialized(admin, totalModules);
            Solvent(Run(s0, calls)) && Wealth(Run(s0, calls)) == INITIAL_POOL + Funded(s0, calls)
  {
    var s0 := Initialized(admin, totalModules);
    if calls != [] {
      hide Step, Wealth, Solvent;
      var init, last := calls[..|calls| - 1], calls[|calls| - 1];
      assert last == calls[|calls| - 1];
      assert forall k :: 0 <= k < |init| ==> init[k] == calls[k];
      RunRewardsWrap(admin, totalModules, init);
      RunRewards(admin, totalModules, init);
      StepWealth(Run(s0, init), last);
    }
  }

  /** Every run that is funded with a given amount in all, never a negative one, accounts for all of it. */
  ghost predicate AlwaysAccounts(admin: Address, totalModules: nat, amount: i128) {
    var s0 := Initialized(admin, totalModules);
    forall calls :: FundsAdd(calls) && Funded(s0, calls) == amount ==>
      Wealth(Run(s0, calls)) == INITIAL_POOL + amount
  }

  /** They do so if and only if a million and that amount fit together. */
  lemma AccountsIff(admin: Address, totalModules: nat, amount: i128)
    requires 0 <= amount
    ensures AlwaysAccounts(admin, totalModules, amount) <==> INITIAL_POOL + amount <= I128_MAX
  {
    var s0 := Initialized(admin, totalModules);
    if INITIAL_POOL + amount <= I128_MAX {
      hide Run, Wealth, Funded, FundsAdd;
      forall calls | FundsAdd(calls) && Funded(s0, calls) == amount
        ensures Wealth(Run(s0, calls)) == INITIAL_POOL + amount
      {
        RunRewards(admin, totalModules, calls);
      }
    } else {
      var calls := [Fund(admin, amount)];
      assert calls[..0] == [];
      assert Run(s0, calls) == s0.(pool := WrapI128(INITIAL_POOL + amount));
      assert calls[0].amount == amount;
      assert Funded(s0, calls) == amount;
      assert Wealth(Run(s0, calls)) < 0;
    }
  }

  /** A challenge pays a player at most once: after completion, progress moves no reward. */
  lemma CompletedPaysNothing(s: State, now: u64, user: Address, id: Symbol, increment: i128)
    requires (id, user) in s.entries && s.entries[(id, user)].completed
    ensures var t := Step(s, Progress(now, user, id, increment));
            && t.pool == s.pool && t.distributed == s.distributed && t.stats == s.stats
            && (id, user) in t.entries && t.entries[(id, user)].completed
  {
  }

  lemma StepCompleted(s: State, c: Call, key: (Symbol, Address))
    requires key in s.entries && s.entries[key].completed
    ensures key in Step(s, c).entries && Step(s, c).entries[key].completed
  {
    hide After, Win, IssueAll, Evaluated, RewardOf, Redefined, Defines, WrapI128;
    if c.CheckBadges? && c.user in s.stats {
      IssueAllFrame(s, c.user, Evaluated(s.stats[c.user], BadgesOf(s, c.user), |CHECKS|));
    }
  }

  /** And a completed entry stays completed, so that holds from then on. */
  lemma {:induction false} CompletedForever(s: State, calls: seq<Call>, key: (Symbol, Address))
    requires key in s.entries && s.entries[key].completed
    ensures key in Run(s, calls).entries && Run(s, calls).entries[key].completed
  {
    hide Step;
    if calls != [] {
      CompletedForever(s, calls[..|calls| - 1], key);
      StepCompleted(Run(s, calls[..|calls| - 1]), calls[|calls| - 1], key);
    }
  }
}
