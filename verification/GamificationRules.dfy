/** What scores, tiers, rewards and the leaderboard are made of, and what each call asks and writes. */
module GamificationRules {
  import opened Wrappers
  import opened Checked
  import opened Host
  import opened Sums
  import opened Gamification
  import opened GamificationLaws

  // ---------------------------------------------------------------------------------------------
  // Scores and tiers
  // ---------------------------------------------------------------------------------------------

  /** A return scores 30 from 100 percent on, nothing unless it is positive, and in between in proportion. */
  lemma RoiMeans(roi: i128)
    requires roi <= MAX_ROI
    ensures RoiScore(roi) == 0 <== roi <= 0
    ensures RoiScore(roi) == 30 <==> roi >= 10000
    ensures 0 < roi < 10000 ==> RoiScore(roi) * 10000 <= 30 * roi < (RoiScore(roi) + 1) * 10000
  {
    if roi > 0 {
      FloorBracket(roi * 30, 10000);
    }
  }

  /** Learning scores 15 when every module is completed, and otherwise in proportion. */
  lemma LearnMeans(modules: nat, total: nat)
    ensures total == 0 ==> LearnScore(modules, total) == 0
    ensures total > 0 ==> (LearnScore(modules, total) == 15 <==> modules >= total)
    ensures total > modules ==>
              LearnScore(modules, total) * total <= 15 * modules < (LearnScore(modules, total) + 1) * total
  {
    if total > 0 {
      FloorBracket(modules * 15, total);
      FloorIff(15, modules * 15, total);
    }
  }

  /** The score is made of successful trades, the best return, the best streak, learning and community actions. */
  lemma ScoreMeans(s: Stats)
    ensures TotalScore(s) == (if s.successes >= 15 then 30 else 2 * s.successes) + RoiScore(s.bestRoi)
                             + (if s.bestStreak >= 5 then 15 else 3 * s.bestStreak)
                             + LearnScore(s.modules, s.totalModules)
                             + (if s.community >= 5 then 10 else 2 * s.community)
  {
  }

  /** It is the full hundred if and only if each part is at its most. */
  lemma FullMarksIff(s: Stats)
    requires s.bestRoi <= MAX_ROI
    ensures TotalScore(s) == 100
            <==> && s.successes >= 15 && s.bestRoi >= 10000 && s.bestStreak >= 5
                 && s.modules >= s.totalModules > 0 && s.community >= 5
  {
    hide RoiScore, LearnScore, TotalScore;
    ScoreMeans(s);
    RoiMeans(s.bestRoi);
    LearnMeans(s.modules, s.totalModules);
    PartsBounded(s);
  }

  lemma PartsBounded(s: Stats)
    ensures RoiScore(s.bestRoi) <= 30 && LearnScore(s.modules, s.totalModules) <= 15
  {
  }

  /** A player's tier in every run follows from its score by the thresholds 25, 50 and 75. */
  lemma RunTier(admin: Address, totalModules: nat, calls: seq<Call>, user: Address)
    requires user in Run(Initialized(admin, totalModules), calls).stats
    ensures var s := Run(Initialized(admin, totalModules), calls).stats[user];
            && (s.tier == Platinum <==> s.score >= 75) && (s.tier == Gold <==> 50 <= s.score < 75)
            && (s.tier == Silver <==> 25 <= s.score < 50) && (s.tier == Bronze <==> s.score < 25)
  {
    hide Run, TotalScore;
    StatsGraded(admin, totalModules, calls, user);
  }

  // ---------------------------------------------------------------------------------------------
  // Counters
  // ---------------------------------------------------------------------------------------------

  /** What a player's activities add to its counters. */
  datatype Counters = Counters(successes: nat, modules: nat, community: nat)

  function Successes(ts: seq<Trade>): nat {
    if ts == [] then 0 else Successes(ts[..|ts| - 1]) + if ts[|ts| - 1].success then 1 else 0
  }

  function Adding(k: Counters, a: Activity, totalModules: nat): Counters {
    match a
    case OneTrade(t) => k.(successes := k.successes + if t.success then 1 else 0)
    case ManyTrades(ts) => k.(successes := k.successes + Successes(ts))
    case Module => k.(modules := Min(k.modules + 1, totalModules))
    case Community => k.(community := k.community + 1)
  }

  /** The counters that the activities of a player in a run amount to, since it registered. */
  function Counted(s0: State, calls: seq<Call>, user: Address): Counters {
    if calls == [] then Counters(0, 0, 0)
    else
      var init, last := calls[..|calls| - 1], calls[|calls| - 1];
      var before := Counted(s0, init, user);
      if last.Perform? && last.user == user && user in Run(s0, init).stats then
        Adding(before, last.activity, s0.totalModules)
      else before
  }

  lemma {:induction false} TallySuccesses(s: Stats, ts: seq<Trade>)
    ensures var t := TallyAll(s, ts);
            && t.successes == s.successes + Successes(ts) && t.modules == s.modules
            && t.community == s.community && t.totalModules == s.totalModules
  {
    if ts != [] {
      TallySuccesses(s, ts[..|ts| - 1]);
    }
  }

  ghost predicate Counts(s: Stats, k: Counters, totalModules: nat) {
    && s.successes == k.successes && s.modules == k.modules <= totalModules && s.community == k.community
    && s.totalModules == totalModules
  }

  lemma ActivityCounts(s: Stats, k: Counters, now: u64, a: Activity, totalModules: nat)
    requires Counts(s, k, totalModules)
    ensures Counts(After(s, now, a), Adding(k, a, totalModules), totalModules)
  {
    hide TotalScore, TierOf;
    if a.ManyTrades? {
      TallySuccesses(s, a.trades);
    }
  }

  lemma StepTotal(s: State, c: Call)
    ensures Step(s, c).totalModules == s.totalModules
  {
    hide After, Win, IssueAll, Evaluated, RewardOf, Redefined, Defines, WrapI128;
    if c.CheckBadges? && c.user in s.stats {
      IssueAllFrame(s, c.user, Evaluated(s.stats[c.user], BadgesOf(s, c.user), |CHECKS|));
    }
  }

  lemma {:induction false} RunTotal(s0: State, calls: seq<Call>)
    ensures Run(s0, calls).totalModules == s0.totalModules
  {
    hide Step;
    if calls != [] {
      RunTotal(s0, calls[..|calls| - 1]);
      StepTotal(Run(s0, calls[..|calls| - 1]), calls[|calls| - 1]);
    }
  }

  /** In every run a player's counters are those of its activities: successful trades, modules up to their number, and
      community actions. */
  lemma {:induction false} RunCounters(admin: Address, totalModules: nat, calls: seq<Call>, user: Address)
    ensures var s0 := Initialized(admin, totalModules);
            var s, k := Run(s0, calls), Counted(s0, calls, user);
            && (user in s.stats ==> Counts(s.stats[user], k, totalModules))
            && (user !in s.stats ==> k == Counters(0, 0, 0))
  {
    hide Step, After, Adding, Counts, Win;
    var s0 := Initialized(admin, totalModules);
    if calls != [] {
      var init, last := calls[..|calls| - 1], calls[|calls| - 1];
      var before, k := Run(s0, init), Counted(s0, init, user);
      RunCounters(admin, totalModules, init, user);
      RunTotal(s0, init);
      StepStats(before, last, user);
      if user in before.stats {
        WinCounts(before.stats[user], k, totalModules);
        if last.Perform? {
          ActivityCounts(before.stats[user], k, last.now, last.activity, totalModules);
        }
      } else {
        NewCounts(totalModules, if last.Register? then last.now else 0);
      }
    }
  }

  lemma WinCounts(s: Stats, k: Counters, totalModules: nat)
    ensures Counts(s, k, totalModules) ==> Counts(Win(s), k, totalModules)
  {
    hide TotalScore, TierOf;
  }

  lemma NewCounts(totalModules: nat, now: u64)
    ensures Counts(NewPlayer(totalModules, now), Counters(0, 0, 0), totalModules)
  {
  }

  /** Every registered player is listed, once. */
  ghost predicate Roster(s: State) {
    && (forall i, j :: 0 <= i < j < |s.users| ==> s.users[i] != s.users[j])
    && (forall a :: a in s.users <==> a in s.stats)
  }

  lemma StepRoster(s: State, c: Call)
    requires Roster(s)
    ensures Roster(Step(s, c))
  {
    hide After, Win, IssueAll, Evaluated, RewardOf, Redefined, Defines, WrapI128;
    if c.CheckBadges? && c.user in s.stats {
      IssueAllFrame(s, c.user, Evaluated(s.stats[c.user], BadgesOf(s, c.user), |CHECKS|));
    }
  }

  /** So the leaderboard of any run is made of all registered players, each once. */
  lemma {:induction false} RunRoster(admin: Address, totalModules: nat, calls: seq<Call>)
    ensures Roster(Run(Initialized(admin, totalModules), calls))
  {
    hide Step;
    if calls != [] {
      RunRoster(admin, totalModules, calls[..|calls| - 1]);
      StepRoster(Run(Initialized(admin, totalModules), calls[..|calls| - 1]), calls[|calls| - 1]);
    }
  }

  /** A player registers once, with empty counters. */
  lemma RegisterIff(s: State, now: u64, user: Address)
    ensures var r := Apply(s, Register(now, user));
            && (r.Ok? <==> user !in s.stats)
            && (r.Ok? ==>
                  && r.value == s.(stats := r.value.stats, users := r.value.users)
                  && r.value.stats == s.stats[user := Stats(0, 0, 0, 0, 0, 0, s.totalModules, 0, 0, Bronze, 0, now)])
  {
  }

  // ---------------------------------------------------------------------------------------------
  // Rewards and challenges
  // ---------------------------------------------------------------------------------------------

  /** A tier pays 10, 25, 50 or 100 from the pool to its player, or the call fails when the pool has less. */
  lemma TierPayoutIff(s: State, user: Address)
    ensures var r := Apply(s, TierPayout(user));
            user in s.stats ==>
              var reward := match s.stats[user].tier
                            case Bronze => 10
                            case Silver => 25
                            case Gold => 50
                            case Platinum => 100;
              && (r.Ok? <==> s.pool >= reward)
              && (r.Ok? ==> r.value == s.(pool := s.pool - reward,
                                          distributed := s.distributed[user
                                            := WrapI128(At(s.distributed, user) + reward)]))
    ensures user !in s.stats ==> Apply(s, TierPayout(user)) == Err(UserNotFound)
  {
  }

  /** Only the administrator funds the pool, creates challenges of a positive target, reward and duration, and ends
      them. */
  lemma AdministerIff(s: State, c: Call)
    requires c.Fund? || c.CreateChallenge? || c.EndChallenge?
    ensures Apply(s, c).Ok? <==>
              && c.caller == s.admin && (c.EndChallenge? ==> c.id in s.challenges)
              && (c.CreateChallenge? ==> c.start < c.end && c.target > 0 && c.reward > 0)
    ensures Apply(s, c).Ok? ==>
              Step(s, c) == if c.Fund? then s.(pool := WrapI128(s.pool + c.amount))
                            else if c.CreateChallenge? then
                              s.(challenges := s.challenges[c.id
                                   := Challenge(c.target, c.reward, c.start, c.end, true)])
                            else s.(challenges := s.challenges[c.id := s.challenges[c.id].(active := false)])
  {
  }

  /** A challenge is joined once, within its time. */
  lemma JoinIff(s: State, now: u64, user: Address, id: Symbol)
    ensures var r := Apply(s, Join(now, user, id));
            && (r.Ok? <==> && id in s.challenges && s.challenges[id].start <= now <= s.challenges[id].end
                           && (id, user) !in s.entries)
            && (r.Ok? ==> r.value == s.(entries := s.entries[(id, user) := Entry(0, false, 0)]))
  {
  }

  /** Progress counts for who joined, in an active challenge, within its time. The first time that it reaches the target
      the entry is completed, a win counted, and the reward paid to the player if the pool has it. */
  lemma ProgressMeans(s: State, now: u64, user: Address, id: Symbol, increment: i128)
    ensures var r := Apply(s, Progress(now, user, id, increment));
            && (r.Ok? ==>
                  && id in s.challenges && s.challenges[id].active && (id, user) in s.entries
                  && s.challenges[id].start <= now <= s.challenges[id].end
                  && var c, e := s.challenges[id], s.entries[(id, user)];
                     var value := WrapI128(e.value + increment);
                     if value < c.target || e.completed then
                       r.value == s.(entries := s.entries[(id, user) := e.(value := value)])
                     else
                       && user in s.stats && user in r.value.stats
                       && r.value.stats == s.stats[user := r.value.stats[user]]
                       && r.value.stats[user].won == s.stats[user].won + 1
                       && r.value.entries == s.entries[(id, user) := Entry(value, true, now)]
                       && r.value.challenges == s.challenges
                       && if s.pool < c.reward then r.value.pool == s.pool && r.value.distributed == s.distributed
                          else
                            && r.value.pool == s.pool - c.reward
                            && r.value.distributed
                               == s.distributed[user := WrapI128(At(s.distributed, user) + c.reward)])
  {
    hide TotalScore, TierOf, WrapI128;
  }

  // ---------------------------------------------------------------------------------------------
  // The leaderboard
  // ---------------------------------------------------------------------------------------------

  /** What players are ranked by. */
  function Ranking(s: Stats, m: Metric): int {
    match m
    case ByScore => s.score
    case ByTrades => s.successes
    case ByRoi => s.bestRoi
    case ByStreak => s.bestStreak
  }

  lemma {:induction false} RowsMean(stats: map<Address, Stats>, users: seq<Address>, m: Metric, r: Row)
    requires r in RowsOf(stats, users, m)
    ensures r.user in users && r.user in stats
    ensures var s := stats[r.user];
            && r.key == Ranking(s, m) && r.score == s.score && r.trades == s.successes && r.roi == s.bestRoi
            && r.streak == s.bestStreak
  {
    var n := |users| - 1;
    assert users == users[..n] + [users[n]];
    if r in RowsOf(stats, users[..n], m) {
      RowsMean(stats, users[..n], m, r);
    }
  }

  /** Nobody on the leaderboard is shown before someone with more of what it is ranked by: the score, successful
      trades, the best return or the best streak. Each line shows its player's own numbers. */
  lemma LeaderboardMeans(stats: map<Address, Stats>, users: seq<Address>, m: Metric, i: nat, j: nat)
    requires i <= j < |Ranked(RowsOf(stats, users, m))|
    ensures var rows := Ranked(RowsOf(stats, users, m));
            && rows[i].user in stats && rows[j].user in stats
            && var a, b, p := stats[rows[i].user], stats[rows[j].user], Place(rows, i);
               && (match m
                   case ByScore => a.score >= b.score
                   case ByTrades => a.successes >= b.successes
                   case ByRoi => a.bestRoi >= b.bestRoi
                   case ByStreak => a.bestStreak >= b.bestStreak)
               && p.rank == i + 1 && p.user == rows[i].user && p.score == a.score && p.trades == a.successes
               && p.roi == a.bestRoi && p.streak == a.bestStreak
               && (p.tier == Platinum <==> a.score >= 75) && (p.tier == Gold <==> 50 <= a.score < 75)
               && (p.tier == Silver <==> 25 <= a.score < 50) && (p.tier == Bronze <==> a.score < 25)
  {
    hide Ranked, RowsOf;
    var rows := Ranked(RowsOf(stats, users, m));
    RankedExact(RowsOf(stats, users, m), 0);
    assert rows[i] in multiset(rows) && rows[j] in multiset(rows);
    RowsMean(stats, users, m, rows[i]);
    RowsMean(stats, users, m, rows[j]);
  }
}
