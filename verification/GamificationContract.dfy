/** The gamification contract's stored entries, its entry points, and the in-place leaderboard sort. */
module GamificationContract {
  import opened Wrappers
  import opened Checked
  import opened Host
  import opened Sums
  import opened Gamification
  import opened GamificationLaws

  /** Position j is where a row that moves up from the end comes to rest. */
  lemma {:induction false} InsertRowAt(rows: seq<Row>, r: Row, j: nat)
    requires j <= |rows| && (forall k :: j <= k < |rows| ==> r.key > rows[k].key)
    requires j > 0 ==> r.key <= rows[j - 1].key
    ensures InsertRow(rows, r) == rows[..j] + [r] + rows[j..]
  {
    if j < |rows| {
      var init, last := rows[..|rows| - 1], rows[|rows| - 1];
      InsertRowAt(init, r, j);
      assert InsertRow(rows, r) == InsertRow(init, r) + [last];
      hide InsertRow;
      assert rows[j..] == init[j..] + [last] && rows[..j] == init[..j];
    }
  }

  /** One swap moves the key from position j to j - 1 among the ranked rows. */
  lemma SwapDown(ranked: seq<Row>, key: Row, tail: seq<Row>, j: nat)
    requires 0 < j <= |ranked|
    ensures var before := ranked[..j] + [key] + ranked[j..] + tail;
            && before[j - 1] == ranked[j - 1]
            && before[j := ranked[j - 1]][j - 1 := key] == ranked[..j - 1] + [key] + ranked[j - 1..] + tail
  {
    var before := ranked[..j] + [key] + ranked[j..] + tail;
    var after := ranked[..j - 1] + [key] + ranked[j - 1..] + tail;
    assert |before| == |after|;
    forall k | 0 <= k < |after|
      ensures before[j := ranked[j - 1]][j - 1 := key][k] == after[k]
    {
    }
  }

  /** Swap the row at i down to its place among the rows before it, which are ranked. */
  method SinkInto(entries: seq<Row>, i: nat) returns (out: seq<Row>)
    requires 0 < i < |entries|
    ensures out == InsertRow(entries[..i], entries[i]) + entries[i + 1..]
  {
    var ranked, key, tail := entries[..i], entries[i], entries[i + 1..];
    out := entries;
    var j := i;
    while j > 0 && key.key > out[j - 1].key
      invariant 0 <= j <= i && out == ranked[..j] + [key] + ranked[j..] + tail
      invariant forall k :: j <= k < i ==> key.key > ranked[k].key
    {
      SwapDown(ranked, key, tail, j);
      var prev := out[j - 1];
      out := out[j := prev];
      out := out[j - 1 := key];
      j := j - 1;
    }
    InsertRowAt(ranked, key, j);
  }

  method SortEntries(rows: seq<Row>) returns (entries: seq<Row>)
    ensures entries == Ranked(rows)
  {
    entries := rows;
    if rows == [] {
      return;
    }
    assert rows[..1][..0] == [] && Ranked(rows[..1]) == [rows[0]];
    var i := 1;
    while i < |entries|
      invariant 1 <= i <= |rows| == |entries|
      invariant entries == Ranked(rows[..i]) + rows[i..]
    {
      assert rows[..i + 1][..i] == rows[..i];
      assert entries[..i] == Ranked(rows[..i]) && entries[i] == rows[i] && entries[i + 1..] == rows[i + 1..];
      entries := SinkInto(entries, i);
      i := i + 1;
    }
    assert rows[..|rows|] == rows;
  }

  /** The first definition of a badge is at position i. */
  lemma {:induction false} RedefinedAt(defs: seq<Definition>, b: Badge, reward: i128, active: bool, i: nat)
    requires i < |defs| && defs[i].badge == b && forall k :: 0 <= k < i ==> defs[k].badge != b
    ensures Redefined(defs, b, reward, active) == defs[i := Definition(b, reward, active)]
  {
    if i > 0 {
      RedefinedAt(defs[1..], b, reward, active, i - 1);
      assert defs[i := Definition(b, reward, active)]
          == [defs[0]] + defs[1..][i - 1 := Definition(b, reward, active)];
    }
  }

  lemma IssueNone(s: State, user: Address)
    ensures IssueAll(s, user, []) == s
  {
  }

  lemma IssueStep(s: State, user: Address, bs: seq<Badge>, i: nat)
    requires i < |bs|
    ensures IssueAll(s, user, bs[..i + 1]) == Issue(IssueAll(s, user, bs[..i]), user, bs[i])
  {
    assert bs[..i + 1][..i] == bs[..i];
  }

  lemma IssueParts(s: State, user: Address, b: Badge)
    ensures var t, reward := Issue(s, user, b), RewardOf(s.definitions, b);
            && t.badges == s.badges[user := BadgesOf(s, user) + [b]] && t.definitions == s.definitions
            && t.pool == (if 0 < reward <= s.pool then s.pool - reward else s.pool)
            && t.distributed == if 0 < reward <= s.pool
                                then s.distributed[user := WrapI128(At(s.distributed, user) + reward)]
                                else s.distributed
  {
    hide RewardOf, WrapI128;
  }

  lemma IssueApplies(s: State, caller: Address, user: Address, b: Badge)
    ensures Apply(s, Call.IssueBadge(caller, user, b)) == IssueOne(s, caller, user, b)
    ensures var t := Issue(s, user, b);
            t == s.(pool := t.pool, distributed := t.distributed, badges := t.badges)
  {
    hide RewardOf, WrapI128;
  }

  class GamificationEngine {
    const admin: Address
    const totalModules: nat
    var stats: map<Address, Stats>
    var users: seq<Address>
    var pool: int
    var distributed: map<Address, int>
    var challenges: map<Symbol, Challenge>
    var entries: map<(Symbol, Address), Entry>
    var badges: map<Address, seq<Badge>>
    var definitions: seq<Definition>

    function View(): State
      reads this
    {
      State(admin, totalModules, stats, users, pool, distributed, challenges, entries, badges, definitions)
    }

    constructor (admin: Address, totalModules: nat)
      ensures View() == Initialized(admin, totalModules)
    {
      this.admin, this.totalModules := admin, totalModules;
      stats, users, pool, distributed, challenges, entries := map[], [], 1000000, map[], map[], map[];
      badges, definitions := map[], DEFAULT_BADGES;
    }

    method RegisterUser(now: u64, user: Address) returns (r: Result<(), Error>)
      modifies this`stats, this`users
      ensures r == Apply(old(View()), Register(now, user)).Map((_: State) => ())
      ensures View() == Step(old(View()), Register(now, user))
    {
      if user in stats {
        return Err(UserAlreadyRegistered);
      }
      stats := stats[user := Stats(0, 0, 0, 0, 0, 0, totalModules, 0, 0, Bronze, 0, now)];
      if user !in users {
        users := users + [user];
      }
      return Ok(());
    }

    method RecordTrade(now: u64, user: Address, roi: i128, successful: bool) returns (r: Result<int, Error>)
      modifies this`stats
      ensures r == Apply(old(View()), Perform(now, user, OneTrade(Trade(roi, successful))))
                   .Map((t: State) => if user in t.stats then t.stats[user].score else 0)
      ensures View() == Step(old(View()), Perform(now, user, OneTrade(Trade(roi, successful))))
    {
      hide TotalScore, TierOf;
      if user !in stats {
        return Err(UserNotFound);
      }
      var s := stats[user];
      s := s.(tradeCount := s.tradeCount + 1);
      if successful {
        s := s.(successes := s.successes + 1, streak := s.streak + 1);
        if s.streak > s.bestStreak {
          s := s.(bestStreak := s.streak);
        }
      } else {
        s := s.(streak := 0);
      }
      if roi > s.bestRoi {
        s := s.(bestRoi := roi);
      }
      s := s.(lastActive := now);
      s := s.(score := TotalScore(s));
      s := s.(tier := TierOf(s.score));
      stats := stats[user := s];
      return Ok(s.score);
    }

    method RecordTradesBatch(now: u64, user: Address, trades: seq<Trade>) returns (r: Result<int, Error>)
      modifies this`stats
      ensures r == Apply(old(View()), Perform(now, user, ManyTrades(trades)))
                   .Map((t: State) => if user in t.stats then t.stats[user].score else 0)
      ensures View() == Step(old(View()), Perform(now, user, ManyTrades(trades)))
    {
      hide TotalScore, TierOf;
      if user !in stats {
        return Err(UserNotFound);
      }
      var s := stats[user];
      for i := 0 to |trades|
        invariant s == TallyAll(stats[user], trades[..i])
      {
        assert trades[..i + 1][..i] == trades[..i];
        s := s.(tradeCount := s.tradeCount + 1);
        if trades[i].success {
          s := s.(successes := s.successes + 1, streak := s.streak + 1);
          if s.streak > s.bestStreak {
            s := s.(bestStreak := s.streak);
          }
        } else {
          s := s.(streak := 0);
        }
        if trades[i].roi > s.bestRoi {
          s := s.(bestRoi := trades[i].roi);
        }
      }
      assert trades[..|trades|] == trades;
      hide TallyAll;
      s := s.(lastActive := now);
      s := s.(score := TotalScore(s));
      s := s.(tier := TierOf(s.score));
      stats := stats[user := s];
      return Ok(s.score);
    }

    method CompleteLearningModule(now: u64, user: Address) returns (r: Result<(), Error>)
      modifies this`stats
      ensures r == Apply(old(View()), Perform(now, user, Module)).Map((_: State) => ())
      ensures View() == Step(old(View()), Perform(now, user, Module))
    {
      hide TotalScore, TierOf;
      if user !in stats {
        return Err(UserNotFound);
      }
      var s := stats[user];
      if s.modules < s.totalModules {
        s := s.(modules := s.modules + 1);
      }
      s := s.(lastActive := now);
      s := s.(score := TotalScore(s));
      s := s.(tier := TierOf(s.score));
      stats := stats[user := s];
      return Ok(());
    }

    method EvaluateBadges(user: Address, s: Stats) returns (found: seq<Badge>)
      ensures found == Evaluated(s, BadgesOf(View(), user), |CHECKS|)
    {
      var earned := if user in badges then badges[user] else [];
      found := [];
      for i := 0 to |CHECKS|
        invariant found == Evaluated(s, earned, i)
      {
        if Earns(s, CHECKS[i]) && CHECKS[i] !in earned {
          found := found + [CHECKS[i]];
        }
      }
    }

    /** The reward of the first definition of a badge. */
    method FindBadgeReward(b: Badge) returns (reward: i128)
      ensures reward == RewardOf(definitions, b)
    {
      for i := 0 to |definitions|
        invariant RewardOf(definitions, b) == RewardOf(definitions[i..], b)
      {
        if definitions[i].badge == b {
          return definitions[i].reward;
        }
      }
      return 0;
    }

    method CheckAndIssueBadges(user: Address) returns (r: Result<seq<Badge>, Error>)
      modifies this`pool, this`distributed, this`badges
      ensures r == Apply(old(View()), CheckBadges(user)).Map((t: State) => BadgesOf(t, user))
      ensures View() == Step(old(View()), CheckBadges(user))
    {
      hide RewardOf, Evaluated, IssueAll, Issue, WrapI128;
      if user !in stats {
        return Err(UserNotFound);
      }
      ghost var s := View();
      var earned := EvaluateBadges(user, stats[user]);
      var ids := if user in badges then badges[user] else [];
      ghost var t := s;
      IssueNone(s, user);
      assert earned[..0] == [];
      for i := 0 to |earned|
        invariant t == IssueAll(s, user, earned[..i]) && t.definitions == definitions
        invariant t.pool == pool && t.distributed == distributed
        invariant ids == BadgesOf(t, user) && t.badges[user := ids] == badges[user := ids]
        invariant View() == s.(pool := pool, distributed := distributed)
      {
        IssueStep(s, user, earned, i);
        IssueParts(t, user, earned[i]);
        assert t.badges[user := ids + [earned[i]]] == badges[user := ids][user := ids + [earned[i]]];
        t := Issue(t, user, earned[i]);
        var reward := FindBadgeReward(earned[i]);
        ids := ids + [earned[i]];
        if reward > 0 {
          if pool >= reward {
            pool := pool - reward;
            distributed := distributed[user := WrapI128(At(distributed, user) + reward)];
          }
        }
      }
      assert earned[..|earned|] == earned;
      IssueAllFrame(s, user, earned);
      badges := badges[user := ids];
      return Ok(ids);
    }

    method IssueBadge(caller: Address, user: Address, b: Badge) returns (r: Result<(), Error>)
      modifies this`pool, this`distributed, this`badges
      ensures r == Apply(old(View()), Call.IssueBadge(caller, user, b)).Map((_: State) => ())
      ensures View() == Step(old(View()), Call.IssueBadge(caller, user, b))
    {
      hide RewardOf, Issue, Apply, WrapI128;
      IssueParts(View(), user, b);
      IssueApplies(View(), caller, user, b);
      if caller != admin {
        return Err(AdminRequired);
      }
      var earned := if user in badges then badges[user] else [];
      if b in earned {
        return Err(BadgeAlreadyEarned);
      }
      if user !in stats {
        return Err(UserNotFound);
      }
      var reward := FindBadgeReward(b);
      badges := badges[user := earned + [b]];
      if reward > 0 {
        if pool >= reward {
          pool := pool - reward;
          distributed := distributed[user := WrapI128(At(distributed, user) + reward)];
        }
      }
      return Ok(());
    }

    method UpdateBadgeDefinition(caller: Address, b: Badge, reward: i128, active: bool) returns (r: Result<(), Error>)
      modifies this`definitions
      ensures r == Apply(old(View()), DefineBadge(caller, b, reward, active)).Map((_: State) => ())
      ensures View() == Step(old(View()), DefineBadge(caller, b, reward, active))
    {
      hide Redefined;
      if caller != admin {
        return Err(AdminRequired);
      }
      var i := 0;
      while i < |definitions|
        invariant i <= |definitions| && definitions == old(definitions)
        invariant forall k :: 0 <= k < i ==> definitions[k].badge != b
      {
        if definitions[i].badge == b {
          RedefinedAt(definitions, b, reward, active, i);
          definitions := definitions[i := Definition(b, reward, active)];
          return Ok(());
        }
        i := i + 1;
      }
      return Err(BadgeDefinitionNotFound);
    }

    method JoinChallenge(now: u64, user: Address, id: Symbol) returns (r: Result<(), Error>)
      modifies this`entries
      ensures r == Apply(old(View()), Join(now, user, id)).Map((_: State) => ())
      ensures View() == Step(old(View()), Join(now, user, id))
    {
      if id !in challenges {
        return Err(ChallengeNotFound);
      }
      var challenge := challenges[id];
      if now < challenge.start {
        return Err(ChallengeNotStarted);
      }
      if now > challenge.end {
        return Err(ChallengeAlreadyEnded);
      }
      if (id, user) in entries {
        return Err(ChallengeAlreadyJoined);
      }
      entries := entries[(id, user) := Entry(0, false, 0)];
      return Ok(());
    }

    /** Pay the reward if the pool covers it, and count the win. */
    method RewardCompletion(user: Address, reward: int)
      requires user in stats
      modifies this`pool, this`distributed, this`stats
      ensures pool == if old(pool) >= reward then old(pool) - reward else old(pool)
      ensures distributed == if old(pool) >= reward then
                               old(distributed)[user := WrapI128(At(old(distributed), user) + reward)]
                             else old(distributed)
      ensures stats == old(stats)[user := Win(old(stats)[user])]
    {
      hide TotalScore, TierOf;
      if pool >= reward {
        pool := pool - reward;
        distributed := distributed[user := WrapI128(At(distributed, user) + reward)];
      }
      var s := stats[user];
      s := s.(won := s.won + 1);
      s := s.(score := TotalScore(s));
      s := s.(tier := TierOf(s.score));
      stats := stats[user := s];
    }

    method UpdateChallengeProgress(now: u64, user: Address, id: Symbol, increment: i128)
      returns (r: Result<bool, Error>)
      modifies this`entries, this`pool, this`distributed, this`stats
      ensures r.Map((_: bool) => ()) == Advance(old(View()), now, user, id, increment).Map((_: State) => ())
      ensures r.Ok? ==> id in challenges && (id, user) in entries
      ensures r.Ok? ==> r.value == (entries[(id, user)].value >= challenges[id].target)
      ensures View() == Step(old(View()), Progress(now, user, id, increment))
    {
      hide Win, At, WrapI128, CheckAll, Issue, After, Redefined, Defines;
      if id !in challenges {
        return Err(ChallengeNotFound);
      }
      var challenge := challenges[id];
      if !challenge.active {
        return Err(ChallengeAlreadyEnded);
      }
      if now > challenge.end || now < challenge.start {
        return Err(ChallengeAlreadyEnded);
      }
      if (id, user) !in entries {
        return Err(ChallengeNotFound);
      }
      var entry := entries[(id, user)];
      entry := entry.(value := WrapI128(entry.value + increment));
      var completed := entry.value >= challenge.target;
      if completed && !entry.completed {
        if user !in stats {
          return Err(UserNotFound);
        }
        entry := entry.(completed := true, completedAt := now);
        RewardCompletion(user, challenge.reward);
      }
      entries := entries[(id, user) := entry];
      return Ok(completed);
    }

    method DistributeTierReward(user: Address) returns (r: Result<int, Error>)
      modifies this`pool, this`distributed
      ensures r == Apply(old(View()), TierPayout(user)).Map((t: State) => old(pool) - t.pool)
      ensures View() == Step(old(View()), TierPayout(user))
    {
      if user !in stats {
        return Err(UserNotFound);
      }
      var amount := TierReward(stats[user].tier);
      if pool < amount {
        return Err(InsufficientRewardPool);
      }
      pool := pool - amount;
      distributed := distributed[user := WrapI128(At(distributed, user) + amount)];
      return Ok(amount);
    }

    method FundRewardPool(caller: Address, amount: i128) returns (r: Result<int, Error>)
      modifies this`pool
      ensures r == Apply(old(View()), Fund(caller, amount)).Map((t: State) => t.pool)
      ensures View() == Step(old(View()), Fund(caller, amount))
    {
      if caller != admin {
        return Err(AdminRequired);
      }
      pool := WrapI128(pool + amount);
      return Ok(pool);
    }

    method BuildLeaderboard(m: Metric, offset: nat, limit: nat) returns (page: seq<Placed>, total: nat)
      ensures var ranked := Ranked(RowsOf(stats, users, m));
              page == Page(ranked, offset, limit) && total == |ranked|
    {
      hide Ranked, Place;
      var rows := [];
      for i := 0 to |users|
        invariant rows == RowsOf(stats, users[..i], m)
      {
        assert users[..i + 1][..i] == users[..i];
        var user := users[i];
        if user in stats {
          var s := stats[user];
          rows := rows + [Row(user, SortKey(s, m), s.score, s.successes, s.bestRoi, s.bestStreak)];
        }
      }
      assert users[..|users|] == users;
      var ranked := SortEntries(rows);
      total := |ranked|;
      var start := if offset >= total then total else offset;
      var length := if limit > MAX_PAGE then MAX_PAGE else limit;
      var end := if start + length > total then total else start + length;
      page := [];
      for idx := start to end
        invariant page == PlaceRange(ranked, start, idx)
      {
        page := page + [Place(ranked, idx)];
      }
    }
  }
}
