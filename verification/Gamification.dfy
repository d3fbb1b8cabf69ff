/** Player statistics and scores, the leaderboard, challenges and the reward pool. */
module Gamification {
  import opened Wrappers
  import opened Checked
  import opened Host
  import opened Sums

  const MAX_PAGE := 100
  const INITIAL_POOL := 1000000

  datatype Tier = Bronze | Silver | Gold | Platinum

  datatype Stats = Stats(
    tradeCount: nat,
    successes: nat,
    bestRoi: i128,
    streak: nat,
    bestStreak: nat,
    modules: nat,
    totalModules: nat,
    community: nat,
    won: nat,
    tier: Tier,
    score: int,
    lastActive: u64)

  datatype Error =
    | UserAlreadyRegistered | UserNotFound | ChallengeNotFound | ChallengeAlreadyEnded | ChallengeNotStarted
    | ChallengeAlreadyJoined | InvalidChallengeParams | InsufficientRewardPool | AdminRequired
    | BadgeAlreadyEarned | BadgeDefinitionNotFound

  // ---------------------------------------------------------------------------------------------
  // Scores
  // ---------------------------------------------------------------------------------------------

  function TradeScore(successes: nat): int {
    Min(successes * 2, 30)
  }

  /** The product wraps around, so a return beyond I128_MAX / 30 can score below zero. */
  function RoiScore(roi: i128): int {
    if roi <= 0 then 0 else Min(TruncDiv(WrapI128(roi * 30), 10000), 30)
  }

  function StreakScore(streak: nat): int {
    Min(streak * 3, 15)
  }

  function LearnScore(modules: nat, total: nat): int {
    if total == 0 then 0 else Min(modules * 15 / total, 15)
  }

  function CommunityScore(actions: nat): int {
    Min(actions * 2, 10)
  }

  function TotalScore(s: Stats): int {
    TradeScore(s.successes) + RoiScore(s.bestRoi) + StreakScore(s.bestStreak) + LearnScore(s.modules, s.totalModules)
    + CommunityScore(s.community)
  }

  function TierOf(score: int): Tier {
    if score >= 75 then Platinum else if score >= 50 then Gold else if score >= 25 then Silver else Bronze
  }

  function TierReward(t: Tier): int {
    match t
    case Bronze => 10
    case Silver => 25
    case Gold => 50
    case Platinum => 100
  }

  // ---------------------------------------------------------------------------------------------
  // Trades
  // ---------------------------------------------------------------------------------------------

  datatype Trade = Trade(roi: i128, success: bool)

  /** The counters after one trade. */
  function Tally(s: Stats, t: Trade): Stats {
    var streak := if t.success then s.streak + 1 else 0;
    s.(tradeCount := s.tradeCount + 1, successes := s.successes + if t.success then 1 else 0,
       streak := streak, bestStreak := if streak > s.bestStreak then streak else s.bestStreak,
       bestRoi := if t.roi > s.bestRoi then t.roi else s.bestRoi)
  }

  function TallyAll(s: Stats, ts: seq<Trade>): Stats {
    if ts == [] then s else Tally(TallyAll(s, ts[..|ts| - 1]), ts[|ts| - 1])
  }

  function Scored(s: Stats): Stats {
    s.(score := TotalScore(s), tier := TierOf(TotalScore(s)))
  }

  /** What every activity ends with. */
  function Refresh(s: Stats, now: u64): Stats {
    Scored(s.(lastActive := now))
  }

  function RecordTrade(s: Stats, now: u64, t: Trade): Stats {
    Refresh(Tally(s, t), now)
  }

  /** All trades tallied first, the score computed once. */
  function RecordBatch(s: Stats, now: u64, ts: seq<Trade>): Stats {
    Refresh(TallyAll(s, ts), now)
  }

  /** The same trades, recorded one by one at one time. */
  function Replay(s: Stats, now: u64, ts: seq<Trade>): Stats {
    if ts == [] then s else RecordTrade(Replay(s, now, ts[..|ts| - 1]), now, ts[|ts| - 1])
  }

  function Learn(s: Stats, now: u64): Stats {
    Refresh(if s.modules < s.totalModules then s.(modules := s.modules + 1) else s, now)
  }

  function ActInCommunity(s: Stats, now: u64): Stats {
    Refresh(s.(community := s.community + 1), now)
  }

  function Win(s: Stats): Stats {
    Scored(s.(won := s.won + 1))
  }

  function NewPlayer(totalModules: nat, now: u64): Stats {
    Stats(0, 0, 0, 0, 0, 0, totalModules, 0, 0, Bronze, 0, now)
  }

  // ---------------------------------------------------------------------------------------------
  // The leaderboard
  // ---------------------------------------------------------------------------------------------

  datatype Metric = ByScore | ByTrades | ByRoi | ByStreak

  datatype Row = Row(user: Address, key: int, score: int, trades: nat, roi: int, streak: nat)
  datatype Placed = Placed(rank: nat, user: Address, score: int, tier: Tier, trades: nat, roi: int, streak: nat)

  function SortKey(s: Stats, m: Metric): int {
    match m
    case ByScore => s.score
    case ByTrades => s.successes
    case ByRoi => s.bestRoi
    case ByStreak => s.bestStreak
  }

  function RowsOf(stats: map<Address, Stats>, users: seq<Address>, m: Metric): seq<Row> {
    if users == [] then []
    else
      var u := users[|users| - 1];
      RowsOf(stats, users[..|users| - 1], m)
      + if u !in stats then []
        else var s := stats[u]; [Row(u, SortKey(s, m), s.score, s.successes, s.bestRoi, s.bestStreak)]
  }

  /** Move a new row up past every row with a smaller key. */
  function InsertRow(rows: seq<Row>, r: Row): (out: seq<Row>)
    ensures |out| == |rows| + 1
  {
    if rows == [] || r.key <= rows[|rows| - 1].key then rows + [r]
    else InsertRow(rows[..|rows| - 1], r) + [rows[|rows| - 1]]
  }

  function Ranked(rows: seq<Row>): (out: seq<Row>)
    ensures |out| == |rows|
  {
    if rows == [] then [] else InsertRow(Ranked(rows[..|rows| - 1]), rows[|rows| - 1])
  }

  function Place(ranked: seq<Row>, i: nat): Placed
    requires i < |ranked|
  {
    var e := ranked[i];
    Placed(i + 1, e.user, e.score, TierOf(e.score), e.trades, e.roi, e.streak)
  }

  function PlaceRange(ranked: seq<Row>, from: nat, to: nat): (out: seq<Placed>)
    requires from <= to <= |ranked|
    ensures |out| == to - from
    ensures forall k :: 0 <= k < to - from ==> out[k] == Place(ranked, from + k)
  {
    if from == to then [] else PlaceRange(ranked, from, to - 1) + [Place(ranked, to - 1)]
  }

  function PageStart(total: nat, offset: nat): nat {
    Min(offset, total)
  }

  function PageEnd(total: nat, offset: nat, limit: nat): nat {
    Min(PageStart(total, offset) + Min(limit, MAX_PAGE), total)
  }

  function Page(ranked: seq<Row>, offset: nat, limit: nat): seq<Placed> {
    PlaceRange(ranked, PageStart(|ranked|, offset), PageEnd(|ranked|, offset, limit))
  }

  // ---------------------------------------------------------------------------------------------
  // Badges
  // ---------------------------------------------------------------------------------------------

  /** The badge ids that the contract names, and any other. */
  datatype Badge =
    | FirstTrade | Trades10 | Trades50
    | Trades100  // TRD_100, as it is evaluated
    | Trd100  // TRD100, as it is defined
    | PositiveRoi | Roi50
    | Roi100  // ROI_100, as it is evaluated
    | RoiOf100  // ROI100, as it is defined
    | Streak3 | Streak5 | Streak10 | Learn1 | Learn5 | LearnAll | Community1
    | BronzeTier | SilverTier | GoldTier | PlatinumTier
    | Other(name: Symbol)

  /** The badges that are evaluated, in order. */
  const CHECKS: seq<Badge> := [
    FirstTrade, Trades10, Trades50, Trades100, PositiveRoi, Roi50, Roi100, Streak3, Streak5, Streak10, Learn1, Learn5,
    LearnAll, Community1, BronzeTier, SilverTier, GoldTier, PlatinumTier]

  predicate Earns(s: Stats, b: Badge) {
    match b
    case FirstTrade => s.tradeCount >= 1
    case Trades10 => s.successes >= 10
    case Trades50 => s.successes >= 50
    case Trades100 => s.successes >= 100
    case PositiveRoi => s.bestRoi > 0
    case Roi50 => s.bestRoi >= 5000
    case Roi100 => s.bestRoi >= 10000
    case Streak3 => s.bestStreak >= 3
    case Streak5 => s.bestStreak >= 5
    case Streak10 => s.bestStreak >= 10
    case Learn1 => s.modules >= 1
    case Learn5 => s.modules >= 5
    case LearnAll => s.totalModules > 0 && s.modules >= s.totalModules
    case Community1 => s.community >= 1
    case BronzeTier => s.tier == Bronze && s.score >= 24
    case SilverTier => s.tier == Silver || s.tier == Gold || s.tier == Platinum
    case GoldTier => s.tier == Gold || s.tier == Platinum
    case PlatinumTier => s.tier == Platinum
    case _ => false
  }

  /** What the first n checks find earned and not yet issued. */
  function Evaluated(s: Stats, earned: seq<Badge>, n: nat): seq<Badge>
    requires n <= |CHECKS|
  {
    if n == 0 then []
    else
      var b := CHECKS[n - 1];
      Evaluated(s, earned, n - 1) + if Earns(s, b) && b !in earned then [b] else []
  }

  datatype Definition = Definition(badge: Badge, reward: i128, active: bool)

  const DEFAULT_BADGES: seq<Definition> := [
    Definition(FirstTrade, 5, true), Definition(Trades10, 10, true), Definition(Trades50, 25, true),
    Definition(Trd100, 50, true), Definition(PositiveRoi, 10, true), Definition(Roi50, 30, true),
    Definition(RoiOf100, 50, true), Definition(Streak3, 10, true), Definition(Streak5, 20, true),
    Definition(Streak10, 40, true), Definition(Learn1, 5, true), Definition(Learn5, 15, true),
    Definition(LearnAll, 50, true), Definition(Community1, 5, true), Definition(BronzeTier, 10, true),
    Definition(SilverTier, 25, true), Definition(GoldTier, 50, true), Definition(PlatinumTier, 100, true)]

  /** The reward of a badge's first definition, whether active or not; zero when there is none. */
  function RewardOf(defs: seq<Definition>, b: Badge): i128 {
    if defs == [] then 0 else if defs[0].badge == b then defs[0].reward else RewardOf(defs[1..], b)
  }

  predicate Defines(defs: seq<Definition>, b: Badge) {
    exists i :: 0 <= i < |defs| && defs[i].badge == b
  }

  /** The first definition of a badge, rewritten. */
  function Redefined(defs: seq<Definition>, b: Badge, reward: i128, active: bool): seq<Definition> {
    if defs == [] then []
    else if defs[0].badge == b then [Definition(b, reward, active)] + defs[1..]
    else [defs[0]] + Redefined(defs[1..], b, reward, active)
  }

  // ---------------------------------------------------------------------------------------------
  // The contract's state
  // ---------------------------------------------------------------------------------------------

  datatype Challenge = Challenge(target: i128, reward: i128, start: u64, end: u64, active: bool)
  datatype Entry = Entry(value: i128, completed: bool, completedAt: u64)

  datatype State = State(
    admin: Address,
    totalModules: nat,
    stats: map<Address, Stats>,
    users: seq<Address>,
    pool: int,
    distributed: map<Address, int>,
    challenges: map<Symbol, Challenge>,
    entries: map<(Symbol, Address), Entry>,
    badges: map<Address, seq<Badge>>,
    definitions: seq<Definition>)

  function Initialized(admin: Address, totalModules: nat): State {
    State(admin, totalModules, map[], [], INITIAL_POOL, map[], map[], map[], map[], DEFAULT_BADGES)
  }

  datatype Activity = OneTrade(trade: Trade) | ManyTrades(trades: seq<Trade>) | Module | Community

  datatype Call =
    | Register(now: u64, user: Address)
    | Perform(now: u64, user: Address, activity: Activity)
    | CheckBadges(user: Address)
    | IssueBadge(caller: Address, user: Address, badge: Badge)
    | DefineBadge(caller: Address, badge: Badge, reward: i128, active: bool)
    | CreateChallenge(caller: Address, id: Symbol, target: i128, reward: i128, start: u64, end: u64)
    | Join(now: u64, user: Address, id: Symbol)
    | Progress(now: u64, user: Address, id: Symbol, increment: i128)
    | EndChallenge(caller: Address, id: Symbol)
    | TierPayout(user: Address)
    | Fund(caller: Address, amount: i128)

  function After(s: Stats, now: u64, a: Activity): Stats {
    match a
    case OneTrade(t) => RecordTrade(s, now, t)
    case ManyTrades(ts) => RecordBatch(s, now, ts)
    case Module => Learn(s, now)
    case Community => ActInCommunity(s, now)
  }

  /** A reward is paid when it is positive and the pool covers it, and silently dropped otherwise. */
  function PayIfCovered(s: State, user: Address, reward: int): State {
    if reward > 0 && s.pool >= reward then Pay(s, user, reward) else s
  }

  /** A reward moves from the pool to what the user received, a sum that wraps around. */
  function Pay(s: State, user: Address, reward: int): State {
    s.(pool := s.pool - reward, distributed := s.distributed[user := WrapI128(At(s.distributed, user) + reward)])
  }

  function BadgesOf(s: State, user: Address): seq<Badge> {
    if user in s.badges then s.badges[user] else []
  }

  /** A badge joins the user's list, and its reward is paid. */
  function Issue(s: State, user: Address, b: Badge): State {
    PayIfCovered(s, user, RewardOf(s.definitions, b)).(badges := s.badges[user := BadgesOf(s, user) + [b]])
  }

  function IssueAll(s: State, user: Address, bs: seq<Badge>): State {
    if bs == [] then s else Issue(IssueAll(s, user, bs[..|bs| - 1]), user, bs[|bs| - 1])
  }

  /** Every badge that the statistics earn and the user does not hold is issued; the list is stored in any case. */
  function CheckAll(s: State, user: Address): Result<State, Error> {
    if user !in s.stats then Err(UserNotFound)
    else
      var t := IssueAll(s, user, Evaluated(s.stats[user], BadgesOf(s, user), |CHECKS|));
      Ok(t.(badges := t.badges[user := BadgesOf(t, user)]))
  }

  function IssueOne(s: State, caller: Address, user: Address, b: Badge): Result<State, Error> {
    if caller != s.admin then Err(AdminRequired)
    else if b in BadgesOf(s, user) then Err(BadgeAlreadyEarned)
    else if user !in s.stats then Err(UserNotFound)
    else Ok(Issue(s, user, b))
  }

  /** Progress in a challenge; the first time its target is reached pays the reward and counts the win. */
  function Advance(s: State, now: u64, user: Address, id: Symbol, increment: i128): Result<State, Error> {
    if id !in s.challenges then Err(ChallengeNotFound)
    else
      var c := s.challenges[id];
      if !c.active || now > c.end || now < c.start then Err(ChallengeAlreadyEnded)
      else if (id, user) !in s.entries then Err(ChallengeNotFound)
      else
        var e := s.entries[(id, user)];
        var f := e.(value := WrapI128(e.value + increment));
        if f.value >= c.target && !e.completed then
          if user !in s.stats then Err(UserNotFound)
          else
            var t := if s.pool >= c.reward then Pay(s, user, c.reward) else s;
            Ok(t.(stats := s.stats[user := Win(s.stats[user])],
                  entries := s.entries[(id, user) := f.(completed := true, completedAt := now)]))
        else Ok(s.(entries := s.entries[(id, user) := f]))
  }

  function Apply(s: State, c: Call): Result<State, Error> {
    match c
    case Register(now, user) =>
      if user in s.stats then Err(UserAlreadyRegistered)
      else
        Ok(s.(stats := s.stats[user := NewPlayer(s.totalModules, now)],
              users := if user in s.users then s.users else s.users + [user]))
    case Perform(now, user, activity) =>
      if user !in s.stats then Err(UserNotFound)
      else Ok(s.(stats := s.stats[user := After(s.stats[user], now, activity)]))
    case CheckBadges(user) => CheckAll(s, user)
    case IssueBadge(caller, user, badge) => IssueOne(s, caller, user, badge)
    case DefineBadge(caller, badge, reward, active) =>
      if caller != s.admin then Err(AdminRequired)
      else if !Defines(s.definitions, badge) then Err(BadgeDefinitionNotFound)
      else Ok(s.(definitions := Redefined(s.definitions, badge, reward, active)))
    case CreateChallenge(caller, id, target, reward, start, end) =>
      if caller != s.admin then Err(AdminRequired)
      else if start >= end || target <= 0 || reward <= 0 then Err(InvalidChallengeParams)
      else Ok(s.(challenges := s.challenges[id := Challenge(target, reward, start, end, true)]))
    case Join(now, user, id) =>
      if id !in s.challenges then Err(ChallengeNotFound)
      else if now < s.challenges[id].start then Err(ChallengeNotStarted)
      else if now > s.challenges[id].end then Err(ChallengeAlreadyEnded)
      else if (id, user) in s.entries then Err(ChallengeAlreadyJoined)
      else Ok(s.(entries := s.entries[(id, user) := Entry(0, false, 0)]))
    case Progress(now, user, id, increment) => Advance(s, now, user, id, increment)
    case EndChallenge(caller, id) =>
      if caller != s.admin then Err(AdminRequired)
      else if id !in s.challenges then Err(ChallengeNotFound)
      else Ok(s.(challenges := s.challenges[id := s.challenges[id].(active := false)]))
    case TierPayout(user) =>
      if user !in s.stats then Err(UserNotFound)
      else if s.pool < TierReward(s.stats[user].tier) then Err(InsufficientRewardPool)
      else Ok(Pay(s, user, TierReward(s.stats[user].tier)))
    case Fund(caller, amount) =>
      if caller != s.admin then Err(AdminRequired) else Ok(s.(pool := WrapI128(s.pool + amount)))
  }

  function Step(s: State, c: Call): State {
    match Apply(s, c)
    case Ok(t) => t
    case Err(_) => s
  }

  function Run(s: State, calls: seq<Call>): State {
    if calls == [] then s else Step(Run(s, calls[..|calls| - 1]), calls[|calls| - 1])
  }
}
