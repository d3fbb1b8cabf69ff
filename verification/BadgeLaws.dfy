/** Badges: what a check issues, that each is issued once, and which are never rewarded. */
module BadgeLaws {
  import opened Wrappers
  import opened Checked
  import opened Host
  import opened Sums
  import opened Gamification
  import opened GamificationLaws

  // ---------------------------------------------------------------------------------------------
  // What a check issues
  // ---------------------------------------------------------------------------------------------

  ghost predicate Distinct(bs: seq<Badge>) {
    forall i, j :: 0 <= i < j < |bs| ==> bs[i] != bs[j]
  }

  /** Where a badge is checked, if it is. */
  function Position(b: Badge): int {
    match b
    case FirstTrade => 0
    case Trades10 => 1
    case Trades50 => 2
    case Trades100 => 3
    case PositiveRoi => 4
    case Roi50 => 5
    case Roi100 => 6
    case Streak3 => 7
    case Streak5 => 8
    case Streak10 => 9
    case Learn1 => 10
    case Learn5 => 11
    case LearnAll => 12
    case Community1 => 13
    case BronzeTier => 14
    case SilverTier => 15
    case GoldTier => 16
    case PlatinumTier => 17
    case _ => -1
  }

  lemma PositionIs(i: nat)
    requires i < |CHECKS|
    ensures Position(CHECKS[i]) == i
  {
  }

  lemma CheckedAt(b: Badge, i: nat)
    requires i < |CHECKS| && Position(b) == i
    ensures b == CHECKS[i]
  {
  }

  lemma CheckedIff(b: Badge)
    ensures b in CHECKS <==> Position(b) >= 0
  {
    hide Position;
    if b in CHECKS {
      var i :| 0 <= i < |CHECKS| && CHECKS[i] == b;
      PositionIs(i);
    }
    PositionBound(b);
    if Position(b) >= 0 {
      CheckedAt(b, Position(b));
    }
  }

  lemma PositionBound(b: Badge)
    ensures -1 <= Position(b) < |CHECKS|
  {
  }

  lemma {:induction false} EvaluatedHas(s: Stats, earned: seq<Badge>, n: nat, b: Badge)
    requires n <= |CHECKS|
    ensures b in Evaluated(s, earned, n) <==> 0 <= Position(b) < n && Earns(s, b) && b !in earned
  {
    hide Earns, Position;
    if n > 0 {
      EvaluatedHas(s, earned, n - 1, b);
      PositionIs(n - 1);
      if Position(b) == n - 1 {
        CheckedAt(b, n - 1);
      }
    }
  }

  lemma {:induction false} EvaluatedDistinct(s: Stats, earned: seq<Badge>, n: nat)
    requires n <= |CHECKS|
    ensures Distinct(Evaluated(s, earned, n))
  {
    hide Earns, Position;
    if n > 0 {
      EvaluatedDistinct(s, earned, n - 1);
      PositionIs(n - 1);
      EvaluatedHas(s, earned, n - 1, CHECKS[n - 1]);
      DistinctSnoc(Evaluated(s, earned, n - 1), CHECKS[n - 1]);
    }
  }

  lemma DistinctSnoc(bs: seq<Badge>, b: Badge)
    requires Distinct(bs) && b !in bs
    ensures Distinct(bs + [b])
  {
  }

  lemma EvaluatedExact(s: Stats, earned: seq<Badge>)
    ensures forall b :: b in Evaluated(s, earned, |CHECKS|) <==> Position(b) >= 0 && Earns(s, b) && b !in earned
    ensures Distinct(Evaluated(s, earned, |CHECKS|))
  {
    hide Earns, Position, Evaluated;
    EvaluatedDistinct(s, earned, |CHECKS|);
    forall b
      ensures b in Evaluated(s, earned, |CHECKS|) <==> Position(b) >= 0 && Earns(s, b) && b !in earned
    {
      EvaluatedHas(s, earned, |CHECKS|, b);
      PositionBound(b);
    }
  }

  lemma {:induction false} NothingFound(s: Stats, earned: seq<Badge>, n: nat)
    requires n <= |CHECKS| && forall i :: 0 <= i < n && Earns(s, CHECKS[i]) ==> CHECKS[i] in earned
    ensures Evaluated(s, earned, n) == []
  {
    hide Earns;
    if n > 0 {
      NothingFound(s, earned, n - 1);
    }
  }

  /** Issued badges join the end of one user's list. */
  lemma {:induction false} IssueAllLists(s: State, user: Address, bs: seq<Badge>, other: Address)
    ensures BadgesOf(IssueAll(s, user, bs), other) == BadgesOf(s, other) + if other == user then bs else []
  {
    hide PayIfCovered, RewardOf;
    if bs != [] {
      var init, last := bs[..|bs| - 1], bs[|bs| - 1];
      IssueAllLists(s, user, init, other);
      assert BadgesOf(s, user) + init + [last] == BadgesOf(s, user) + bs;
      PaidLists(IssueAll(s, user, init), user, last);
    } else {
      assert BadgesOf(s, other) + [] == BadgesOf(s, other);
    }
  }

  lemma PaidLists(s: State, user: Address, b: Badge)
    ensures Issue(s, user, b).badges == s.badges[user := BadgesOf(s, user) + [b]]
  {
    hide RewardOf, Pay;
  }

  /** What a check finds to issue. */
  function Found(s: State, user: Address): seq<Badge> {
    if user in s.stats then Evaluated(s.stats[user], BadgesOf(s, user), |CHECKS|) else []
  }

  lemma CheckLists(s: State, user: Address, other: Address)
    requires user in s.stats
    ensures var t := Step(s, CheckBadges(user));
            && BadgesOf(t, other) == BadgesOf(s, other) + (if other == user then Found(s, user) else [])
            && user in t.badges && t.stats == s.stats
            && (Found(s, user) == [] ==> t == s.(badges := s.badges[user := BadgesOf(s, user)]))
  {
    hide IssueAll, Evaluated;
    IssueAllLists(s, user, Found(s, user), other);
    IssueAllLists(s, user, Found(s, user), user);
    IssueAllFrame(s, user, Found(s, user));
    NothingIssued(s, user);
  }

  lemma NothingIssued(s: State, user: Address)
    ensures IssueAll(s, user, []) == s
  {
  }

  /**
   After a check a user holds what it held and every evaluated badge that its statistics earn, and nothing else.
   A second check at once changes nothing at all.
   */
  lemma CheckExact(s: State, user: Address)
    requires user in s.stats
    ensures var t := Step(s, CheckBadges(user));
            && (forall b :: b in BadgesOf(t, user)
                            <==> b in BadgesOf(s, user) || (b in CHECKS && Earns(s.stats[user], b)))
            && Step(t, CheckBadges(user)) == t
  {
    hide Step, Evaluated, Earns, Position;
    var t := Step(s, CheckBadges(user));
    CheckLists(s, user, user);
    CheckLists(t, user, user);
    EvaluatedExact(s.stats[user], BadgesOf(s, user));
    forall b
      ensures b in CHECKS <==> Position(b) >= 0
    {
      CheckedIff(b);
    }
    forall i | 0 <= i < |CHECKS|
      ensures Earns(t.stats[user], CHECKS[i]) ==> CHECKS[i] in BadgesOf(t, user)
    {
      PositionIs(i);
    }
    NothingFound(t.stats[user], BadgesOf(t, user), |CHECKS|);
    assert t.badges[user := BadgesOf(t, user)] == t.badges;
  }

  /** So a check issues each badge from these numbers on. */
  lemma CheckMeans(s: State, user: Address, b: Badge)
    requires user in s.stats
    ensures var p := s.stats[user];
            b in BadgesOf(Step(s, CheckBadges(user)), user)
            <==> || b in BadgesOf(s, user)
                 || match b
                    case FirstTrade => p.tradeCount >= 1
                    case Trades10 => p.successes >= 10
                    case Trades50 => p.successes >= 50
                    case Trades100 => p.successes >= 100
                    case PositiveRoi => p.bestRoi > 0
                    case Roi50 => p.bestRoi >= 5000
                    case Roi100 => p.bestRoi >= 10000
                    case Streak3 => p.bestStreak >= 3
                    case Streak5 => p.bestStreak >= 5
                    case Streak10 => p.bestStreak >= 10
                    case Learn1 => p.modules >= 1
                    case Learn5 => p.modules >= 5
                    case LearnAll => p.modules >= p.totalModules > 0
                    case Community1 => p.community >= 1
                    case BronzeTier => p.tier == Bronze && p.score >= 24
                    case SilverTier => p.tier != Bronze
                    case GoldTier => p.tier == Gold || p.tier == Platinum
                    case PlatinumTier => p.tier == Platinum
                    case _ => false
  {
    hide Step;
    CheckExact(s, user);
    CheckedIff(b);
  }

  // ---------------------------------------------------------------------------------------------
  // Once each
  // ---------------------------------------------------------------------------------------------

  lemma DistinctJoin(bs: seq<Badge>, more: seq<Badge>)
    requires Distinct(bs) && Distinct(more) && forall b :: b in more ==> b !in bs
    ensures Distinct(bs + more)
  {
    var all := bs + more;
    forall i, j | 0 <= i < j < |all|
      ensures all[i] != all[j]
    {
      assert j >= |bs| ==> all[j] in more;
    }
  }

  /** One call only adds to a user's list, and nothing that is there already. */
  lemma StepBadges(s: State, c: Call, user: Address)
    ensures BadgesOf(s, user) <= BadgesOf(Step(s, c), user)
    ensures Distinct(BadgesOf(s, user)) ==> Distinct(BadgesOf(Step(s, c), user))
  {
    hide Step, Evaluated, Distinct, Earns, Position;
    match c
    case CheckBadges(who) =>
      if who in s.stats {
        CheckLists(s, who, user);
        assert BadgesOf(s, user) + [] == BadgesOf(s, user);
        EvaluatedExact(s.stats[who], BadgesOf(s, who));
        if who == user && Distinct(BadgesOf(s, user)) {
          DistinctJoin(BadgesOf(s, user), Found(s, user));
        }
      } else {
        Refused(s, c);
      }
    case IssueBadge(caller, who, b) => IssueOneLists(s, caller, who, b, user);
    case _ => OthersKeepBadges(s, c);
  }

  lemma Refused(s: State, c: Call)
    requires c.CheckBadges? && c.user !in s.stats
    ensures Step(s, c) == s
  {
  }

  lemma IssueOneLists(s: State, caller: Address, who: Address, b: Badge, user: Address)
    ensures var t := Step(s, IssueBadge(caller, who, b));
            && BadgesOf(s, user) <= BadgesOf(t, user)
            && (Distinct(BadgesOf(s, user)) ==> Distinct(BadgesOf(t, user)))
  {
    hide Issue;
    PaidLists(s, who, b);
  }

  lemma OthersKeepBadges(s: State, c: Call)
    requires !c.CheckBadges? && !c.IssueBadge?
    ensures Step(s, c).badges == s.badges
  {
    hide After, Win, CheckAll, Issue, Redefined, Defines, WrapI128;
  }

  /** In every run no user holds a badge twice. */
  lemma {:induction false} RunBadges(admin: Address, totalModules: nat, calls: seq<Call>, user: Address)
    ensures Distinct(BadgesOf(Run(Initialized(admin, totalModules), calls), user))
  {
    hide Step;
    if calls != [] {
      RunBadges(admin, totalModules, calls[..|calls| - 1], user);
      StepBadges(Run(Initialized(admin, totalModules), calls[..|calls| - 1]), calls[|calls| - 1], user);
    }
  }

  /** No badge is ever taken back. */
  lemma {:induction false} RunKeepsBadges(s0: State, calls: seq<Call>, k: nat, user: Address)
    requires k <= |calls|
    ensures BadgesOf(Run(s0, calls[..k]), user) <= BadgesOf(Run(s0, calls), user)
  {
    hide Step;
    if k == |calls| {
      assert calls[..k] == calls;
    } else {
      var init := calls[..|calls| - 1];
      assert init[..k] == calls[..k];
      RunKeepsBadges(s0, init, k, user);
      StepBadges(Run(s0, init), calls[|calls| - 1], user);
    }
  }

  /** Call k of a run issues a badge to a user. */
  ghost predicate IssuedAt(s0: State, calls: seq<Call>, k: nat, user: Address, b: Badge) {
    k < |calls| && b !in BadgesOf(Run(s0, calls[..k]), user) && b in BadgesOf(Run(s0, calls[..k + 1]), user)
  }

  /** A badge is issued to a user at most once, by whatever calls. */
  lemma IssuedOnce(s0: State, calls: seq<Call>, i: nat, j: nat, user: Address, b: Badge)
    requires i < j && IssuedAt(s0, calls, i, user, b)
    ensures !IssuedAt(s0, calls, j, user, b)
  {
    hide Run;
    if j < |calls| {
      var before := calls[..j];
      assert before[..i + 1] == calls[..i + 1];
      RunKeepsBadges(s0, before, i + 1, user);
    }
  }

  /** And only issuing one pays its reward: a call about badges that adds none to the list moves nothing. */
  lemma PaysOnlyNew(s: State, c: Call)
    requires c.CheckBadges? || c.IssueBadge?
    ensures var t := Step(s, c);
            BadgesOf(t, c.user) == BadgesOf(s, c.user) ==> t.pool == s.pool && t.distributed == s.distributed
  {
    hide Evaluated, IssueAll, Issue;
    if c.CheckBadges? {
      if c.user in s.stats {
        CheckLists(s, c.user, c.user);
      }
    } else {
      PaidLists(s, c.user, c.badge);
    }
  }

  /** Issuing a badge adds it to the user's list and, if its reward is positive and the pool covers it, moves that
      reward from the pool to the user. */
  lemma IssueMeans(s: State, user: Address, b: Badge)
    ensures var t, reward := Issue(s, user, b), RewardOf(s.definitions, b);
            && t == s.(badges := s.badges[user := BadgesOf(s, user) + [b]], pool := t.pool,
                       distributed := t.distributed)
            && if 0 < reward <= s.pool then
                 && t.pool == s.pool - reward
                 && t.distributed == s.distributed[user := WrapI128(At(s.distributed, user) + reward)]
               else t.pool == s.pool && t.distributed == s.distributed
  {
    hide RewardOf, WrapI128;
  }

  /** Only the administrator issues a badge by hand, and only to a player who does not hold it. */
  lemma IssueIff(s: State, caller: Address, user: Address, b: Badge)
    ensures var r := Apply(s, IssueBadge(caller, user, b));
            && (r.Ok? <==> caller == s.admin && user in s.stats && b !in BadgesOf(s, user))
            && (r.Ok? ==> r.value == Issue(s, user, b))
  {
    hide Issue;
  }

  // ---------------------------------------------------------------------------------------------
  // Rewards
  // ---------------------------------------------------------------------------------------------

  /** The same badges, in the same order. */
  ghost predicate SameBadges(defs: seq<Definition>, more: seq<Definition>) {
    |defs| == |more| && forall i :: 0 <= i < |defs| ==> defs[i].badge == more[i].badge
  }

  lemma {:induction false} RedefinedSame(defs: seq<Definition>, b: Badge, reward: i128, active: bool)
    ensures SameBadges(defs, Redefined(defs, b, reward, active))
  {
    if defs != [] && defs[0].badge != b {
      RedefinedSame(defs[1..], b, reward, active);
    }
  }

  lemma StepDefinitions(s: State, c: Call)
    ensures SameBadges(s.definitions, Step(s, c).definitions)
  {
    hide After, Win, IssueAll, Evaluated, RewardOf, Redefined, Defines, WrapI128;
    if c.DefineBadge? {
      RedefinedSame(s.definitions, c.badge, c.reward, c.active);
    } else if c.CheckBadges? && c.user in s.stats {
      IssueAllFrame(s, c.user, Found(s, c.user));
    }
  }

  lemma {:induction false} RunDefinitions(admin: Address, totalModules: nat, calls: seq<Call>)
    ensures SameBadges(DEFAULT_BADGES, Run(Initialized(admin, totalModules), calls).definitions)
  {
    hide Step;
    if calls != [] {
      RunDefinitions(admin, totalModules, calls[..|calls| - 1]);
      StepDefinitions(Run(Initialized(admin, totalModules), calls[..|calls| - 1]), calls[|calls| - 1]);
    }
  }

  lemma {:induction false} NoReward(defs: seq<Definition>, b: Badge)
    requires forall i :: 0 <= i < |defs| ==> defs[i].badge != b
    ensures RewardOf(defs, b) == 0
  {
    if defs != [] {
      NoReward(defs[1..], b);
    }
  }

  lemma {:induction false} RewardAt(defs: seq<Definition>, b: Badge, i: nat)
    requires i < |defs| && defs[i].badge == b && forall k :: 0 <= k < i ==> defs[k].badge != b
    ensures RewardOf(defs, b) == defs[i].reward
  {
    if i > 0 {
      RewardAt(defs[1..], b, i - 1);
    }
  }

  lemma RewardCons(d: Definition, defs: seq<Definition>, b: Badge)
    ensures RewardOf([d] + defs, b) == if d.badge == b then d.reward else RewardOf(defs, b)
  {
    assert ([d] + defs)[1..] == defs;
  }

  /** What the badges are first defined to pay. */
  lemma DefaultRewards(b: Badge)
    ensures RewardOf(DEFAULT_BADGES, b)
            == match b
               case FirstTrade => 5
               case Trades10 => 10
               case Trades50 => 25
               case Trd100 => 50
               case PositiveRoi => 10
               case Roi50 => 30
               case RoiOf100 => 50
               case Streak3 => 10
               case Streak5 => 20
               case Streak10 => 40
               case Learn1 => 5
               case Learn5 => 15
               case LearnAll => 50
               case Community1 => 5
               case BronzeTier => 10
               case SilverTier => 25
               case GoldTier => 50
               case PlatinumTier => 100
               case _ => 0
  {
    hide RewardOf;
    var i := if b == Trd100 then 3 else if b == RoiOf100 then 6 else if Misspelt(b) then -1 else Position(b);
    if i >= 0 {
      RewardAt(DEFAULT_BADGES, b, i);
    } else {
      NoReward(DEFAULT_BADGES, b);
    }
  }

  /** Only the administrator redefines a badge, and only one that is defined; that sets its reward and no other. */
  lemma DefineIff(s: State, caller: Address, b: Badge, reward: i128, active: bool, other: Badge)
    ensures var r := Apply(s, DefineBadge(caller, b, reward, active));
            && (r.Ok? <==> caller == s.admin && Defines(s.definitions, b))
            && (r.Ok? ==>
                  && r.value == s.(definitions := r.value.definitions)
                  && RewardOf(r.value.definitions, other)
                     == if other == b then reward else RewardOf(s.definitions, other))
  {
    hide Redefined, RewardOf;
    if Defines(s.definitions, b) {
      RedefinedReward(s.definitions, b, reward, active, other);
    }
  }

  lemma {:induction false} RedefinedReward(defs: seq<Definition>, b: Badge, reward: i128, active: bool, other: Badge)
    requires Defines(defs, b)
    ensures RewardOf(Redefined(defs, b, reward, active), other) == if other == b then reward else RewardOf(defs, other)
  {
    hide RewardOf;
    var d, rest := defs[0], defs[1..];
    assert defs == [d] + rest;
    RewardCons(d, rest, other);
    if d.badge == b {
      RewardCons(Definition(b, reward, active), rest, other);
    } else {
      var i :| 0 <= i < |defs| && defs[i].badge == b;
      assert rest[i - 1].badge == b;
      RedefinedReward(rest, b, reward, active, other);
      RewardCons(d, Redefined(rest, b, reward, active), other);
    }
  }

  /** Whether a definition is active makes no difference to any reward. */
  lemma {:induction false} ActiveIgnored(defs: seq<Definition>, b: Badge, active: bool, other: Badge)
    ensures RewardOf(Redefined(defs, b, RewardOf(defs, b), active), other) == RewardOf(defs, other)
  {
    hide RewardOf;
    if defs != [] {
      var d, rest := defs[0], defs[1..];
      assert defs == [d] + rest;
      RewardCons(d, rest, b);
      RewardCons(d, rest, other);
      if d.badge == b {
        RewardCons(Definition(b, d.reward, active), rest, other);
      } else {
        RewardCons(d, Redefined(rest, b, RewardOf(rest, b), active), other);
        ActiveIgnored(rest, b, active, other);
      }
    }
  }

  /** Two badges are evaluated under ids that no definition has. */
  predicate Misspelt(b: Badge) {
    b == Trades100 || b == Roi100
  }

  lemma DefaultAt(i: nat)
    requires i < |DEFAULT_BADGES|
    ensures |DEFAULT_BADGES| == |CHECKS| && DEFAULT_BADGES[i].reward > 0 && !Misspelt(DEFAULT_BADGES[i].badge)
    ensures if Misspelt(CHECKS[i]) then DEFAULT_BADGES[i].badge !in CHECKS && DEFAULT_BADGES[i].reward == 50
            else DEFAULT_BADGES[i].badge == CHECKS[i]
  {
  }

  lemma RunRewardless(admin: Address, totalModules: nat, calls: seq<Call>, b: Badge)
    requires Misspelt(b)
    ensures RewardOf(Run(Initialized(admin, totalModules), calls).definitions, b) == 0
  {
    hide Run, Misspelt;
    RunDefinitions(admin, totalModules, calls);
    var defs := Run(Initialized(admin, totalModules), calls).definitions;
    forall i | 0 <= i < |defs|
      ensures defs[i].badge != b
    {
      DefaultAt(i);
    }
    NoReward(defs, b);
  }

  lemma DefaultReward(b: Badge)
    requires b in CHECKS && !Misspelt(b)
    ensures RewardOf(DEFAULT_BADGES, b) > 0
  {
    hide Position, Misspelt;
    var i :| 0 <= i < |CHECKS| && CHECKS[i] == b;
    DefaultAt(0);
    forall k | 0 <= k < i
      ensures DEFAULT_BADGES[k].badge != b
    {
      DefaultAt(k);
      PositionIs(k);
      PositionIs(i);
    }
    DefaultAt(i);
    RewardAt(DEFAULT_BADGES, b, i);
  }

  /** An evaluated badge has no reward in any run if and only if it is one of these two. */
  lemma RewardlessIff(admin: Address, totalModules: nat, b: Badge)
    requires b in CHECKS
    ensures (forall calls :: RewardOf(Run(Initialized(admin, totalModules), calls).definitions, b) == 0)
            <==> Misspelt(b)
  {
    hide Run, RewardOf, Misspelt;
    if Misspelt(b) {
      forall calls
        ensures RewardOf(Run(Initialized(admin, totalModules), calls).definitions, b) == 0
      {
        RunRewardless(admin, totalModules, calls, b);
      }
    } else {
      DefaultReward(b);
      NoCalls(Initialized(admin, totalModules));
      assert RewardOf(Run(Initialized(admin, totalModules), []).definitions, b) > 0;
    }
  }

  lemma NoCalls(s0: State)
    ensures Run(s0, []) == s0
  {
  }
}
