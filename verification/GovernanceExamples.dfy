/** Runs from the empty store in which arithmetic wraps, `initialize` comes late, or a documented rule would decide
    otherwise. */
module GovernanceExamples {
  import opened Wrappers
  import opened Checked
  import opened Host
  import opened Sums
  import opened Governance
  import opened GovernanceLaws

  /** A run of calls and the state it reaches, one call longer. */
  lemma Extend(calls: seq<Call>, s: State, c: Call)
    requires Run(calls) == s
    ensures Run(calls + [c]) == Step(s, c) && (calls + [c])[..|calls|] == calls && (calls + [c])[|calls|] == c
  {
    RunSnoc(calls, c);
  }

  /** Initialized by a and g, a holding `power` and having submitted proposal 1 at time 0. */
  function Started(a: Address, g: Address, c: Config, power: int): State {
    EMPTY.(officers := Some(Officers(a, g)), config := c, votingPower := map[a := power], totalVotingPower := power,
           nextId := 2, allIds := [1],
           dockets := map[1 := Docket(Opened(0, a, Custom, c.votingPeriod), map[], None, {})])
  }

  function Opening(a: Address, g: Address, c: Config, power: int): seq<Call> {
    [Call(0, ToInitialize(a, g)), Call(0, ToConfigure(a, c)), Call(0, ToDeposit(a, power)),
     Call(0, ToSubmit(a, Custom))]
  }

  lemma OpeningRuns(a: Address, g: Address, c: Config, power: int)
    requires ValidConfig(c) && 0 < power <= I128_MAX && c.proposalThreshold <= power
    ensures Run(Opening(a, g, c, power)) == Started(a, g, c, power)
  {
    var c0, c1, c2, c3 := Call(0, ToInitialize(a, g)), Call(0, ToConfigure(a, c)), Call(0, ToDeposit(a, power)),
                          Call(0, ToSubmit(a, Custom));
    RunThree(c0, c1, c2);
    var s1, s2, s3 := Run([c0]), Run([c0, c1]), Run([c0, c1, c2]);
    assert s1 == EMPTY.(officers := Some(Officers(a, g)));
    assert s2 == s1.(config := c);
    assert s3 == s2.(votingPower := map[a := power], totalVotingPower := power);
    Extend([c0, c1, c2], s3, c3);
    assert [c0, c1, c2] + [c3] == Opening(a, g, c, power);
    assert CountActive(s3.dockets, []) == 0 && [] + [1] == [1];
  }

  /** The same after a voted for it. */
  function Voted(s: State, a: Address, power: int): State
    requires 1 in s.dockets
  {
    var d, v := s.dockets[1], VoteRecord(a, a, power, For, 0, false);
    s.(dockets := s.dockets[1 := d.(proposal := Tallied(d.proposal, For, power), votes := d.votes[a := v])])
  }

  lemma VoteRuns(s: State, a: Address, power: int)
    requires 1 in s.dockets && s.dockets[1].proposal.status == Voting && a !in s.dockets[1].votes
    requires At(s.votingPower, a) == power > 0
    ensures Step(s, Call(0, To(1, CastVote(a, For)))) == Voted(s, a, power)
  {
    assert WrapI128(s.totalRewards + 0) == s.totalRewards;
  }

  /** 1000 votes for, and none against, of 1000 pass. */
  lemma ClosePasses(s: State, now: u64)
    requires 1 in s.dockets && s.totalVotingPower == 1000 && now > 604800
    requires var p := s.dockets[1].proposal;
             && p.status == Voting && p.votingEnds == 604800
             && p.votesFor == 1000 && p.votesAgainst == 0 && p.votesAbstain == 0
    requires s.config.quorumBps == 400 && s.config.approvalBps == 5001
    ensures var t := Step(s, Call(now, To(1, FinalizeProposal)));
            && Answer(s, Call(now, To(1, FinalizeProposal))) == Ok(Finalized(Passed))
            && t.config == s.config && 1 in t.dockets
            && t.dockets[1].proposal == s.dockets[1].proposal.(status := Passed)
  {
    assert Verdict(1000, s.config, s.dockets[1].proposal) == Ok(Passed);
  }

  lemma QueueThenExecute(s: State, now: u64)
    requires HasStatus(s, 1, Passed) && s.dockets[1].proposal.action == Custom
    requires s.config.timelockDelay == U64_MAX && now > 0
    ensures var queue, execute := Call(now, To(1, QueueTimelock)), Call(now, To(1, ExecuteProposal));
            Apply(s, queue).Ok? && Apply(Step(s, queue), execute).Ok? && DelayOf(s, 1) == U64_MAX
  {
  }

  /** Opened with 1000 of power, voted for, and closed: passed. */
  function Passing(a: Address, g: Address, c: Config): seq<Call> {
    Opening(a, g, c, 1000) + [Call(0, To(1, CastVote(a, For)))] + [Call(604801, To(1, FinalizeProposal))]
  }

  lemma PassingRuns(a: Address, g: Address, c: Config)
    requires ValidConfig(c) && c.votingPeriod == 604800 && c.proposalThreshold <= 1000
    requires c.quorumBps == 400 && c.approvalBps == 5001
    ensures var s := Run(Passing(a, g, c));
            HasStatus(s, 1, Passed) && s.dockets[1].proposal.action == Custom && s.config == c
  {
    hide Run;
    var start, s := Opening(a, g, c, 1000), Started(a, g, c, 1000);
    OpeningRuns(a, g, c, 1000);
    var vote, close := Call(0, To(1, CastVote(a, For))), Call(604801, To(1, FinalizeProposal));
    VoteRuns(s, a, 1000);
    var voted := Voted(s, a, 1000);
    ClosePasses(voted, close.now);
    hide Step, Opening, Started, Voted;
    Extend(start, s, vote);
    Extend(start + [vote], voted, close);
  }

  lemma PassingShape(a: Address, g: Address, c: Config)
    ensures |Passing(a, g, c)| == 6 && forall i :: 0 <= i < 6 ==> Passing(a, g, c)[i].now <= 604801
    ensures TimeOrdered(Passing(a, g, c))
  {
  }

  /** A delay too long for a timestamp is accepted by the configuration and delays nothing: queued and executed at
      one time. */
  lemma WrappedDelayExample(a: Address, g: Address) returns (calls: seq<Call>)
    ensures TimeOrdered(calls) && |calls| == 8 && calls[6].now == calls[7].now
    ensures Happens(calls, 6, To(1, QueueTimelock)) && Happens(calls, 7, To(1, ExecuteProposal))
    ensures DelayOf(Run(calls[..6]), 1) == U64_MAX
  {
    hide Run, Step, Apply, Passing;
    var c := DEFAULTS.(timelockDelay := U64_MAX);
    var passing := Passing(a, g, c);
    PassingRuns(a, g, c);
    PassingShape(a, g, c);
    var s := Run(passing);
    var queue, execute := Call(604801, To(1, QueueTimelock)), Call(604801, To(1, ExecuteProposal));
    QueueThenExecute(s, 604801);
    Extend(passing, s, queue);
    Extend(passing + [queue], Step(s, queue), execute);
    calls := passing + [queue] + [execute];
    assert calls[..6] == passing && calls[..7] == passing + [queue] && calls[6] == queue && calls[7] == execute;
  }

  /** The same power, deposited again by someone else, votes again: two votes of the largest power leave a tally of
      -2, the sum of the two records wrapped. */
  lemma WrappedTallyExample(a: Address, b: Address, g: Address) returns (calls: seq<Call>)
    requires a != b
    ensures var s := Run(calls);
            && 1 in s.dockets && s.dockets[1].votes.Keys == {a, b} && s.dockets[1].proposal.votesFor == -2
            && s.dockets[1].votes[a].weight == s.dockets[1].votes[b].weight == I128_MAX
            && s.totalVotingPower == I128_MAX
  {
    hide Run;
    var start, s := Opening(a, g, DEFAULTS, I128_MAX), Started(a, g, DEFAULTS, I128_MAX);
    OpeningRuns(a, g, DEFAULTS, I128_MAX);
    var first, second := Call(0, To(1, CastVote(a, For))), Call(0, To(1, CastVote(b, For)));
    var out, into := Call(0, ToWithdraw(a, I128_MAX)), Call(0, ToDeposit(b, I128_MAX));
    VoteRuns(s, a, I128_MAX);
    var s1 := Voted(s, a, I128_MAX);
    PowerMoves(s1, a, b);
    var s2 := Step(s1, out);
    var s3 := Step(s2, into);
    VoteRuns(s3, b, I128_MAX);
    assert s1.dockets[1].proposal.votesFor == I128_MAX && WrapI128(I128_MAX + I128_MAX) == -2;
    assert Voted(s3, b, I128_MAX).dockets[1].proposal.votesFor == -2;
    assert Voted(s3, b, I128_MAX).dockets[1].votes.Keys == {a, b};
    hide Step, Opening, Started;
    Extend(start, s, first);
    Extend(start + [first], s1, out);
    Extend(start + [first] + [out], s2, into);
    Extend(start + [first] + [out] + [into], s3, second);
    calls := start + [first] + [out] + [into] + [second];
  }

  lemma PowerMoves(s: State, a: Address, b: Address)
    requires s.votingPower == map[a := I128_MAX] && s.totalVotingPower == I128_MAX && a != b
    ensures var t := Step(Step(s, Call(0, ToWithdraw(a, I128_MAX))), Call(0, ToDeposit(b, I128_MAX)));
            t.votingPower == map[b := I128_MAX] && t.totalVotingPower == I128_MAX && t.dockets == s.dockets
  {
  }

  /** The documented quorum, a share of the total supply, is missed by far, and yet the only holder who deposited
      passes a proposal alone. */
  lemma QuorumExample(a: Address, g: Address) returns (calls: seq<Call>)
    ensures var s := Run(calls);
            && HasStatus(s, 1, Passed) && AllVotes(s.dockets[1].proposal) == 1000
            && s.totalSupply == 1000000 && Share(s.totalSupply, s.config.quorumBps) == Ok(40000)
  {
    hide Run;
    var start, s := Opening(a, g, DEFAULTS, 1000), Started(a, g, DEFAULTS, 1000);
    OpeningRuns(a, g, DEFAULTS, 1000);
    var supply := Call(0, ToSetSupply(a, 1000000));
    var vote, close := Call(0, To(1, CastVote(a, For))), Call(604801, To(1, FinalizeProposal));
    var s1 := s.(totalSupply := 1000000);
    VoteRuns(s1, a, 1000);
    var s2 := Voted(s1, a, 1000);
    ClosePasses(s2, close.now);
    CloseKeepsSupply(s2, close.now);
    hide Step, Opening, Started, Voted, Answer;
    SupplySet(s, a, 0, 1000000);
    Extend(start, s, supply);
    Extend(start + [supply], s1, vote);
    Extend(start + [supply] + [vote], s2, close);
    calls := start + [supply] + [vote] + [close];
  }

  lemma SupplySet(s: State, a: Address, now: u64, supply: i128)
    requires s.officers.Some? && s.officers.value.admin == a
    ensures Step(s, Call(now, ToSetSupply(a, supply))) == s.(totalSupply := supply)
  {
  }

  lemma CloseKeepsSupply(s: State, now: u64)
    ensures Step(s, Call(now, To(1, FinalizeProposal))).totalSupply == s.totalSupply
  {
    hide Verdict;
  }

  /**
   Whatever became of proposal 1 before an `initialize` that comes late, Executed included, the next submission
   opens it for voting again: what RunSettles excludes does happen, from every such state.
   */
  lemma LateInitializeReopens(calls: seq<Call>, now: u64, admin: Address, guardian: Address, holder: Address,
                              action: Action)
    requires Run(calls).officers.None? && 1 in Run(calls).dockets && At(Run(calls).votingPower, holder) >= 1000
    ensures var longer := calls + [Call(now, ToInitialize(admin, guardian))] + [Call(now, ToSubmit(holder, action))];
            HasStatus(Run(longer), 1, Voting) && Reused(Run(longer), 1)
            && Run(longer).dockets[1].votes == Run(calls).dockets[1].votes
  {
    hide Run, IdsKnown;
    var s := Run(calls);
    IdsKept(calls);
    RunUninitialized(calls);
    var late, submit := Call(now, ToInitialize(admin, guardian)), Call(now, ToSubmit(holder, action));
    ReopensAt(s, now, admin, guardian, holder, action);
    Extend(calls, s, late);
    Extend(calls + [late], Step(s, late), submit);
  }

  lemma ReopensAt(s: State, now: u64, admin: Address, guardian: Address, holder: Address, action: Action)
    requires s.officers.None? && 1 in s.dockets && At(s.votingPower, holder) >= 1000 && IdsKnown(s)
    requires s.abandoned == 0 || s.officers.Some?
    ensures var t := Step(Step(s, Call(now, ToInitialize(admin, guardian))), Call(now, ToSubmit(holder, action)));
            HasStatus(t, 1, Voting) && Reused(t, 1) && t.dockets[1].votes == s.dockets[1].votes
  {
    assert CountActive(s.dockets, []) == 0;
  }
}
