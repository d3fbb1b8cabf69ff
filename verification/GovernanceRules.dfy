/** When each call of governance succeeds and what it then writes, in the stored fields; and where votes come from. */
module GovernanceRules {
  import opened Wrappers
  import opened Checked
  import opened Host
  import opened Sums
  import opened Governance
  import opened GovernanceLaws

  // ---------------------------------------------------------------------------------------------
  // Voting power and configuration
  // ---------------------------------------------------------------------------------------------

  /** A deposit raises the holder's power and the total by a positive amount, if both sums fit. */
  lemma DepositIff(s: State, now: u64, holder: Address, amount: int)
    ensures var r, p := Apply(s, Call(now, ToDeposit(holder, amount))), At(s.votingPower, holder) + amount;
            && (r.Ok? <==> amount > 0 && FitsI128(p) && FitsI128(s.totalVotingPower + amount))
            && (r.Ok? ==> r.value.state == s.(votingPower := s.votingPower[holder := p],
                                              totalVotingPower := s.totalVotingPower + amount))
  {
  }

  /** A withdrawal lowers both by a positive amount that the holder has; nobody else's power changes. */
  lemma WithdrawIff(s: State, now: u64, holder: Address, amount: int)
    ensures var r := Apply(s, Call(now, ToWithdraw(holder, amount)));
            && (r.Ok? <==> 0 < amount <= At(s.votingPower, holder) && FitsI128(s.totalVotingPower - amount))
            && (r.Ok? ==>
                  && r.value.state == s.(votingPower := r.value.state.votingPower,
                                         totalVotingPower := s.totalVotingPower - amount)
                  && forall a :: At(r.value.state.votingPower, a)
                                 == At(s.votingPower, a) - if a == holder then amount else 0)
  {
  }

  /** Only the first `initialize` succeeds. It names the officers, stores the default configuration, and resets the
      total of voting power, the total supply, the ids and the pause, but neither deposits nor what is stored under
      proposals. */
  lemma InitializeIff(s: State, now: u64, admin: Address, guardian: Address)
    ensures var r := Apply(s, Call(now, ToInitialize(admin, guardian)));
            && (r.Ok? <==> s.officers.None?)
            && (r.Ok? ==>
                  && r.value.state.officers == Some(Officers(admin, guardian))
                  && r.value.state.config == Config(1000, 604800, 400, 5001, 172800, 3600, 1000, 2, 10, 10)
                  && r.value.state.totalVotingPower == r.value.state.totalSupply == 0 && !r.value.state.paused
                  && r.value.state.nextId == 1 && r.value.state.allIds == []
                  && r.value.state.votingPower == s.votingPower && r.value.state.dockets == s.dockets
                  && r.value.state.delegations == s.delegations && r.value.state.totalRewards == s.totalRewards)
  {
  }

  /** Only the administrator configures, and only with a period, shares, a threshold and a cap that make sense. */
  lemma ConfigureIff(s: State, now: u64, caller: Address, c: Config)
    ensures var r := Apply(s, Call(now, ToConfigure(caller, c)));
            && (r.Ok? <==> && s.officers.Some? && caller == s.officers.value.admin
                           && c.votingPeriod > 0 && 1 <= c.quorumBps <= 10000 && 1 <= c.approvalBps <= 10000
                           && c.multisigThreshold > 0 && c.maxActive > 0)
            && (r.Ok? ==> r.value.state == s.(config := c))
  {
  }

  /** And only the administrator records a total supply. */
  lemma SupplyIff(s: State, now: u64, caller: Address, supply: i128)
    ensures var r := Apply(s, Call(now, ToSetSupply(caller, supply)));
            && (r.Ok? <==> s.officers.Some? && caller == s.officers.value.admin)
            && (r.Ok? ==> r.value.state == s.(totalSupply := supply))
  {
  }

  /** Either officer pauses, only the administrator resumes, and each only where it changes something. */
  lemma PauseIff(s: State, now: u64, caller: Address)
    ensures var r := Apply(s, Call(now, ToPause(caller)));
            && (r.Ok? <==> && s.officers.Some? && !s.paused
                           && (caller == s.officers.value.admin || caller == s.officers.value.guardian))
            && (r.Ok? ==> r.value.state == s.(paused := true))
    ensures var r := Apply(s, Call(now, ToUnpause(caller)));
            && (r.Ok? <==> s.officers.Some? && s.paused && caller == s.officers.value.admin)
            && (r.Ok? ==> r.value.state == s.(paused := false))
  {
  }

  /** A holder delegates to anyone else, and takes back what it delegated. */
  lemma DelegateIff(s: State, now: u64, holder: Address, delegate: Address)
    ensures var r := Apply(s, Call(now, ToDelegate(holder, delegate)));
            && (r.Ok? <==> holder != delegate)
            && (r.Ok? ==> r.value.state == s.(delegations := s.delegations[holder := Delegation(delegate, now, true)]))
    ensures var r := Apply(s, Call(now, ToRevoke(holder)));
            && (r.Ok? <==> holder in s.delegations)
            && (r.Ok? ==> && holder in r.value.state.delegations && !r.value.state.delegations[holder].active
                          && r.value.state.delegations[holder].delegate == s.delegations[holder].delegate
                          && r.value.state == s.(delegations := s.delegations[holder
                                                   := r.value.state.delegations[holder]]))
  {
  }

  // ---------------------------------------------------------------------------------------------
  // Proposals
  // ---------------------------------------------------------------------------------------------

  /** How many of some ids are of proposals that are open for voting, passed or waiting. */
  ghost function Unsettled(dockets: map<nat, Docket>, ids: seq<nat>): nat {
    if ids == [] then 0
    else
      var last := ids[|ids| - 1];
      Unsettled(dockets, ids[..|ids| - 1])
      + if last in dockets && dockets[last].proposal.status in {Voting, Passed, Timelock} then 1 else 0
  }

  lemma {:induction false} ActiveMeans(dockets: map<nat, Docket>, ids: seq<nat>)
    ensures CountActive(dockets, ids) == Unsettled(dockets, ids)
  {
    if ids != [] {
      ActiveMeans(dockets, ids[..|ids| - 1]);
    }
  }

  /** A proposal needs the configured power of its proposer, and room below the cap on active ones. */
  lemma SubmitIff(s: State, now: u64, proposer: Address, action: Action)
    ensures var r := Apply(s, Call(now, ToSubmit(proposer, action)));
            && (r.Ok? <==> At(s.votingPower, proposer) >= s.config.proposalThreshold
                           && Unsettled(s.dockets, s.allIds) < s.config.maxActive)
            && (r.Ok? ==>
                  && r.value.report == Created(s.nextId) && s.nextId in r.value.state.dockets
                  && var p := r.value.state.dockets[s.nextId].proposal;
                     && p.proposer == proposer && p.action == action && p.status == Voting && p.createdAt == now
                     && p.votingEnds == (now + s.config.votingPeriod) % (U64_MAX + 1)
                     && p.votesFor == p.votesAgainst == p.votesAbstain == 0 && p.voterCount == 0
                     && r.value.state.allIds == s.allIds + [s.nextId])
  {
    hide CountActive;
    ActiveMeans(s.dockets, s.allIds);
  }

  /** The state after a call on a proposal: nothing but its docket, and perhaps the total of rewards. */
  ghost predicate OnlyDocket(s: State, t: State, pid: nat) {
    && pid in s.dockets && pid in t.dockets
    && t == s.(dockets := s.dockets[pid := t.dockets[pid]], totalRewards := t.totalRewards)
  }

  /** The proposer or the administrator cancels, while the vote is open. */
  lemma CancelIff(s: State, now: u64, pid: nat, caller: Address)
    ensures var r := Apply(s, Call(now, To(pid, CancelProposal(caller))));
            && (r.Ok? <==> && pid in s.dockets && s.officers.Some?
                           && (caller == s.dockets[pid].proposal.proposer || caller == s.officers.value.admin)
                           && (s.dockets[pid].proposal.status == Voting
                               || s.dockets[pid].proposal.status == Submitted))
            && (r.Ok? ==>
                  && OnlyDocket(s, r.value.state, pid) && r.value.state.totalRewards == s.totalRewards
                  && r.value.state.dockets[pid]
                     == s.dockets[pid].(proposal := s.dockets[pid].proposal.(status := Cancelled)))
  {
  }

  /** May someone vote with the power of this holder: the time is not over, and that power has not voted. */
  ghost predicate VoteOpen(s: State, now: u64, pid: nat, holder: Address) {
    && pid in s.dockets && s.dockets[pid].proposal.status == Voting && now <= s.dockets[pid].proposal.votingEnds
    && holder !in s.dockets[pid].votes && At(s.votingPower, holder) > 0
  }

  /** Exactly one record is added, of the holder's whole power, and counted in its direction. */
  ghost predicate Voted(s: State, now: u64, pid: nat, voter: Address, holder: Address, dir: Direction, t: State) {
    && OnlyDocket(s, t, pid) && t.totalRewards == s.totalRewards
    && var d, e, power := s.dockets[pid], t.dockets[pid], At(s.votingPower, holder);
       && e.votes == d.votes[holder := VoteRecord(voter, holder, power, dir, now, voter != holder)]
       && e.timelock == d.timelock && e.claimed == d.claimed && e.proposal.status == Voting
       && e.proposal.voterCount == d.proposal.voterCount + 1
       && e.proposal.votesFor
          == (if dir == For then WrapI128(d.proposal.votesFor + power) else d.proposal.votesFor)
       && e.proposal.votesAgainst
          == (if dir == Against then WrapI128(d.proposal.votesAgainst + power) else d.proposal.votesAgainst)
       && e.proposal.votesAbstain
          == if dir == Abstain then WrapI128(d.proposal.votesAbstain + power) else d.proposal.votesAbstain
  }

  /** A holder votes once, with the power it has at the time. */
  lemma VoteIff(s: State, now: u64, pid: nat, voter: Address, dir: Direction)
    ensures var r := Apply(s, Call(now, To(pid, CastVote(voter, dir))));
            && (r.Ok? <==> VoteOpen(s, now, pid, voter))
            && (r.Ok? ==> Voted(s, now, pid, voter, voter, dir, r.value.state))
  {
  }

  /** A delegate votes with the power of a holder whose active delegation names it. */
  lemma DelegatedVoteIff(s: State, now: u64, pid: nat, delegate: Address, holder: Address, dir: Direction)
    requires delegate != holder
    ensures var r := Apply(s, Call(now, To(pid, CastDelegatedVote(delegate, holder, dir))));
            && (r.Ok? <==> && VoteOpen(s, now, pid, holder) && holder in s.delegations
                           && s.delegations[holder].active && s.delegations[holder].delegate == delegate)
            && (r.Ok? ==> Voted(s, now, pid, delegate, holder, dir, r.value.state))
  {
  }

  /** After the voting has ended, and if the shares can be computed, the proposal passes or is defeated. */
  lemma FinalizeIff(s: State, now: u64, pid: nat)
    ensures var r := Apply(s, Call(now, To(pid, FinalizeProposal)));
            && (r.Ok? ==>
                  && pid in s.dockets && s.dockets[pid].proposal.status == Voting
                  && s.dockets[pid].proposal.votingEnds < now && OnlyDocket(s, r.value.state, pid)
                  && r.value.state.dockets[pid]
                     == s.dockets[pid].(proposal := s.dockets[pid].proposal.(
                          status := if Approved(s.totalVotingPower, s.config, s.dockets[pid].proposal) then Passed
                                    else Defeated)))
            && (r.Err? ==>
                  || pid !in s.dockets || s.dockets[pid].proposal.status != Voting
                  || now <= s.dockets[pid].proposal.votingEnds
                  || !Representable(s.totalVotingPower, s.config, s.dockets[pid].proposal))
  {
    hide AllVotes, NetVotes, TruncDiv;
    if pid in s.dockets {
      var p := s.dockets[pid].proposal;
      PassedIff(s.totalVotingPower, s.config, p);
      ApprovedFits(s.totalVotingPower, s.config, p);
    }
  }

  lemma ApprovedFits(power: int, c: Config, p: Proposal)
    ensures Verdict(power, c, p).Ok? && Approved(power, c, p) ==> Representable(power, c, p)
    ensures Verdict(power, c, p).Ok? ==> Verdict(power, c, p).value == Passed || Verdict(power, c, p).value == Defeated
  {
    hide AllVotes, NetVotes, TruncDiv;
    if FitsI128(power * c.quorumBps) {
      ShareReached(power, c.quorumBps, AllVotes(p));
    }
  }

  /** A passed proposal is queued if the delay that the configuration has for its action is positive: the emergency
      delay for an emergency action, the timelock delay for any other. That delay from now on, it may be executed. */
  lemma QueueIff(s: State, now: u64, pid: nat)
    ensures var r := Apply(s, Call(now, To(pid, QueueTimelock)));
            && (r.Ok? <==> && pid in s.dockets && s.dockets[pid].proposal.status == Passed
                           && (if s.dockets[pid].proposal.action == EmergencyAction then s.config.emergencyDelay
                               else s.config.timelockDelay) > 0)
            && (r.Ok? ==>
                  && OnlyDocket(s, r.value.state, pid) && r.value.state.totalRewards == s.totalRewards
                  && var d := s.dockets[pid];
                     var delay := if d.proposal.action == EmergencyAction then s.config.emergencyDelay
                                  else s.config.timelockDelay;
                     var expiry := (now + delay) % (U64_MAX + 1);
                     r.value.state.dockets[pid]
                     == d.(proposal := d.proposal.(status := Timelock, timelockExpiry := expiry),
                           timelock := Some(TimelockEntry(now, expiry, Pending))))
  {
  }

  /** A queued proposal is executed from its expiry on, once. */
  lemma ExecuteIff(s: State, now: u64, pid: nat)
    ensures var r := Apply(s, Call(now, To(pid, ExecuteProposal)));
            && (r.Ok? <==> && pid in s.dockets && s.dockets[pid].proposal.status == Timelock
                           && s.dockets[pid].timelock.Some?
                           && var e := s.dockets[pid].timelock.value;
                              e.status != Done && e.status != Dropped && e.executeAfter <= now)
            && (r.Ok? ==>
                  && OnlyDocket(s, r.value.state, pid)
                  && r.value.state.dockets[pid].proposal
                     == s.dockets[pid].proposal.(status := Executed, executedAt := now))
  {
  }

  /** The administrator and the guardian together execute any proposal that is not final, past its timelock. */
  lemma EmergencyIff(s: State, now: u64, pid: nat, caller: Address, coSigner: Address)
    ensures var r := Apply(s, Call(now, To(pid, EmergencyExecute(caller, coSigner))));
            && (r.Ok? <==> && pid in s.dockets && s.officers.Some?
                           && (|| (caller == s.officers.value.admin && coSigner == s.officers.value.guardian)
                               || (caller == s.officers.value.guardian && coSigner == s.officers.value.admin))
                           && s.dockets[pid].proposal.status !in {Executed, Cancelled, ExecutionFailed})
            && (r.Ok? ==>
                  && OnlyDocket(s, r.value.state, pid)
                  && r.value.state.dockets[pid].proposal
                     == s.dockets[pid].proposal.(status := Executed, executedAt := now))
  {
  }

  /** Whoever's power voted on a proposal claims the configured reward for it once. */
  lemma ClaimIff(s: State, now: u64, pid: nat, voter: Address)
    ensures var r := Apply(s, Call(now, To(pid, ClaimRewards(voter))));
            && (r.Ok? <==> && pid in s.dockets && voter in s.dockets[pid].votes
                           && voter !in s.dockets[pid].claimed)
            && (r.Ok? ==>
                  && OnlyDocket(s, r.value.state, pid) && r.value.report == Reward(s.config.reward)
                  && r.value.state.totalRewards == WrapI128(s.totalRewards + s.config.reward)
                  && r.value.state.dockets[pid] == s.dockets[pid].(claimed := s.dockets[pid].claimed + {voter}))
  {
  }

  // ---------------------------------------------------------------------------------------------
  // Where votes come from
  // ---------------------------------------------------------------------------------------------

  /** This call made the record: the holder voted itself, or a delegate did whom the holder then named. */
  ghost predicate Casts(s: State, c: Call, pid: nat, holder: Address, v: VoteRecord) {
    && Apply(s, c).Ok? && c.op.To? && c.op.pid == pid
    && v.weight == At(s.votingPower, holder) && v.weight > 0 && v.timestamp == c.now && v.holder == holder
    && (|| (c.op.act == CastVote(holder, v.direction) && v.voter == holder)
        || (&& c.op.act == CastDelegatedVote(v.voter, holder, v.direction) && holder in s.delegations
            && s.delegations[holder].active && s.delegations[holder].delegate == v.voter))
  }

  lemma StepVotes(s: State, c: Call, pid: nat, holder: Address)
    requires NoSelfDelegation(s) && pid in Step(s, c).dockets && holder in Step(s, c).dockets[pid].votes
    ensures var v := Step(s, c).dockets[pid].votes[holder];
            || (pid in s.dockets && holder in s.dockets[pid].votes && s.dockets[pid].votes[holder] == v)
            || Casts(s, c, pid, holder, v)
  {
    hide Step, Apply, Opened, CountActive;
    StepDocket(s, c, pid);
    var t := Step(s, c);
    if pid in s.dockets && t.dockets[pid] != s.dockets[pid] && !Opens(s, c, t.dockets[pid], pid) {
      AdvanceVotes(s, c, pid, holder);
    }
  }

  lemma AdvanceVotes(s: State, c: Call, pid: nat, holder: Address)
    requires c.op.To? && c.op.pid == pid && pid in s.dockets && Apply(s, c).Ok?
    requires Permitted(s, pid, c.op.act).Ok? && Advance(s, c.now, s.dockets[pid], c.op.act).Ok?
    requires holder in Advance(s, c.now, s.dockets[pid], c.op.act).value.votes
    ensures var v := Advance(s, c.now, s.dockets[pid], c.op.act).value.votes[holder];
            || (holder in s.dockets[pid].votes && s.dockets[pid].votes[holder] == v)
            || Casts(s, c, pid, holder, v)
  {
    hide Apply;
  }

  /** Call k cast a vote with the power that its holder had at the time. */
  ghost predicate CastAt(calls: seq<Call>, k: nat, pid: nat, holder: Address, v: VoteRecord) {
    k < |calls| && Casts(Run(calls[..k]), calls[k], pid, holder, v)
  }

  /** Behind every record in every run stands the call that cast it. */
  lemma {:induction false} VoteOrigin(calls: seq<Call>, pid: nat, holder: Address) returns (k: nat)
    requires pid in Run(calls).dockets && holder in Run(calls).dockets[pid].votes
    ensures CastAt(calls, k, pid, holder, Run(calls).dockets[pid].votes[holder])
  {
    hide Step, Casts;
    var n := |calls| - 1;
    var init, v := calls[..n], Run(calls).dockets[pid].votes[holder];
    RecordsKept(init);
    StepVotes(Run(init), calls[n], pid, holder);
    if Casts(Run(init), calls[n], pid, holder, v) {
      k := n;
    } else {
      k := VoteOrigin(init, pid, holder);
      assert init[..k] == calls[..k];
    }
  }
}
