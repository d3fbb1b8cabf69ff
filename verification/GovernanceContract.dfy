/** The governance contract's stored entries and the entry points that read and update them. */
module GovernanceContract {
  import opened Wrappers
  import opened Checked
  import opened Host
  import opened Sums
  import opened Governance

  lemma ApplyInitialize(s: State, now: u64, admin: Address, guardian: Address)
    ensures Apply(s, Call(now, ToInitialize(admin, guardian))) == Governance.Initialize(s, admin, guardian)
  {
  }

  lemma ApplySubmit(s: State, now: u64, proposer: Address, action: Action)
    ensures Apply(s, Call(now, ToSubmit(proposer, action))) == Submit(s, now, proposer, action)
  {
  }

  class GovernanceDAO {
    var officers: Option<Officers>
    var config: Config
    var totalSupply: i128
    var votingPower: map<Address, int>
    var totalVotingPower: int
    var nextId: nat
    var allIds: seq<nat>
    var dockets: map<nat, Docket>
    var delegations: map<Address, Delegation>
    var totalRewards: i128
    var paused: bool
    ghost var forgotten: int
    ghost var abandoned: nat

    ghost function View(): State
      reads this
    {
      State(officers, config, totalSupply, votingPower, totalVotingPower, nextId, allIds, dockets, delegations,
            totalRewards, paused, forgotten, abandoned)
    }

    constructor ()
      ensures View() == EMPTY
    {
      officers, config, totalSupply := None, DEFAULTS, 0;
      votingPower, totalVotingPower := map[], 0;
      nextId, allIds, dockets := 1, [], map[];
      delegations, totalRewards, paused := map[], 0, false;
      forgotten, abandoned := 0, 0;
    }

    /** What `initialize` starts over. */
    method ResetCounters()
      modifies this`totalSupply, this`totalVotingPower, this`paused, this`nextId, this`allIds
      modifies this`forgotten, this`abandoned
      ensures totalSupply == 0 && totalVotingPower == 0 && !paused && nextId == 1 && allIds == []
      ensures forgotten == old(totalVotingPower) && abandoned == |old(allIds)|
    {
      forgotten, abandoned := totalVotingPower, |allIds|;
      totalSupply, totalVotingPower, paused := 0, 0, false;
      nextId, allIds := 1, [];
    }

    method Initialize(now: u64, admin: Address, guardian: Address) returns (r: Result<Report, Error>)
      modifies this
      ensures r == Answer(old(View()), Call(now, ToInitialize(admin, guardian)))
      ensures View() == Step(old(View()), Call(now, ToInitialize(admin, guardian)))
    {
      ApplyInitialize(View(), now, admin, guardian);
      hide Apply;
      if officers.Some? {
        return Err(AlreadyInitialized);
      }
      officers := Some(Officers(admin, guardian));
      config := Config(1000, 604800, 400, 5001, 172800, 3600, 1000, 2, 10, 10);
      ResetCounters();
      return Ok(Acknowledged);
    }

    method AssertAdmin(caller: Address) returns (r: Result<(), Error>)
      ensures officers.None? ==> r == Err(NotInitialized)
      ensures officers.Some? ==> r == if caller == officers.value.admin then Ok(()) else Err(Unauthorized)
    {
      if officers.None? {
        return Err(NotInitialized);
      }
      if caller != officers.value.admin {
        return Err(Unauthorized);
      }
      return Ok(());
    }

    method SetConfig(now: u64, caller: Address, c: Config) returns (r: Result<Report, Error>)
      modifies this`config
      ensures r == Answer(old(View()), Call(now, ToConfigure(caller, c)))
      ensures View() == Step(old(View()), Call(now, ToConfigure(caller, c)))
    {
      var _ :- AssertAdmin(caller);
      if c.votingPeriod == 0 || c.quorumBps == 0 || c.quorumBps > BPS || c.approvalBps == 0 || c.approvalBps > BPS
         || c.multisigThreshold == 0 || c.maxActive == 0 {
        return Err(InvalidConfig);
      }
      config := c;
      return Ok(Acknowledged);
    }

    method SetTotalSupply(now: u64, caller: Address, supply: i128) returns (r: Result<Report, Error>)
      modifies this`totalSupply
      ensures r == Answer(old(View()), Call(now, ToSetSupply(caller, supply)))
      ensures View() == Step(old(View()), Call(now, ToSetSupply(caller, supply)))
    {
      var _ :- AssertAdmin(caller);
      totalSupply := supply;
      return Ok(Acknowledged);
    }

    method DepositVotingPower(now: u64, holder: Address, amount: int) returns (r: Result<Report, Error>)
      modifies this`votingPower, this`totalVotingPower
      ensures r == Answer(old(View()), Call(now, ToDeposit(holder, amount)))
      ensures View() == Step(old(View()), Call(now, ToDeposit(holder, amount)))
    {
      if amount <= 0 {
        return Err(InvalidConfig);
      }
      var power :- CheckedAdd(At(votingPower, holder), amount, InvalidConfig);
      var total :- CheckedAdd(totalVotingPower, amount, InvalidConfig);
      votingPower := votingPower[holder := power];
      totalVotingPower := total;
      return Ok(Power(power));
    }

    method WithdrawVotingPower(now: u64, holder: Address, amount: int) returns (r: Result<Report, Error>)
      modifies this`votingPower, this`totalVotingPower
      ensures r == Answer(old(View()), Call(now, ToWithdraw(holder, amount)))
      ensures View() == Step(old(View()), Call(now, ToWithdraw(holder, amount)))
    {
      if amount <= 0 {
        return Err(InvalidConfig);
      }
      var current := At(votingPower, holder);
      if amount > current {
        return Err(NoVotingPower);
      }
      var total :- CheckedSub(totalVotingPower, amount, InvalidConfig);
      if current - amount == 0 {
        votingPower := votingPower - {holder};
      } else {
        votingPower := votingPower[holder := current - amount];
      }
      totalVotingPower := total;
      return Ok(Power(current - amount));
    }

    method CountActiveProposals() returns (count: nat)
      ensures count == CountActive(dockets, allIds)
    {
      count := 0;
      for i := 0 to |allIds|
        invariant count == CountActive(dockets, allIds[..i])
      {
        assert allIds[..i + 1][..i] == allIds[..i];
        var pid := allIds[i];
        if pid in dockets {
          var status := dockets[pid].proposal.status;
          if status == Voting || status == Timelock || status == Passed {
            count := count + 1;
          }
        }
      }
      assert allIds[..|allIds|] == allIds;
    }

    method SubmitProposal(now: u64, proposer: Address, action: Action) returns (r: Result<Report, Error>)
      modifies this`nextId, this`allIds, this`dockets
      ensures r == Answer(old(View()), Call(now, ToSubmit(proposer, action)))
      ensures View() == Step(old(View()), Call(now, ToSubmit(proposer, action)))
    {
      ApplySubmit(View(), now, proposer, action);
      hide Apply;
      if At(votingPower, proposer) < config.proposalThreshold {
        return Err(InsufficientVotingPower);
      }
      var active := CountActiveProposals();
      if active >= config.maxActive {
        return Err(MaxProposalsReached);
      }
      var id := nextId;
      var votingEnds := WrappingAdd(now, config.votingPeriod);
      var proposal := Proposal(proposer, action, Voting, 0, 0, 0, 0, now, votingEnds, 0, 0);
      dockets := dockets[id := if id in dockets then dockets[id].(proposal := proposal)
                               else Docket(proposal, map[], None, {})];
      nextId := id + 1;
      allIds := allIds + [id];
      return Ok(Created(id));
    }

    method CancelProposal(now: u64, caller: Address, pid: nat) returns (r: Result<Report, Error>)
      modifies this`dockets
      ensures r == Answer(old(View()), Call(now, To(pid, Act.CancelProposal(caller))))
      ensures View() == Step(old(View()), Call(now, To(pid, Act.CancelProposal(caller))))
    {
      if pid !in dockets {
        return Err(ProposalNotFound);
      }
      var d := dockets[pid];
      if officers.None? {
        return Err(NotInitialized);
      }
      if caller != d.proposal.proposer && caller != officers.value.admin {
        return Err(CannotCancel);
      }
      match d.proposal.status {
        case Submitted | Voting =>
          dockets := dockets[pid := d.(proposal := d.proposal.(status := Cancelled))];
        case _ =>
          return Err(CannotCancel);
      }
      return Ok(Acknowledged);
    }

    /** The checks and updates that direct and delegated votes share. */
    method RecordVote(now: u64, voter: Address, holder: Address, pid: nat, direction: Direction, delegated: bool)
      returns (r: Result<Report, Error>)
      modifies this`dockets
      ensures pid !in old(dockets) ==> r == Err(ProposalNotFound) && dockets == old(dockets)
      ensures pid in old(dockets) ==>
                var v := Vote(old(dockets)[pid], now, voter, holder, At(votingPower, holder), direction, delegated);
                && r == v.Map((d: Docket) => Acknowledged)
                && dockets == if v.Ok? then old(dockets)[pid := v.value] else old(dockets)
    {
      if pid !in dockets {
        return Err(ProposalNotFound);
      }
      var proposal, votes := dockets[pid].proposal, dockets[pid].votes;
      if proposal.status != Voting {
        return Err(NotVotable);
      }
      if now > proposal.votingEnds {
        return Err(VotingAlreadyEnded);
      }
      if holder in votes {
        return Err(AlreadyVoted);
      }
      var weight := At(votingPower, holder);
      if weight <= 0 {
        return Err(NoVotingPower);
      }
      votes := votes[holder := VoteRecord(voter, holder, weight, direction, now, delegated)];
      match direction {
        case For => proposal := proposal.(votesFor := WrapI128(proposal.votesFor + weight));
        case Against => proposal := proposal.(votesAgainst := WrapI128(proposal.votesAgainst + weight));
        case Abstain => proposal := proposal.(votesAbstain := WrapI128(proposal.votesAbstain + weight));
      }
      proposal := proposal.(voterCount := proposal.voterCount + 1);
      dockets := dockets[pid := dockets[pid].(proposal := proposal, votes := votes)];
      return Ok(Acknowledged);
    }

    method CastVote(now: u64, voter: Address, pid: nat, direction: Direction) returns (r: Result<Report, Error>)
      modifies this`dockets
      ensures r == Answer(old(View()), Call(now, To(pid, Act.CastVote(voter, direction))))
      ensures View() == Step(old(View()), Call(now, To(pid, Act.CastVote(voter, direction))))
    {
      r := RecordVote(now, voter, voter, pid, direction, false);
    }

    method CastDelegatedVote(now: u64, delegate: Address, holder: Address, pid: nat, direction: Direction)
      returns (r: Result<Report, Error>)
      modifies this`dockets
      ensures r == Answer(old(View()), Call(now, To(pid, Act.CastDelegatedVote(delegate, holder, direction))))
      ensures View() == Step(old(View()), Call(now, To(pid, Act.CastDelegatedVote(delegate, holder, direction))))
    {
      if holder !in delegations {
        return Err(DelegationNotFound);
      }
      var delegation := delegations[holder];
      if !delegation.active || delegation.delegate != delegate {
        return Err(DelegationNotFound);
      }
      r := RecordVote(now, delegate, holder, pid, direction, true);
    }

    method FinalizeProposal(now: u64, pid: nat) returns (r: Result<Report, Error>)
      modifies this`dockets
      ensures r == Answer(old(View()), Call(now, To(pid, Act.FinalizeProposal)))
      ensures View() == Step(old(View()), Call(now, To(pid, Act.FinalizeProposal)))
    {
      hide WrapI128, TruncDiv;
      if pid !in dockets {
        return Err(ProposalNotFound);
      }
      var proposal := dockets[pid].proposal;
      if proposal.status != Voting {
        return Err(VotingAlreadyEnded);
      }
      if now <= proposal.votingEnds {
        return Err(VotingNotEnded);
      }
      var totalVotes: int := WrapI128(WrapI128(proposal.votesFor + proposal.votesAgainst) + proposal.votesAbstain);
      var scaled :- CheckedMul(totalVotingPower, config.quorumBps, InvalidConfig);
      var status := Defeated;
      if totalVotes >= TruncDiv(scaled, BPS) {
        var netVotes: int := WrapI128(proposal.votesFor + proposal.votesAgainst);
        if netVotes != 0 {
          var approval :- CheckedMul(netVotes, config.approvalBps, InvalidConfig);
          if proposal.votesFor > TruncDiv(approval, BPS) {
            status := Passed;
          }
        }
      }
      dockets := dockets[pid := dockets[pid].(proposal := proposal.(status := status))];
      return Ok(Finalized(status));
    }

    method QueueTimelock(now: u64, pid: nat) returns (r: Result<Report, Error>)
      modifies this`dockets
      ensures r == Answer(old(View()), Call(now, To(pid, Act.QueueTimelock)))
      ensures View() == Step(old(View()), Call(now, To(pid, Act.QueueTimelock)))
    {
      if pid !in dockets {
        return Err(ProposalNotFound);
      }
      var proposal := dockets[pid].proposal;
      if proposal.status != Passed {
        return Err(CannotTimelock);
      }
      var delay := EffectiveDelay(config, proposal.action);
      if delay == 0 {
        return Err(CannotTimelock);
      }
      var entry := TimelockEntry(now, WrappingAdd(now, delay), Pending);
      proposal := proposal.(status := Timelock, timelockExpiry := entry.executeAfter);
      dockets := dockets[pid := dockets[pid].(proposal := proposal, timelock := Some(entry))];
      return Ok(Acknowledged);
    }

    method ExecuteProposal(now: u64, pid: nat) returns (r: Result<Report, Error>)
      modifies this`dockets
      ensures r == Answer(old(View()), Call(now, To(pid, Act.ExecuteProposal)))
      ensures View() == Step(old(View()), Call(now, To(pid, Act.ExecuteProposal)))
    {
      if pid !in dockets {
        return Err(ProposalNotFound);
      }
      var proposal, timelock := dockets[pid].proposal, dockets[pid].timelock;
      if proposal.status != Timelock {
        return Err(CannotExecute);
      }
      if timelock.None? || timelock.value.status == Done || timelock.value.status == Dropped
         || now < timelock.value.executeAfter {
        return Err(TimelockNotExpired);
      }
      // The entry turns Ready and then Done within this one call.
      var entry := timelock.value.(status := Done);
      proposal := proposal.(status := Executed, executedAt := now);
      dockets := dockets[pid := dockets[pid].(proposal := proposal, timelock := Some(entry))];
      return Ok(Acknowledged);
    }

    method EmergencyExecute(now: u64, caller: Address, coSigner: Address, pid: nat) returns (r: Result<Report, Error>)
      modifies this`dockets
      ensures r == Answer(old(View()), Call(now, To(pid, Act.EmergencyExecute(caller, coSigner))))
      ensures View() == Step(old(View()), Call(now, To(pid, Act.EmergencyExecute(caller, coSigner))))
    {
      if officers.None? {
        return Err(NotInitialized);
      }
      var admin, guardian := officers.value.admin, officers.value.guardian;
      if caller != admin && caller != guardian {
        return Err(GuardianRequired);
      }
      var other := if caller == admin then guardian else admin;
      if coSigner != other {
        return Err(NotAuthorizedByHost);
      }
      if pid !in dockets {
        return Err(ProposalNotFound);
      }
      var proposal := dockets[pid].proposal;
      if proposal.status == Executed || proposal.status == Cancelled || proposal.status == ExecutionFailed {
        return Err(CannotExecute);
      }
      proposal := proposal.(status := Executed, executedAt := now);
      dockets := dockets[pid := dockets[pid].(proposal := proposal)];
      return Ok(Acknowledged);
    }

    method DelegatePower(now: u64, delegator: Address, delegate: Address) returns (r: Result<Report, Error>)
      modifies this`delegations
      ensures r == Answer(old(View()), Call(now, ToDelegate(delegator, delegate)))
      ensures View() == Step(old(View()), Call(now, ToDelegate(delegator, delegate)))
    {
      if delegator == delegate {
        return Err(CannotDelegateToSelf);
      }
      delegations := delegations[delegator := Delegation(delegate, now, true)];
      return Ok(Acknowledged);
    }

    method RevokeDelegation(now: u64, delegator: Address) returns (r: Result<Report, Error>)
      modifies this`delegations
      ensures r == Answer(old(View()), Call(now, ToRevoke(delegator)))
      ensures View() == Step(old(View()), Call(now, ToRevoke(delegator)))
    {
      if delegator !in delegations {
        return Err(DelegationNotFound);
      }
      delegations := delegations[delegator := delegations[delegator].(active := false)];
      return Ok(Acknowledged);
    }

    method EmergencyPause(now: u64, caller: Address) returns (r: Result<Report, Error>)
      modifies this`paused
      ensures r == Answer(old(View()), Call(now, ToPause(caller)))
      ensures View() == Step(old(View()), Call(now, ToPause(caller)))
    {
      if officers.None? {
        return Err(NotInitialized);
      }
      if caller != officers.value.admin && caller != officers.value.guardian {
        return Err(GuardianRequired);
      }
      if paused {
        return Err(AlreadyPaused);
      }
      paused := true;
      return Ok(Acknowledged);
    }

    method EmergencyUnpause(now: u64, caller: Address) returns (r: Result<Report, Error>)
      modifies this`paused
      ensures r == Answer(old(View()), Call(now, ToUnpause(caller)))
      ensures View() == Step(old(View()), Call(now, ToUnpause(caller)))
    {
      var _ :- AssertAdmin(caller);
      if !paused {
        return Err(NotPaused);
      }
      paused := false;
      return Ok(Acknowledged);
    }

    method ClaimRewards(now: u64, voter: Address, pid: nat) returns (r: Result<Report, Error>)
      modifies this`dockets, this`totalRewards
      ensures r == Answer(old(View()), Call(now, To(pid, Act.ClaimRewards(voter))))
      ensures View() == Step(old(View()), Call(now, To(pid, Act.ClaimRewards(voter))))
    {
      if pid !in dockets {
        return Err(NoVotingPower);
      }
      var d := dockets[pid];
      if voter in d.claimed {
        return Err(RewardAlreadyClaimed);
      }
      if voter !in d.votes {
        return Err(NoVotingPower);
      }
      dockets := dockets[pid := d.(claimed := d.claimed + {voter})];
      totalRewards := WrapI128(totalRewards + config.reward);
      return Ok(Reward(config.reward));
    }
  }
}
