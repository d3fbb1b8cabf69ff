/** The governance contract's proposal lifecycle: voting power, votes, delegation, timelock, rewards. */
module Governance {
  import opened Wrappers
  import opened Checked
  import opened Host
  import opened Sums

  const BPS := 10000

  datatype Status = Submitted | Voting | Passed | Defeated | Timelock | Executed | Cancelled | ExecutionFailed
  datatype Action =
    ParameterChange | TreasurySpend | ProtocolUpgrade | EmergencyAction | RewardDistribution | Custom
  datatype Direction = For | Against | Abstain

  datatype Proposal = Proposal(
    proposer: Address,
    action: Action,
    status: Status,
    votesFor: i128,
    votesAgainst: i128,
    votesAbstain: i128,
    voterCount: nat,
    createdAt: u64,
    votingEnds: u64,
    timelockExpiry: u64,
    executedAt: u64)

  datatype VoteRecord = VoteRecord(
    voter: Address,
    holder: Address,
    weight: int,
    direction: Direction,
    timestamp: u64,
    delegated: bool)

  datatype Delegation = Delegation(delegate: Address, createdAt: u64, active: bool)

  datatype EntryStatus = Pending | Ready | Done | Dropped
  datatype TimelockEntry = TimelockEntry(scheduledAt: u64, executeAfter: u64, status: EntryStatus)

  datatype Config = Config(
    proposalThreshold: int,
    votingPeriod: u64,
    quorumBps: nat,
    approvalBps: nat,
    timelockDelay: u64,
    emergencyDelay: u64,
    maxSpendBps: nat,
    multisigThreshold: nat,
    reward: i128,
    maxActive: nat)

  const DEFAULTS := Config(1000, 604800, 400, 5001, 172800, 3600, 1000, 2, 10, 10)

  datatype Error =
    | Unauthorized | InsufficientVotingPower | ProposalNotFound | NotVotable | AlreadyVoted
    | VotingNotEnded | VotingAlreadyEnded | CannotTimelock | TimelockNotExpired | CannotExecute
    | CannotCancel | DelegationNotFound | CannotDelegateToSelf | NoVotingPower | RewardAlreadyClaimed
    | InvalidConfig | MaxProposalsReached | GuardianRequired | NotPaused | AlreadyPaused
    | AlreadyInitialized | NotInitialized
    | NotAuthorizedByHost  // the panic of a missing signature

  /** Everything stored under one proposal's id. Votes and claims are keyed by the token holder. */
  datatype Docket = Docket(
    proposal: Proposal,
    votes: map<Address, VoteRecord>,
    timelock: Option<TimelockEntry>,
    claimed: set<Address>)

  datatype Officers = Officers(admin: Address, guardian: Address)

  /**
   The stored entries, with their defaults where nothing is stored. The last two fields are history
   variables: the total voting power and the number of proposals that `initialize` reset to zero.
   */
  datatype State = State(
    officers: Option<Officers>,
    config: Config,
    totalSupply: i128,
    votingPower: map<Address, int>,
    totalVotingPower: int,
    nextId: nat,
    allIds: seq<nat>,
    dockets: map<nat, Docket>,
    delegations: map<Address, Delegation>,
    totalRewards: i128,
    paused: bool,
    forgotten: int,
    abandoned: nat)

  /** Nothing is stored yet. */
  const EMPTY := State(None, DEFAULTS, 0, map[], 0, 1, [], map[], map[], 0, false, 0, 0)

  datatype Report =
    Acknowledged | Power(power: int) | Created(id: nat) | Finalized(status: Status) | Reward(amount: int)
  datatype Outcome = Outcome(state: State, report: Report)

  // ---------------------------------------------------------------------------------------------
  // Configuration and voting power
  // ---------------------------------------------------------------------------------------------

  predicate ValidConfig(c: Config) {
    && c.votingPeriod != 0 && 0 < c.quorumBps <= BPS && 0 < c.approvalBps <= BPS
    && c.multisigThreshold != 0 && c.maxActive != 0
  }

  /** The counters, the configuration and the list of proposals are reset; everything else stays. */
  function Initialize(s: State, admin: Address, guardian: Address): Result<Outcome, Error> {
    if s.officers.Some? then Err(AlreadyInitialized)
    else
      Ok(Outcome(s.(officers := Some(Officers(admin, guardian)), config := DEFAULTS, totalSupply := 0,
                    totalVotingPower := 0, nextId := 1, allIds := [], paused := false,
                    forgotten := s.totalVotingPower, abandoned := |s.allIds|),
                 Acknowledged))
  }

  function CheckAdmin(s: State, caller: Address): Result<(), Error> {
    if s.officers.None? then Err(NotInitialized)
    else if caller != s.officers.value.admin then Err(Unauthorized)
    else Ok(())
  }

  function SetConfig(s: State, caller: Address, c: Config): Result<Outcome, Error> {
    var _ :- CheckAdmin(s, caller);
    if !ValidConfig(c) then Err(InvalidConfig) else Ok(Outcome(s.(config := c), Acknowledged))
  }

  function SetSupply(s: State, caller: Address, supply: i128): Result<Outcome, Error> {
    var _ :- CheckAdmin(s, caller);
    Ok(Outcome(s.(totalSupply := supply), Acknowledged))
  }

  function Deposit(s: State, holder: Address, amount: int): Result<Outcome, Error> {
    if amount <= 0 then Err(InvalidConfig)
    else
      var power :- CheckedAdd(At(s.votingPower, holder), amount, InvalidConfig);
      var total :- CheckedAdd(s.totalVotingPower, amount, InvalidConfig);
      Ok(Outcome(s.(votingPower := s.votingPower[holder := power], totalVotingPower := total), Power(power)))
  }

  /** A holder's entry is removed, not zeroed, when everything is withdrawn. */
  function WithPower(m: map<Address, int>, holder: Address, power: int): map<Address, int> {
    if power == 0 then m - {holder} else m[holder := power]
  }

  function Withdraw(s: State, holder: Address, amount: int): Result<Outcome, Error> {
    if amount <= 0 then Err(InvalidConfig)
    else if amount > At(s.votingPower, holder) then Err(NoVotingPower)
    else
      var power := At(s.votingPower, holder) - amount;
      var total :- CheckedSub(s.totalVotingPower, amount, InvalidConfig);
      Ok(Outcome(s.(votingPower := WithPower(s.votingPower, holder, power), totalVotingPower := total), Power(power)))
  }

  // ---------------------------------------------------------------------------------------------
  // Proposals and votes
  // ---------------------------------------------------------------------------------------------

  predicate Active(p: Proposal) {
    p.status == Voting || p.status == Timelock || p.status == Passed
  }

  /** How many of the listed proposals are being voted on, have passed, or wait in the timelock. */
  function CountActive(dockets: map<nat, Docket>, ids: seq<nat>): nat {
    if ids == [] then 0
    else
      var last := ids[|ids| - 1];
      CountActive(dockets, ids[..|ids| - 1]) + if last in dockets && Active(dockets[last].proposal) then 1 else 0
  }

  /** A proposal as it is submitted: open for voting, nothing counted. The end of the voting wraps around. */
  function Opened(now: u64, proposer: Address, action: Action, period: u64): Proposal {
    Proposal(proposer, action, Voting, 0, 0, 0, 0, now, WrappingAdd(now, period), 0, 0)
  }

  /** Only the proposal is written; whatever else is stored under its id stays. */
  function Put(dockets: map<nat, Docket>, id: nat, p: Proposal): Docket {
    if id in dockets then dockets[id].(proposal := p) else Docket(p, map[], None, {})
  }

  function Submit(s: State, now: u64, proposer: Address, action: Action): Result<Outcome, Error> {
    if At(s.votingPower, proposer) < s.config.proposalThreshold then Err(InsufficientVotingPower)
    else if CountActive(s.dockets, s.allIds) >= s.config.maxActive then Err(MaxProposalsReached)
    else
      var d := Put(s.dockets, s.nextId, Opened(now, proposer, action, s.config.votingPeriod));
      Ok(Outcome(s.(dockets := s.dockets[s.nextId := d], nextId := s.nextId + 1, allIds := s.allIds + [s.nextId]),
                 Created(s.nextId)))
  }

  function Cancel(s: State, d: Docket, caller: Address): Result<Docket, Error> {
    var p := d.proposal;
    if s.officers.None? then Err(NotInitialized)
    else if caller != p.proposer && caller != s.officers.value.admin then Err(CannotCancel)
    else if p.status != Submitted && p.status != Voting then Err(CannotCancel)
    else Ok(d.(proposal := p.(status := Cancelled)))
  }

  /** The proposal after one more vote; its tallies wrap around. */
  function Tallied(p: Proposal, direction: Direction, weight: int): Proposal {
    var q := p.(voterCount := p.voterCount + 1);
    match direction
    case For => q.(votesFor := WrapI128(q.votesFor + weight))
    case Against => q.(votesAgainst := WrapI128(q.votesAgainst + weight))
    case Abstain => q.(votesAbstain := WrapI128(q.votesAbstain + weight))
  }

  /** A vote with the power of `holder`, cast by `voter`. */
  function Vote(d: Docket, now: u64, voter: Address, holder: Address, weight: int, direction: Direction,
                delegated: bool): Result<Docket, Error>
  {
    if d.proposal.status != Voting then Err(NotVotable)
    else if now > d.proposal.votingEnds then Err(VotingAlreadyEnded)
    else if holder in d.votes then Err(AlreadyVoted)
    else if weight <= 0 then Err(NoVotingPower)
    else
      var v := VoteRecord(voter, holder, weight, direction, now, delegated);
      Ok(d.(proposal := Tallied(d.proposal, direction, weight), votes := d.votes[holder := v]))
  }

  /** The share of a quantity given in basis points, rounded. */
  function Share(quantity: int, bps: nat): Result<int, Error> {
    var product :- CheckedMul(quantity, bps, InvalidConfig);
    Ok(TruncDiv(product, BPS))
  }

  /** The votes that decide, and all votes; both sums wrap around. */
  function NetVotes(p: Proposal): i128 {
    WrapI128(p.votesFor + p.votesAgainst)
  }

  function AllVotes(p: Proposal): i128 {
    WrapI128(NetVotes(p) + p.votesAbstain)
  }

  /** How a closed vote is decided. */
  function Verdict(power: int, c: Config, p: Proposal): Result<Status, Error> {
    var quorum :- Share(power, c.quorumBps);
    if AllVotes(p) < quorum then Ok(Defeated)
    else if NetVotes(p) == 0 then Ok(Defeated)
    else
      var required :- Share(NetVotes(p), c.approvalBps);
      Ok(if p.votesFor <= required then Defeated else Passed)
  }

  function Finalize(s: State, d: Docket, now: u64): Result<Docket, Error> {
    if d.proposal.status != Voting then Err(VotingAlreadyEnded)
    else if now <= d.proposal.votingEnds then Err(VotingNotEnded)
    else
      var status :- Verdict(s.totalVotingPower, s.config, d.proposal);
      Ok(d.(proposal := d.proposal.(status := status)))
  }

  // ---------------------------------------------------------------------------------------------
  // Timelock and execution
  // ---------------------------------------------------------------------------------------------

  function EffectiveDelay(c: Config, action: Action): u64 {
    if action == EmergencyAction then c.emergencyDelay else c.timelockDelay
  }

  function Queue(c: Config, d: Docket, now: u64): Result<Docket, Error> {
    var delay := EffectiveDelay(c, d.proposal.action);
    if d.proposal.status != Passed then Err(CannotTimelock)
    else if delay == 0 then Err(CannotTimelock)
    else
      var e := TimelockEntry(now, WrappingAdd(now, delay), Pending);
      Ok(d.(proposal := d.proposal.(status := Timelock, timelockExpiry := e.executeAfter), timelock := Some(e)))
  }

  /** A stored entry that may be executed now. */
  predicate ReadyAt(e: Option<TimelockEntry>, now: u64) {
    e.Some? && e.value.status != Done && e.value.status != Dropped && e.value.executeAfter <= now
  }

  function Execute(d: Docket, now: u64): Result<Docket, Error> {
    if d.proposal.status != Timelock then Err(CannotExecute)
    else if !ReadyAt(d.timelock, now) then Err(TimelockNotExpired)
    else
      Ok(d.(proposal := d.proposal.(status := Executed, executedAt := now),
            timelock := Some(d.timelock.value.(status := Done))))
  }

  /** Execution from any state that is not final, past the timelock. */
  function ExecuteNow(d: Docket, now: u64): Result<Docket, Error> {
    var p := d.proposal;
    if p.status == Executed || p.status == Cancelled || p.status == ExecutionFailed then Err(CannotExecute)
    else Ok(d.(proposal := p.(status := Executed, executedAt := now)))
  }

  // ---------------------------------------------------------------------------------------------
  // The calls on one proposal
  // ---------------------------------------------------------------------------------------------

  datatype Act =
    | CancelProposal(caller: Address)
    | CastVote(voter: Address, direction: Direction)
    | CastDelegatedVote(delegate: Address, holder: Address, direction: Direction)
    | FinalizeProposal
    | QueueTimelock
    | ExecuteProposal
    | EmergencyExecute(caller: Address, coSigner: Address)
    | ClaimRewards(voter: Address)

  predicate Delegated(s: State, holder: Address, delegate: Address) {
    holder in s.delegations && s.delegations[holder].active && s.delegations[holder].delegate == delegate
  }

  /** What is checked before the proposal is looked up. The admin and the guardian sign an emergency together. */
  function Permitted(s: State, pid: nat, act: Act): Result<(), Error> {
    match act
    case CastDelegatedVote(delegate, holder, _) =>
      if Delegated(s, holder, delegate) then Ok(()) else Err(DelegationNotFound)
    case EmergencyExecute(caller, coSigner) =>
      if s.officers.None? then Err(NotInitialized)
      else
        var Officers(admin, guardian) := s.officers.value;
        if caller != admin && caller != guardian then Err(GuardianRequired)
        else if coSigner != (if caller == admin then guardian else admin) then Err(NotAuthorizedByHost)
        else Ok(())
    case ClaimRewards(_) => if pid in s.dockets then Ok(()) else Err(NoVotingPower)
    case _ => Ok(())
  }

  function Claim(d: Docket, voter: Address): Result<Docket, Error> {
    if voter in d.claimed then Err(RewardAlreadyClaimed)
    else if voter !in d.votes then Err(NoVotingPower)
    else Ok(d.(claimed := d.claimed + {voter}))
  }

  /** The docket a permitted call leaves. */
  function Advance(s: State, now: u64, d: Docket, act: Act): Result<Docket, Error> {
    match act
    case CancelProposal(caller) => Cancel(s, d, caller)
    case CastVote(voter, direction) => Vote(d, now, voter, voter, At(s.votingPower, voter), direction, false)
    case CastDelegatedVote(delegate, holder, direction) =>
      Vote(d, now, delegate, holder, At(s.votingPower, holder), direction, true)
    case FinalizeProposal => Finalize(s, d, now)
    case QueueTimelock => Queue(s.config, d, now)
    case ExecuteProposal => Execute(d, now)
    case EmergencyExecute(_, _) => ExecuteNow(d, now)
    case ClaimRewards(voter) => Claim(d, voter)
  }

  function ReportOf(s: State, act: Act, d: Docket): Report {
    match act
    case FinalizeProposal => Finalized(d.proposal.status)
    case ClaimRewards(_) => Reward(s.config.reward)
    case _ => Acknowledged
  }

  function OnProposal(s: State, now: u64, pid: nat, act: Act): Result<Outcome, Error> {
    var _ :- Permitted(s, pid, act);
    if pid !in s.dockets then Err(ProposalNotFound)
    else
      var d :- Advance(s, now, s.dockets[pid], act);
      var report := ReportOf(s, act, d);
      Ok(Outcome(s.(dockets := s.dockets[pid := d], totalRewards := WrapI128(s.totalRewards + Paid(report))),
                 report))
  }

  /** What a report paid out. */
  function Paid(r: Report): int {
    if r.Reward? then r.amount else 0
  }

  // ---------------------------------------------------------------------------------------------
  // Delegation and pause
  // ---------------------------------------------------------------------------------------------

  function Delegate(s: State, now: u64, delegator: Address, delegate: Address): Result<Outcome, Error> {
    if delegator == delegate then Err(CannotDelegateToSelf)
    else Ok(Outcome(s.(delegations := s.delegations[delegator := Delegation(delegate, now, true)]), Acknowledged))
  }

  function Revoke(s: State, delegator: Address): Result<Outcome, Error> {
    if delegator !in s.delegations then Err(DelegationNotFound)
    else
      Ok(Outcome(s.(delegations := s.delegations[delegator := s.delegations[delegator].(active := false)]),
                 Acknowledged))
  }

  function Pause(s: State, caller: Address): Result<Outcome, Error> {
    if s.officers.None? then Err(NotInitialized)
    else if caller != s.officers.value.admin && caller != s.officers.value.guardian then Err(GuardianRequired)
    else if s.paused then Err(AlreadyPaused)
    else Ok(Outcome(s.(paused := true), Acknowledged))
  }

  function Unpause(s: State, caller: Address): Result<Outcome, Error> {
    var _ :- CheckAdmin(s, caller);
    if !s.paused then Err(NotPaused)
    else Ok(Outcome(s.(paused := false), Acknowledged))
  }

  // ---------------------------------------------------------------------------------------------
  // Runs
  // ---------------------------------------------------------------------------------------------

  datatype Op =
    | ToInitialize(admin: Address, guardian: Address)
    | ToConfigure(caller: Address, config: Config)
    | ToSetSupply(caller: Address, supply: i128)
    | ToDeposit(holder: Address, amount: int)
    | ToWithdraw(holder: Address, amount: int)
    | ToSubmit(proposer: Address, action: Action)
    | To(pid: nat, act: Act)
    | ToDelegate(delegator: Address, delegate: Address)
    | ToRevoke(delegator: Address)
    | ToPause(caller: Address)
    | ToUnpause(caller: Address)

  /** One call and the ledger time it happens at. */
  datatype Call = Call(now: u64, op: Op)

  function Apply(s: State, c: Call): Result<Outcome, Error> {
    match c.op
    case ToInitialize(admin, guardian) => Initialize(s, admin, guardian)
    case ToConfigure(caller, config) => SetConfig(s, caller, config)
    case ToSetSupply(caller, supply) => SetSupply(s, caller, supply)
    case ToDeposit(holder, amount) => Deposit(s, holder, amount)
    case ToWithdraw(holder, amount) => Withdraw(s, holder, amount)
    case ToSubmit(proposer, action) => Submit(s, c.now, proposer, action)
    case To(pid, act) => OnProposal(s, c.now, pid, act)
    case ToDelegate(delegator, delegate) => Delegate(s, c.now, delegator, delegate)
    case ToRevoke(delegator) => Revoke(s, delegator)
    case ToPause(caller) => Pause(s, caller)
    case ToUnpause(caller) => Unpause(s, caller)
  }

  function Step(s: State, c: Call): State {
    match Apply(s, c)
    case Ok(o) => o.state
    case Err(_) => s
  }

  function Answer(s: State, c: Call): Result<Report, Error> {
    Apply(s, c).Map((o: Outcome) => o.report)
  }

  /** The state after a run from the empty store. */
  function Run(calls: seq<Call>): State {
    if calls == [] then EMPTY else Step(Run(calls[..|calls| - 1]), calls[|calls| - 1])
  }
}
