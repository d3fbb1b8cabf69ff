/** What governance keeps in every run: exact tallies, final states, the timelock, the active cap. */
module GovernanceLaws {
  import opened Wrappers
  import opened Checked
  import opened Host
  import opened Sums
  import opened Governance

  // ---------------------------------------------------------------------------------------------
  // What one call touches
  // ---------------------------------------------------------------------------------------------

  /** One call opens, advances, or leaves alone each proposal. */
  ghost predicate DocketStep(s: State, c: Call, t: State, pid: nat) {
    || (pid !in s.dockets && pid !in t.dockets)
    || (pid in s.dockets && pid in t.dockets && t.dockets[pid] == s.dockets[pid])
    || (pid in t.dockets && Opens(s, c, t.dockets[pid], pid))
    || (pid in s.dockets && pid in t.dockets && Advances(s, c, t.dockets[pid], pid))
  }

  ghost predicate Opens(s: State, c: Call, d: Docket, pid: nat) {
    && c.op.ToSubmit? && pid == s.nextId
    && d == Put(s.dockets, pid, Opened(c.now, c.op.proposer, c.op.action, s.config.votingPeriod))
    && Step(s, c).nextId == pid + 1
  }

  ghost predicate Advances(s: State, c: Call, d: Docket, pid: nat)
    requires pid in s.dockets
  {
    && c.op.To? && c.op.pid == pid && Apply(s, c).Ok?
    && Permitted(s, pid, c.op.act).Ok? && Advance(s, c.now, s.dockets[pid], c.op.act) == Ok(d)
    && Answer(s, c) == Ok(ReportOf(s, c.op.act, d))
  }

  lemma StepDocket(s: State, c: Call, pid: nat)
    ensures DocketStep(s, c, Step(s, c), pid)
  {
    hide Advance, CountActive, Permitted, Put, Opened, WrapI128, At, WithPower, ReportOf;
  }

  /** The entries that one call may write. */
  ghost predicate Writes(s: State, op: Op, t: State) {
    match op
    case ToInitialize(admin, guardian) =>
      && s.officers.None?
      && t == s.(officers := Some(Officers(admin, guardian)), config := DEFAULTS, totalSupply := 0,
                 totalVotingPower := 0, nextId := 1, allIds := [], paused := false,
                 forgotten := s.totalVotingPower, abandoned := |s.allIds|)
    case ToConfigure(_, _) => s.officers.Some? && t == s.(config := t.config)
    case ToSetSupply(_, _) => t == s.(totalSupply := t.totalSupply)
    case ToDeposit(_, _) => t == s.(votingPower := t.votingPower, totalVotingPower := t.totalVotingPower)
    case ToWithdraw(_, _) => t == s.(votingPower := t.votingPower, totalVotingPower := t.totalVotingPower)
    case ToSubmit(_, _) =>
      t == s.(dockets := t.dockets, nextId := s.nextId + 1, allIds := s.allIds + [s.nextId])
    case To(_, _) => t == s.(dockets := t.dockets, totalRewards := t.totalRewards)
    case ToDelegate(_, _) => t == s.(delegations := t.delegations)
    case ToRevoke(_) => t == s.(delegations := t.delegations)
    case ToPause(_) => t == s.(paused := t.paused)
    case ToUnpause(_) => t == s.(paused := t.paused)
  }

  lemma StepWrites(s: State, c: Call)
    ensures if Apply(s, c).Ok? then Writes(s, c.op, Step(s, c)) else Step(s, c) == s
  {
    hide Advance, CountActive, Permitted, Put, Opened, WrapI128, At, WithPower, ReportOf, CheckedAdd, CheckedSub;
  }

  /** How one call moves the counters of proposals and what `initialize` resets. */
  lemma StepCounters(s: State, c: Call)
    ensures var t := Step(s, c);
            var resets := c.op.ToInitialize? && s.officers.None?;
            && t.nextId == (if resets then 1 else if c.op.ToSubmit? && Apply(s, c).Ok? then s.nextId + 1 else s.nextId)
            && t.abandoned == (if resets then |s.allIds| else s.abandoned)
            && t.forgotten == (if resets then s.totalVotingPower else s.forgotten)
  {
    hide Step, Apply;
    StepWrites(s, c);
    if c.op.ToInitialize? {
      InitializeOnce(s, c);
    }
  }

  lemma InitializeOnce(s: State, c: Call)
    requires c.op.ToInitialize?
    ensures Apply(s, c).Ok? <==> s.officers.None?
  {
  }

  /** The officers are set once, the configuration changes only by its own call, rewards only by what is paid. */
  lemma StepFrame(s: State, c: Call)
    ensures var t := Step(s, c);
            && (s.officers.Some? ==> t.officers == s.officers)
            && (!c.op.ToConfigure? ==>
                  t.config == if c.op.ToInitialize? && s.officers.None? then DEFAULTS else s.config)
            && t.totalRewards == WrapI128(s.totalRewards + PaidBy(Answer(s, c)))
  {
    hide Advance, CountActive, Permitted, Put, Opened, At, WithPower, ReportOf;
  }

  function PaidBy(r: Result<Report, Error>): int {
    if r.Ok? then Paid(r.value) else 0
  }

  /** Nothing is reset before the one successful `initialize`, and the configuration is the default one until then. */
  lemma {:induction false} RunUninitialized(calls: seq<Call>)
    ensures var s := Run(calls);
            s.officers.None? ==> s.config == DEFAULTS && s.forgotten == 0 && s.abandoned == 0
  {
    hide Step;
    if calls != [] && Run(calls).officers.None? {
      UninitializedStep(Run(calls[..|calls| - 1]), calls[|calls| - 1]);
      RunUninitialized(calls[..|calls| - 1]);
    }
  }

  lemma UninitializedStep(s: State, c: Call)
    requires Step(s, c).officers.None?
    ensures s.officers.None?
    ensures Step(s, c).config == s.config && Step(s, c).forgotten == s.forgotten && Step(s, c).abandoned == s.abandoned
  {
    hide Step, Apply;
    StepWrites(s, c);
  }

  // ---------------------------------------------------------------------------------------------
  // Voting power
  // ---------------------------------------------------------------------------------------------

  /** Nobody's power is zero or negative, and the recorded total is the sum of everybody's but what was forgotten. */
  ghost predicate PowerKnown(s: State) {
    && (forall a :: a in s.votingPower ==> s.votingPower[a] > 0)
    && Total(s.votingPower) == s.totalVotingPower + s.forgotten
  }

  /** The recorded total is the sum of everybody's power. */
  ghost predicate PowerExact(s: State) {
    Total(s.votingPower) == s.totalVotingPower
  }

  lemma DepositPower(s: State, holder: Address, amount: int)
    requires PowerKnown(s) && Deposit(s, holder, amount).Ok?
    ensures PowerKnown(Deposit(s, holder, amount).value.state)
  {
    TotalUpdate(s.votingPower, holder, At(s.votingPower, holder) + amount);
  }

  lemma WithdrawPower(s: State, holder: Address, amount: int)
    requires PowerKnown(s) && Withdraw(s, holder, amount).Ok?
    ensures PowerKnown(Withdraw(s, holder, amount).value.state)
  {
    TotalUpdate(s.votingPower, holder, At(s.votingPower, holder) - amount);
    TotalDelete(s.votingPower, holder);
  }

  lemma StepPower(s: State, c: Call)
    requires PowerKnown(s) && (s.officers.None? ==> s.forgotten == 0)
    ensures PowerKnown(Step(s, c))
  {
    hide Advance, CountActive, Permitted, Put, Opened, WrapI128, ReportOf;
    if Apply(s, c).Ok? {
      match c.op
      case ToDeposit(holder, amount) => DepositPower(s, holder, amount);
      case ToWithdraw(holder, amount) => WithdrawPower(s, holder, amount);
      case _ =>
    }
  }

  lemma {:induction false} PowerKept(calls: seq<Call>)
    ensures PowerKnown(Run(calls)) && Run(calls).forgotten >= 0
  {
    hide Step, PowerKnown;
    if calls == [] {
      EmptyPower();
    } else {
      var before := Run(calls[..|calls| - 1]);
      PowerKept(calls[..|calls| - 1]);
      RunUninitialized(calls[..|calls| - 1]);
      PowerNonNegative(before);
      StepPower(before, calls[|calls| - 1]);
      StepCounters(before, calls[|calls| - 1]);
    }
  }

  lemma EmptyPower()
    ensures PowerKnown(EMPTY)
  {
  }

  lemma PowerNonNegative(s: State)
    requires PowerKnown(s)
    ensures s.totalVotingPower + s.forgotten >= 0
  {
    TotalNonNegative(s.votingPower);
  }

  /**
   In every run nobody's power is zero or negative, and TotalVotingPower is the sum of it if and only if
   nothing was on deposit when `initialize` reset the total. Otherwise it falls short by what was, forever.
   */
  lemma RunPower(calls: seq<Call>)
    ensures var s := Run(calls);
            && PowerKnown(s) && s.forgotten >= 0
            && (PowerExact(s) <==> s.forgotten == 0)
            && (s.forgotten == 0 ==> s.totalVotingPower >= 0)
  {
    hide Run, Total;
    PowerKept(calls);
    PowerNonNegative(Run(calls));
  }

  /** A deposit, then `initialize`: the holder has its power, the total says nobody has any, and a withdrawal
      makes it negative. */
  lemma LateInitializePower(holder: Address, admin: Address, guardian: Address, now: u64)
    ensures var calls := [Call(now, ToDeposit(holder, 1000)), Call(now, ToInitialize(admin, guardian)),
                          Call(now, ToWithdraw(holder, 400))];
            && Run(calls[..2]).votingPower == map[holder := 1000] && Run(calls[..2]).totalVotingPower == 0
            && Run(calls).votingPower == map[holder := 600] && Run(calls).totalVotingPower == -400
  {
    var c0, c1, c2 := Call(now, ToDeposit(holder, 1000)), Call(now, ToInitialize(admin, guardian)),
                      Call(now, ToWithdraw(holder, 400));
    RunThree(c0, c1, c2);
    assert Run([c0, c1, c2][..2]) == Run([c0, c1]) by {
      assert [c0, c1, c2][..2] == [c0, c1];
    }
  }

  /** Short runs, call by call. */
  lemma RunSnoc(calls: seq<Call>, c: Call)
    ensures Run(calls + [c]) == Step(Run(calls), c)
  {
    assert (calls + [c])[..|calls|] == calls;
  }

  lemma RunThree(c0: Call, c1: Call, c2: Call)
    ensures Run([c0]) == Step(EMPTY, c0) && Run([c0, c1]) == Step(Run([c0]), c1)
    ensures Run([c0, c1, c2]) == Step(Run([c0, c1]), c2)
  {
    hide Step;
    RunSnoc([], c0);
    RunSnoc([c0], c1);
    RunSnoc([c0, c1], c2);
    assert [] + [c0] == [c0] && [c0] + [c1] == [c0, c1] && [c0, c1] + [c2] == [c0, c1, c2];
  }

  // ---------------------------------------------------------------------------------------------
  // Ids
  // ---------------------------------------------------------------------------------------------

  /** Ids are handed out in order; the store holds those handed out, and those abandoned by `initialize`. */
  ghost predicate IdsKnown(s: State) {
    && 1 <= s.nextId && |s.allIds| == s.nextId - 1
    && (forall k :: 0 <= k < |s.allIds| ==> s.allIds[k] == k + 1)
    && (forall pid :: pid in s.dockets <==> 1 <= pid <= Max(s.nextId - 1, s.abandoned))
  }

  /** The list and the store hold exactly the same ids. */
  ghost predicate IdsExact(s: State) {
    forall pid :: pid in s.dockets <==> pid in s.allIds
  }

  /** Calls other than these three touch neither proposals nor their ids. */
  predicate OnDockets(c: Call) {
    c.op.ToInitialize? || c.op.ToSubmit? || c.op.To?
  }

  lemma OthersFrame(s: State, c: Call)
    requires !OnDockets(c)
    ensures var t := Step(s, c);
            t.dockets == s.dockets && t.allIds == s.allIds && t.nextId == s.nextId && t.abandoned == s.abandoned
  {
    hide Step, Apply;
    StepWrites(s, c);
  }

  lemma OnDocketsIds(s: State, c: Call)
    requires IdsKnown(s) && (s.officers.None? ==> s.abandoned == 0) && OnDockets(c)
    ensures IdsKnown(Step(s, c))
  {
    hide Advance, CountActive, Permitted, Put, Opened, WrapI128, At, ReportOf;
    match c.op
    case ToInitialize(_, _) =>
    case ToSubmit(_, _) =>
    case To(_, _) =>
  }

  lemma StepIds(s: State, c: Call)
    requires IdsKnown(s) && (s.officers.None? ==> s.abandoned == 0)
    ensures IdsKnown(Step(s, c))
  {
    hide Step;
    if OnDockets(c) {
      OnDocketsIds(s, c);
    } else {
      OthersFrame(s, c);
    }
  }

  lemma {:induction false} IdsKept(calls: seq<Call>)
    ensures IdsKnown(Run(calls))
  {
    hide Step, IdsKnown;
    if calls == [] {
      EmptyIds();
    } else {
      IdsKept(calls[..|calls| - 1]);
      RunUninitialized(calls[..|calls| - 1]);
      StepIds(Run(calls[..|calls| - 1]), calls[|calls| - 1]);
    }
  }

  lemma EmptyIds()
    ensures IdsKnown(EMPTY)
  {
  }

  /**
   In every run ids are handed out in order, and the list and the store hold exactly the same ones if and
   only if as many are handed out as were when `initialize` started over.
   */
  lemma RunIds(calls: seq<Call>)
    ensures var s := Run(calls);
            IdsKnown(s) && (IdsExact(s) <==> s.abandoned < s.nextId)
  {
    hide Run;
    IdsKept(calls);
    var s := Run(calls);
    forall pid
      ensures pid in s.allIds <==> 1 <= pid < s.nextId
    {
      if 1 <= pid < s.nextId {
        assert s.allIds[pid - 1] == pid;
      }
    }
    if s.abandoned >= s.nextId {
      assert s.abandoned in s.dockets && s.abandoned !in s.allIds;
    }
  }

  /** The proposal under this id was abandoned by `initialize` and its id handed out again. */
  predicate Reused(s: State, pid: nat) {
    1 <= pid <= s.abandoned && pid < s.nextId
  }

  /** A submission writes the proposal only: an id that is handed out again keeps its votes, its claims and its
      timelock entry, whatever became of it before. */
  lemma SubmitReuses(s: State, c: Call)
    requires c.op.ToSubmit? && Apply(s, c).Ok? && s.nextId in s.dockets
    ensures var d, e := s.dockets[s.nextId], Step(s, c).dockets[s.nextId];
            && e.proposal == Opened(c.now, c.op.proposer, c.op.action, s.config.votingPeriod)
            && e.votes == d.votes && e.claimed == d.claimed && e.timelock == d.timelock
            && e.proposal.status == Voting && (Counts(e) <==> d.votes == map[])
  {
    hide CountActive, CountsSince, Counts;
    var d, e := s.dockets[s.nextId], Step(s, c).dockets[s.nextId];
    NothingCounted(e);
    CountsIff(e, d.votes);
  }

  // ---------------------------------------------------------------------------------------------
  // Tallies
  // ---------------------------------------------------------------------------------------------

  /** The weights of the votes cast in one direction, by token holder. */
  ghost function Weights(votes: map<Address, VoteRecord>, d: Direction): map<Address, int> {
    map a | a in votes && votes[a].direction == d :: votes[a].weight
  }

  ghost function CastIn(votes: map<Address, VoteRecord>, direction: Direction): int {
    Total(Weights(votes, direction))
  }

  /** Everything cast in one direction. */
  ghost function Cast(d: Docket, direction: Direction): int {
    CastIn(d.votes, direction)
  }

  /** The tallies are the sums of the records, wrapped, and the voters their number. */
  ghost predicate Counts(d: Docket) {
    && d.proposal.votesFor == WrapI128(Cast(d, For))
    && d.proposal.votesAgainst == WrapI128(Cast(d, Against))
    && d.proposal.votesAbstain == WrapI128(Cast(d, Abstain))
    && d.proposal.voterCount == |d.votes|
  }

  /** The same, but for some of the records that were there already when the proposal was opened. */
  ghost predicate CountsSince(d: Docket, before: map<Address, VoteRecord>) {
    && (forall a :: a in before ==> a in d.votes && d.votes[a] == before[a])
    && Tallies(d.proposal.votesFor, d.votes, before, For)
    && Tallies(d.proposal.votesAgainst, d.votes, before, Against)
    && Tallies(d.proposal.votesAbstain, d.votes, before, Abstain)
    && d.proposal.voterCount == |d.votes| - |before|
  }

  ghost predicate Tallies(tally: int, votes: map<Address, VoteRecord>, before: map<Address, VoteRecord>,
                          direction: Direction)
  {
    tally == WrapI128(CastIn(votes, direction) - CastIn(before, direction))
  }

  /** The tallies are exactly the sums of the records. */
  ghost predicate Exact(d: Docket) {
    && d.proposal.votesFor == Cast(d, For)
    && d.proposal.votesAgainst == Cast(d, Against)
    && d.proposal.votesAbstain == Cast(d, Abstain)
    && d.proposal.voterCount == |d.votes|
  }

  /** A record spends its holder's own tokens: directly, or through a delegate who is someone else. */
  predicate RecordOf(v: VoteRecord, holder: Address) {
    v.holder == holder && v.weight > 0 && (v.delegated <==> v.voter != holder)
  }

  ghost predicate Recorded(d: Docket) {
    forall a :: a in d.votes ==> RecordOf(d.votes[a], a)
  }

  ghost predicate NoSelfDelegation(s: State) {
    forall a :: a in s.delegations ==> s.delegations[a].delegate != a
  }

  /** A proposal opened over some records counts none of them. */
  lemma NothingCounted(d: Docket)
    requires var p := d.proposal; p.votesFor == p.votesAgainst == p.votesAbstain == 0 && p.voterCount == 0
    ensures CountsSince(d, d.votes)
  {
  }

  /** All records are counted exactly when there were none before. */
  lemma CountsIff(d: Docket, before: map<Address, VoteRecord>)
    requires CountsSince(d, before)
    ensures Counts(d) <==> before == map[]
  {
    hide CastIn, WrapI128;
    NothingCast(For);
    NothingCast(Against);
    NothingCast(Abstain);
  }

  lemma NothingCast(direction: Direction)
    ensures CastIn(map[], direction) == 0
  {
    assert Weights(map[], direction) == map[];
  }

  lemma WeightsAdd(votes: map<Address, VoteRecord>, a: Address, v: VoteRecord, d: Direction)
    requires a !in votes
    ensures CastIn(votes[a := v], d) == CastIn(votes, d) + if v.direction == d then v.weight else 0
  {
    if v.direction == d {
      assert Weights(votes[a := v], d) == Weights(votes, d)[a := v.weight];
      TotalUpdate(Weights(votes, d), a, v.weight);
    } else {
      assert Weights(votes[a := v], d) == Weights(votes, d);
    }
  }

  lemma TalliesAdd(tally: int, votes: map<Address, VoteRecord>, before: map<Address, VoteRecord>, a: Address,
                   v: VoteRecord, d: Direction)
    requires Tallies(tally, votes, before, d) && a !in votes
    ensures Tallies(if v.direction == d then WrapI128(tally + v.weight) else tally, votes[a := v], before, d)
  {
    hide CastIn, WrapI128;
    WeightsAdd(votes, a, v, d);
    WrapSum(CastIn(votes, d) - CastIn(before, d), v.weight);
  }

  lemma CountsAdd(d: Docket, before: map<Address, VoteRecord>, a: Address, v: VoteRecord)
    requires CountsSince(d, before) && a !in d.votes
    ensures CountsSince(d.(proposal := Tallied(d.proposal, v.direction, v.weight), votes := d.votes[a := v]), before)
  {
    hide Tallies, WrapI128;
    TalliesAdd(d.proposal.votesFor, d.votes, before, a, v, For);
    TalliesAdd(d.proposal.votesAgainst, d.votes, before, a, v, Against);
    TalliesAdd(d.proposal.votesAbstain, d.votes, before, a, v, Abstain);
  }

  lemma AdvanceCounts(s: State, now: u64, d: Docket, before: map<Address, VoteRecord>, act: Act)
    requires CountsSince(d, before) && Advance(s, now, d, act).Ok?
    ensures CountsSince(Advance(s, now, d, act).value, before)
  {
    hide CountsSince, Tallied;
    var e := Advance(s, now, d, act).value;
    match act
    case CastVote(voter, dir) => CountsAdd(d, before, voter, e.votes[voter]);
    case CastDelegatedVote(_, holder, dir) => CountsAdd(d, before, holder, e.votes[holder]);
    case _ => CountsFrame(d, e, before);
  }

  lemma CountsFrame(d: Docket, e: Docket, before: map<Address, VoteRecord>)
    requires e.votes == d.votes && e.proposal.voterCount == d.proposal.voterCount
    requires e.proposal.votesFor == d.proposal.votesFor && e.proposal.votesAgainst == d.proposal.votesAgainst
    requires e.proposal.votesAbstain == d.proposal.votesAbstain
    ensures CountsSince(d, before) ==> CountsSince(e, before)
  {
    hide Tallies;
  }

  lemma AdvanceRecords(s: State, now: u64, d: Docket, act: Act)
    requires Recorded(d) && Advance(s, now, d, act).Ok?
    requires act.CastDelegatedVote? ==> act.delegate != act.holder
    ensures Recorded(Advance(s, now, d, act).value)
  {
  }

  lemma StepDelegations(s: State, c: Call)
    requires NoSelfDelegation(s)
    ensures NoSelfDelegation(Step(s, c))
  {
    hide Advance, CountActive, Permitted, Put, Opened, WrapI128, At, WithPower, ReportOf;
  }

  /** Every record is its holder's. */
  ghost predicate RecordsKnown(s: State) {
    NoSelfDelegation(s) && forall pid :: pid in s.dockets ==> Recorded(s.dockets[pid])
  }

  lemma DocketRecords(s: State, c: Call, pid: nat)
    requires RecordsKnown(s) && pid in Step(s, c).dockets
    ensures Recorded(Step(s, c).dockets[pid])
  {
    hide Step, Advance, Recorded, Apply, Answer;
    StepDocket(s, c, pid);
    var t := Step(s, c);
    if Opens(s, c, t.dockets[pid], pid) {
      OpenedRecords(s, c, pid);
    } else if t.dockets[pid] != s.dockets[pid] {
      AdvanceRecords(s, c.now, s.dockets[pid], c.op.act);
    }
  }

  lemma OpenedRecords(s: State, c: Call, pid: nat)
    requires pid in Step(s, c).dockets && Opens(s, c, Step(s, c).dockets[pid], pid)
    requires pid in s.dockets ==> Recorded(s.dockets[pid])
    ensures Recorded(Step(s, c).dockets[pid])
  {
    hide Step;
  }

  lemma {:induction false} RecordsKept(calls: seq<Call>)
    ensures RecordsKnown(Run(calls))
  {
    hide Step;
    if calls != [] {
      var s, c := Run(calls[..|calls| - 1]), calls[|calls| - 1];
      RecordsKept(calls[..|calls| - 1]);
      StepDelegations(s, c);
      forall pid | pid in Step(s, c).dockets
        ensures Recorded(Step(s, c).dockets[pid])
      {
        DocketRecords(s, c, pid);
      }
    }
  }

  /** Only handing an id out again makes it a reused one. */
  lemma StepReused(s: State, c: Call, pid: nat)
    requires IdsKnown(s) && (s.officers.None? ==> s.abandoned == 0)
    ensures Reused(s, pid) ==> Reused(Step(s, c), pid)
    ensures Reused(Step(s, c), pid) && !Reused(s, pid) ==> c.op.ToSubmit? && pid == s.nextId && pid in s.dockets
  {
    hide Step, Apply;
    StepCounters(s, c);
  }

  predicate Submits(s: State, c: Call, pid: nat) {
    c.op.ToSubmit? && pid == s.nextId && Apply(s, c).Ok?
  }

  /** What is on record for an id at the time. */
  function VotesOf(s: State, pid: nat): map<Address, VoteRecord> {
    if pid in s.dockets then s.dockets[pid].votes else map[]
  }

  /** What was on record for an id when its proposal was opened, last. */
  function VotesAtOpening(calls: seq<Call>, pid: nat): map<Address, VoteRecord> {
    if calls == [] then map[]
    else
      var init, last := calls[..|calls| - 1], calls[|calls| - 1];
      if Submits(Run(init), last, pid) then VotesOf(Run(init), pid) else VotesAtOpening(init, pid)
  }

  lemma SubmitCounts(s: State, c: Call)
    requires Submits(s, c, s.nextId)
    ensures s.nextId in Step(s, c).dockets
    ensures CountsSince(Step(s, c).dockets[s.nextId], VotesOf(s, s.nextId))
  {
    hide CountActive, CountsSince;
    NothingCounted(Step(s, c).dockets[s.nextId]);
  }

  lemma StepCounts(s: State, c: Call, pid: nat, before: map<Address, VoteRecord>)
    requires !Submits(s, c, pid) && pid in Step(s, c).dockets
    requires pid in s.dockets ==> CountsSince(s.dockets[pid], before)
    ensures pid in s.dockets && CountsSince(Step(s, c).dockets[pid], before)
  {
    hide Advance, CountsSince, Apply, Put, Opened;
    StepDocket(s, c, pid);
    if pid in s.dockets && Step(s, c).dockets[pid] != s.dockets[pid] {
      AdvanceCounts(s, c.now, s.dockets[pid], before, c.op.act);
    }
  }

  lemma {:induction false} RunCounts(calls: seq<Call>, pid: nat)
    requires pid in Run(calls).dockets
    ensures CountsSince(Run(calls).dockets[pid], VotesAtOpening(calls, pid))
  {
    hide Step, CountsSince, Submits;
    var init, c := calls[..|calls| - 1], calls[|calls| - 1];
    if pid in Run(init).dockets {
      RunCounts(init, pid);
    }
    if Submits(Run(init), c, pid) {
      SubmittedNext(Run(init), c, pid);
      SubmitCounts(Run(init), c);
    } else {
      StepCounts(Run(init), c, pid, VotesAtOpening(init, pid));
    }
  }

  lemma SubmittedNext(s: State, c: Call, pid: nat)
    requires Submits(s, c, pid)
    ensures pid == s.nextId && Step(s, c).nextId == pid + 1 && Step(s, c).abandoned == s.abandoned
  {
    StepCounters(s, c);
  }

  /** An id that was handed out once had no votes on record when it was. */
  lemma {:induction false} FirstOpening(calls: seq<Call>, pid: nat)
    ensures !Reused(Run(calls), pid) ==> VotesAtOpening(calls, pid) == map[]
  {
    hide Step, Submits;
    if calls != [] {
      var init, c := calls[..|calls| - 1], calls[|calls| - 1];
      FirstOpening(init, pid);
      IdsKept(init);
      RunUninitialized(init);
      StepReused(Run(init), c, pid);
      if Submits(Run(init), c, pid) {
        SubmittedNext(Run(init), c, pid);
      }
    }
  }

  /**
   In every run each record is kept under the token holder whose power it spends, so a holder counts at most
   once, directly or through a delegate. Each proposal's tallies are the sums by direction of the records made since
   it was opened, up to multiples of 2^128, and voterCount their number. They count all of its records if and only
   if none was there when it was opened, as none is unless its id was handed out again; and exactly, if and only
   if in addition each sum fits.
   */
  lemma RunTallies(calls: seq<Call>, pid: nat)
    requires pid in Run(calls).dockets
    ensures var d, before := Run(calls).dockets[pid], VotesAtOpening(calls, pid);
            && Recorded(d) && CountsSince(d, before)
            && (Counts(d) <==> before == map[]) && (!Reused(Run(calls), pid) ==> before == map[])
            && (Exact(d) <==>
                  before == map[] && FitsI128(Cast(d, For)) && FitsI128(Cast(d, Against)) && FitsI128(Cast(d, Abstain)))
  {
    hide Run, CountsSince, Cast, VotesAtOpening;
    RecordsKept(calls);
    RunCounts(calls, pid);
    FirstOpening(calls, pid);
    CountsIff(Run(calls).dockets[pid], VotesAtOpening(calls, pid));
  }

  // ---------------------------------------------------------------------------------------------
  // The verdict
  // ---------------------------------------------------------------------------------------------

  /** At least the share of basis points that a scaled quantity stands for, without the rounding of its division. */
  predicate ReachesShare(x: int, scaled: int) {
    if scaled >= 0 then scaled < (x + 1) * BPS else scaled <= x * BPS
  }

  /** Quorum and approval without the rounding of the two divisions. */
  ghost predicate Approved(power: int, c: Config, p: Proposal) {
    && ReachesShare(AllVotes(p), power * c.quorumBps)
    && NetVotes(p) != 0 && ReachesShare(p.votesFor - 1, NetVotes(p) * c.approvalBps)
  }

  ghost predicate Representable(power: int, c: Config, p: Proposal) {
    FitsI128(power * c.quorumBps) && FitsI128(NetVotes(p) * c.approvalBps)
  }

  lemma ShareReached(quantity: int, bps: nat, x: int)
    requires Share(quantity, bps).Ok?
    ensures Share(quantity, bps).value <= x <==> ReachesShare(x, quantity * bps)
  {
    var scaled := quantity * bps;
    if scaled >= 0 {
      FloorIff(x + 1, scaled, BPS);
    } else {
      FloorIff(-x, -scaled, BPS);
    }
  }

  /** A proposal passes exactly when the quorum is reached, the votes that decide are not nil, and those for it
      are more than the approval share of them, as the tallies stand, and the products fit. */
  lemma PassedIff(power: int, c: Config, p: Proposal)
    ensures Verdict(power, c, p) == Ok(Passed) <==> Representable(power, c, p) && Approved(power, c, p)
  {
    if FitsI128(power * c.quorumBps) {
      ShareReached(power, c.quorumBps, AllVotes(p));
      if FitsI128(NetVotes(p) * c.approvalBps) {
        ShareReached(NetVotes(p), c.approvalBps, p.votesFor - 1);
      }
    }
  }

  /** The tallies as numbers: no sum that decides has wrapped. */
  ghost predicate Faithful(d: Docket) {
    Exact(d) && Cast(d, For) + Cast(d, Against) + Cast(d, Abstain) <= I128_MAX
  }

  lemma CastNonNegative(d: Docket, direction: Direction)
    requires Recorded(d)
    ensures Cast(d, direction) >= 0
  {
    TotalNonNegative(Weights(d.votes, direction));
  }

  /**
   In every run: when everything cast on a proposal fits together, and none of it before it was opened, it can pass
   only with the quorum of the recorded total and a strict majority of the approval share, in the sums of its records.
   */
  lemma PassedMeans(calls: seq<Call>, pid: nat)
    requires pid in Run(calls).dockets && VotesAtOpening(calls, pid) == map[]
    requires var d := Run(calls).dockets[pid]; Cast(d, For) + Cast(d, Against) + Cast(d, Abstain) <= I128_MAX
    ensures var s, d := Run(calls), Run(calls).dockets[pid];
            && Faithful(d)
            && (Verdict(s.totalVotingPower, s.config, d.proposal) == Ok(Passed) ==>
                  && s.totalVotingPower * s.config.quorumBps
                     < (Cast(d, For) + Cast(d, Against) + Cast(d, Abstain) + 1) * BPS
                  && (Cast(d, For) + Cast(d, Against)) * s.config.approvalBps < Cast(d, For) * BPS)
  {
    hide Run, Cast, Verdict, Counts, CountsSince, VotesAtOpening, NetVotes, AllVotes;
    var s, d := Run(calls), Run(calls).dockets[pid];
    RunTallies(calls, pid);
    CastNonNegative(d, For);
    CastNonNegative(d, Against);
    CastNonNegative(d, Abstain);
    TalliesFaithful(d);
    PassedIff(s.totalVotingPower, s.config, d.proposal);
    assert (Cast(d, For) + Cast(d, Against)) * s.config.approvalBps >= 0;
  }

  lemma TalliesFaithful(d: Docket)
    requires Counts(d) && Cast(d, For) + Cast(d, Against) + Cast(d, Abstain) <= I128_MAX
    requires Cast(d, For) >= 0 && Cast(d, Against) >= 0 && Cast(d, Abstain) >= 0
    ensures Faithful(d) && NetVotes(d.proposal) == Cast(d, For) + Cast(d, Against)
    ensures AllVotes(d.proposal) == Cast(d, For) + Cast(d, Against) + Cast(d, Abstain)
  {
    hide Cast;
  }

  // ---------------------------------------------------------------------------------------------
  // Lifecycle
  // ---------------------------------------------------------------------------------------------

  predicate Final(status: Status) {
    status == Executed || status == Cancelled
  }

  /** The moves of the lifecycle. */
  predicate Moves(from: Status, to: Status) {
    match from
    case Voting => to == Passed || to == Defeated || to == Cancelled || to == Executed
    case Passed => to == Timelock || to == Executed
    case Timelock => to == Executed
    case Defeated => to == Executed
    case _ => false
  }

  predicate Reached(status: Status) {
    status != Submitted && status != ExecutionFailed
  }

  /** Votes and claims are only ever added. */
  ghost predicate Keeps(d: Docket, e: Docket) {
    (forall a :: a in d.votes ==> a in e.votes && e.votes[a] == d.votes[a]) && d.claimed <= e.claimed
  }

  /** A proposal moves along the lifecycle, and votes are added only while voting is open. */
  ghost predicate Later(d: Docket, e: Docket) {
    && Reached(e.proposal.status)
    && (d.proposal.status == e.proposal.status || Moves(d.proposal.status, e.proposal.status))
    && (d.proposal.status != Voting ==> e.votes == d.votes)
    && (Final(d.proposal.status) ==> e.proposal == d.proposal)
  }

  lemma AdvanceLater(s: State, now: u64, d: Docket, act: Act)
    requires Reached(d.proposal.status) && Advance(s, now, d, act).Ok?
    ensures Later(d, Advance(s, now, d, act).value) && Keeps(d, Advance(s, now, d, act).value)
  {
  }

  /** One call: a proposal moves along its lifecycle, unless its id is handed out again. */
  lemma StepLater(s: State, c: Call, pid: nat)
    requires pid in s.dockets && Reached(s.dockets[pid].proposal.status)
    ensures var t := Step(s, c);
            && pid in t.dockets && Keeps(s.dockets[pid], t.dockets[pid]) && Reached(t.dockets[pid].proposal.status)
            && (!Opens(s, c, t.dockets[pid], pid) ==> Later(s.dockets[pid], t.dockets[pid]))
  {
    StepDocket(s, c, pid);
    hide Step, Advance;
    var t := Step(s, c);
    if !Opens(s, c, t.dockets[pid], pid) && t.dockets[pid] != s.dockets[pid] {
      AdvanceLater(s, c.now, s.dockets[pid], c.op.act);
    }
  }

  lemma {:induction false} RunReached(calls: seq<Call>, pid: nat)
    requires pid in Run(calls).dockets
    ensures Reached(Run(calls).dockets[pid].proposal.status)
  {
    hide Step, Advance;
    if calls != [] {
      var init := calls[..|calls| - 1];
      StepDocket(Run(init), calls[|calls| - 1], pid);
      if pid in Run(init).dockets {
        RunReached(init, pid);
        StepLater(Run(init), calls[|calls| - 1], pid);
      }
    }
  }

  /** From call k on no recorded vote and no claim is ever changed or removed. */
  lemma {:induction false} RunKeeps(calls: seq<Call>, k: nat, pid: nat)
    requires k <= |calls| && pid in Run(calls[..k]).dockets
    ensures pid in Run(calls).dockets && Keeps(Run(calls[..k]).dockets[pid], Run(calls).dockets[pid])
  {
    hide Step;
    if k == |calls| {
      assert calls[..k] == calls;
    } else {
      var init := calls[..|calls| - 1];
      assert init[..k] == calls[..k];
      RunKeeps(init, k, pid);
      RunReached(init, pid);
      StepLater(Run(init), calls[|calls| - 1], pid);
    }
  }

  /** What stays true of a proposal from any point of a run on. */
  ghost predicate Settled(d: Docket, e: Docket) {
    && (d.proposal.status != Voting ==> e.proposal.status != Voting && e.votes == d.votes)
    && (Final(d.proposal.status) ==> e.proposal == d.proposal)
  }

  lemma {:induction false} ReusedForever(calls: seq<Call>, k: nat, pid: nat)
    requires k <= |calls|
    ensures Reused(Run(calls[..k]), pid) ==> Reused(Run(calls), pid)
  {
    hide Step, Reused, IdsKnown;
    if k == |calls| {
      assert calls[..k] == calls;
    } else {
      var init := calls[..|calls| - 1];
      assert init[..k] == calls[..k];
      ReusedForever(init, k, pid);
      IdsKept(init);
      RunUninitialized(init);
      StepReused(Run(init), calls[|calls| - 1], pid);
    }
  }

  /** An id that is not handed out again in a step is not opened by it. */
  lemma NotOpened(s: State, c: Call, pid: nat)
    requires IdsKnown(s) && pid in s.dockets && (Reused(Step(s, c), pid) ==> Reused(s, pid))
    ensures pid in Step(s, c).dockets ==> !Opens(s, c, Step(s, c).dockets[pid], pid)
  {
    hide Apply;
    if c.op.ToSubmit? {
      StepCounters(s, c);
    }
  }

  /**
   From call k on, unless its id is handed out again after an `initialize` that came late: once voting on a
   proposal has closed it stays closed and nothing is added; Executed and Cancelled never change again.
   */
  lemma {:induction false} RunSettles(calls: seq<Call>, k: nat, pid: nat)
    requires k <= |calls| && pid in Run(calls[..k]).dockets
    requires Reused(Run(calls), pid) ==> Reused(Run(calls[..k]), pid)
    ensures pid in Run(calls).dockets && Settled(Run(calls[..k]).dockets[pid], Run(calls).dockets[pid])
  {
    hide Step, Advance, Reused, IdsKnown, Opens;
    if k == |calls| {
      assert calls[..k] == calls;
    } else {
      var init := calls[..|calls| - 1];
      assert init[..k] == calls[..k];
      ReusedForever(init, k, pid);
      ReusedForever(calls, |calls| - 1, pid);
      RunSettles(init, k, pid);
      RunReached(init, pid);
      IdsKept(init);
      NotOpened(Run(init), calls[|calls| - 1], pid);
      StepLater(Run(init), calls[|calls| - 1], pid);
    }
  }

  // ---------------------------------------------------------------------------------------------
  // The voting window
  // ---------------------------------------------------------------------------------------------

  ghost predicate TimeOrdered(calls: seq<Call>) {
    forall i, j :: 0 <= i < j < |calls| ==> calls[i].now <= calls[j].now
  }

  predicate InTime(p: Proposal, now: u64, t: u64) {
    now <= t <= p.votingEnds
  }

  /** A proposal submitted now can be voted on at some time from now on if and only if the end of its period
      fits a timestamp; then exactly until that end. */
  lemma WindowIff(now: u64, proposer: Address, action: Action, period: u64)
    ensures var p := Opened(now, proposer, action, period);
            && ((exists t: u64 :: InTime(p, now, t)) <==> now + period <= U64_MAX)
            && (now + period <= U64_MAX ==> p.votingEnds == now + period)
  {
    if now + period <= U64_MAX {
      assert InTime(Opened(now, proposer, action, period), now, now);
    }
  }

  /** Every vote was cast within the window of its proposal, which was not opened in the future. */
  ghost predicate InWindow(d: Docket, now: int) {
    && d.proposal.createdAt <= now
    && forall a :: a in d.votes ==> d.proposal.createdAt <= d.votes[a].timestamp <= d.proposal.votingEnds
  }

  lemma AdvanceInWindow(s: State, now: u64, d: Docket, act: Act, before: int)
    requires InWindow(d, before) && before <= now && Advance(s, now, d, act).Ok?
    ensures InWindow(Advance(s, now, d, act).value, now)
  {
  }

  /** The time of the last call. */
  function LastTime(calls: seq<Call>): int {
    if calls == [] then 0 else calls[|calls| - 1].now
  }

  lemma StepInWindow(s: State, c: Call, pid: nat, before: int)
    requires IdsKnown(s) && (s.officers.None? ==> s.abandoned == 0) && before <= c.now
    requires pid in s.dockets && !Reused(s, pid) ==> InWindow(s.dockets[pid], before)
    requires pid in Step(s, c).dockets && !Reused(Step(s, c), pid)
    ensures InWindow(Step(s, c).dockets[pid], c.now)
  {
    StepDocket(s, c, pid);
    StepReused(s, c, pid);
    if pid in s.dockets {
      NotOpened(s, c, pid);
    }
    hide Step, Advance, Reused;
    var t := Step(s, c);
    if pid in s.dockets && t.dockets[pid] != s.dockets[pid] {
      AdvanceInWindow(s, c.now, s.dockets[pid], c.op.act, before);
    }
  }

  /** In every run with ordered time each vote lies between the submission and the recorded end of the voting;
      a proposal whose end wrapped around never gets one. */
  lemma {:induction false} RunInWindow(calls: seq<Call>, pid: nat)
    requires TimeOrdered(calls) && pid in Run(calls).dockets && !Reused(Run(calls), pid)
    ensures var d := Run(calls).dockets[pid];
            InWindow(d, LastTime(calls)) && (d.proposal.votingEnds < d.proposal.createdAt ==> d.votes == map[])
  {
    hide Step, Reused, IdsKnown;
    if calls != [] {
      var init, last := calls[..|calls| - 1], calls[|calls| - 1];
      ReusedForever(calls, |calls| - 1, pid);
      if pid in Run(init).dockets {
        RunInWindow(init, pid);
      }
      IdsKept(init);
      RunUninitialized(init);
      StepInWindow(Run(init), last, pid, LastTime(init));
    }
  }

  // ---------------------------------------------------------------------------------------------
  // The timelock
  // ---------------------------------------------------------------------------------------------

  /** Call k succeeded and was this one. */
  ghost predicate Happens(calls: seq<Call>, k: nat, op: Op) {
    k < |calls| && calls[k].op == op && Apply(Run(calls[..k]), calls[k]).Ok?
  }

  /** In this state, at this time, the vote on a proposal closes with Passed, late enough and fairly. */
  ghost predicate PassesFairly(s: State, now: u64, pid: nat) {
    && Answer(s, Call(now, To(pid, FinalizeProposal))) == Ok(Finalized(Passed))
    && pid in s.dockets && s.dockets[pid].proposal.votingEnds < now
    && Approved(s.totalVotingPower, s.config, s.dockets[pid].proposal)
  }

  /** Call i closed the vote on a proposal with Passed. */
  ghost predicate PassedAt(calls: seq<Call>, i: nat, pid: nat) {
    Happens(calls, i, To(pid, FinalizeProposal)) && PassesFairly(Run(calls[..i]), calls[i].now, pid)
  }

  /** The delay in force for a proposal in a state. */
  function DelayOf(s: State, pid: nat): u64 {
    if pid in s.dockets then EffectiveDelay(s.config, s.dockets[pid].proposal.action) else 0
  }

  /** Call j put a proposal into the timelock, with a positive delay. */
  ghost predicate QueuedAt(calls: seq<Call>, j: nat, pid: nat) {
    Happens(calls, j, To(pid, QueueTimelock)) && DelayOf(Run(calls[..j]), pid) > 0
  }

  /** When the timelock set by call j expires. */
  ghost function ExpiryOf(calls: seq<Call>, j: nat, pid: nat): u64
    requires j < |calls|
  {
    WrappingAdd(calls[j].now, DelayOf(Run(calls[..j]), pid))
  }

  lemma {:induction false} PrefixFacts(calls: seq<Call>, n: nat, i: nat, pid: nat)
    requires i < n <= |calls|
    ensures PassedAt(calls[..n], i, pid) <==> PassedAt(calls, i, pid)
    ensures QueuedAt(calls[..n], i, pid) <==> QueuedAt(calls, i, pid)
    ensures ExpiryOf(calls[..n], i, pid) == ExpiryOf(calls, i, pid)
  {
    hide Run, Apply, PassesFairly;
    assert calls[..n][..i] == calls[..i];
  }

  /** The entry a queueing sets. */
  function EntryFor(s: State, now: u64, action: Action): TimelockEntry {
    TimelockEntry(now, WrappingAdd(now, EffectiveDelay(s.config, action)), Pending)
  }

  /** Only a Passed verdict brings a proposal to Passed; only the queue, from Passed, to Timelock. */
  lemma AdvanceInto(s: State, now: u64, d: Docket, act: Act)
    requires Advance(s, now, d, act).Ok?
    ensures var e := Advance(s, now, d, act).value;
            && (e.proposal.status == Passed && d.proposal.status != Passed ==>
                  act == FinalizeProposal && d.proposal.votingEnds < now
                  && Verdict(s.totalVotingPower, s.config, d.proposal) == Ok(Passed))
            && (e.proposal.status == Timelock && d.proposal.status != Timelock ==>
                  && act == QueueTimelock && d.proposal.status == Passed
                  && EffectiveDelay(s.config, d.proposal.action) > 0
                  && e.timelock == Some(EntryFor(s, now, d.proposal.action)))
            && (e.proposal.status == d.proposal.status == Timelock ==> e.timelock == d.timelock)
            && (e.proposal.status == Executed && d.proposal.status != Executed ==>
                  || (act == ExecuteProposal && d.proposal.status == Timelock && ReadyAt(d.timelock, now))
                  || act.EmergencyExecute?)
  {
  }

  ghost predicate HasStatus(s: State, pid: nat, status: Status) {
    pid in s.dockets && s.dockets[pid].proposal.status == status
  }

  lemma {:induction false} PassedOrigin(calls: seq<Call>, pid: nat) returns (i: nat)
    requires HasStatus(Run(calls), pid, Passed)
    ensures i < |calls| && PassedAt(calls, i, pid)
  {
    hide Step, Advance, Apply, Answer, Approved, Verdict, Permitted, Put;
    var init, last := calls[..|calls| - 1], calls[|calls| - 1];
    var before := Run(init);
    StepDocket(before, last, pid);
    if HasStatus(before, pid, Passed) {
      i := PassedOrigin(init, pid);
      PrefixFacts(calls, |calls| - 1, i, pid);
    } else {
      i := |calls| - 1;
      OpensVoting(before, last, Run(calls).dockets[pid], pid);
      AdvanceInto(before, last.now, before.dockets[pid], last.op.act);
      PassedIff(before.totalVotingPower, before.config, before.dockets[pid].proposal);
    }
  }

  lemma OpensVoting(s: State, c: Call, d: Docket, pid: nat)
    ensures Opens(s, c, d, pid) ==> d.proposal.status == Voting
  {
  }

  /** Passed at i, queued at j, and the timelock entry now in force is the one set at j. */
  ghost predicate Origin(calls: seq<Call>, i: nat, j: nat, pid: nat) {
    && i < j < |calls| && PassedAt(calls, i, pid) && QueuedAt(calls, j, pid)
    && var s := Run(calls);
       pid in s.dockets && s.dockets[pid].timelock.Some?
       && s.dockets[pid].timelock.value.executeAfter == ExpiryOf(calls, j, pid)
  }

  lemma {:induction false} TimelockOrigin(calls: seq<Call>, pid: nat) returns (i: nat, j: nat)
    requires HasStatus(Run(calls), pid, Timelock)
    ensures Origin(calls, i, j, pid)
  {
    hide Step, Advance, Apply, Answer, PassedAt, Permitted;
    var n := |calls| - 1;
    var init, last := calls[..n], calls[n];
    var before := Run(init);
    StepDocket(before, last, pid);
    if pid in before.dockets && before.dockets[pid] != Run(calls).dockets[pid] {
      AdvanceInto(before, last.now, before.dockets[pid], last.op.act);
    }
    if HasStatus(before, pid, Timelock) {
      i, j := TimelockOrigin(init, pid);
      PrefixFacts(calls, n, i, pid);
      PrefixFacts(calls, n, j, pid);
    } else {
      i := PassedOrigin(init, pid);
      PrefixFacts(calls, n, i, pid);
      j := n;
    }
  }

  /**
   The story of a proposal executed by call k: passed at i, queued at j, and the delay that the configuration then
   stored for its action respected: the emergency delay for an emergency action, the timelock delay for any other.
   */
  ghost predicate Delayed(calls: seq<Call>, i: nat, j: nat, k: nat, pid: nat) {
    && i < j < k < |calls| && PassedAt(calls, i, pid) && Happens(calls, j, To(pid, QueueTimelock))
    && calls[i].now <= calls[j].now && pid in Run(calls[..j]).dockets
    && var s := Run(calls[..j]);
       var delay := if s.dockets[pid].proposal.action == EmergencyAction then s.config.emergencyDelay
                    else s.config.timelockDelay;
       && s.dockets[pid].proposal.status == Passed && 0 < delay
       && (calls[j].now + delay) % (U64_MAX + 1) <= calls[k].now
       && (calls[j].now + delay <= calls[k].now <==> calls[j].now + delay <= U64_MAX)
  }

  lemma QueueNeeds(s: State, now: u64, pid: nat)
    requires Apply(s, Call(now, To(pid, QueueTimelock))).Ok?
    ensures pid in s.dockets && s.dockets[pid].proposal.status == Passed
    ensures DelayOf(s, pid) == if s.dockets[pid].proposal.action == EmergencyAction then s.config.emergencyDelay
                               else s.config.timelockDelay
  {
  }

  lemma ExecuteNeeds(s: State, now: u64, pid: nat)
    requires Apply(s, Call(now, To(pid, ExecuteProposal))).Ok?
    ensures HasStatus(s, pid, Timelock) && ReadyAt(s.dockets[pid].timelock, now)
  {
  }

  /**
   Timelock safety: `execute_proposal` succeeds at time t only after a Passed verdict reached strictly
   after the voting ended with quorum and approval met, and after a queueing, no earlier, at a time t2
   with a positive delay, the one that the stored configuration has for the action of the proposal; t is at least
   t2 plus that delay exactly when the sum fits a timestamp.
   */
  lemma TimelockSafety(calls: seq<Call>, k: nat, pid: nat)
    requires TimeOrdered(calls) && Happens(calls, k, To(pid, ExecuteProposal))
    ensures exists i: nat, j: nat :: Delayed(calls, i, j, k, pid)
  {
    hide Run, Apply, PassedAt, QueuedAt;
    ExecuteNeeds(Run(calls[..k]), calls[k].now, pid);
    var i, j := TimelockOrigin(calls[..k], pid);
    PrefixFacts(calls, k, i, pid);
    PrefixFacts(calls, k, j, pid);
    QueuedMeans(calls, j, pid);
    assert Delayed(calls, i, j, k, pid);
  }

  lemma QueuedMeans(calls: seq<Call>, j: nat, pid: nat)
    requires QueuedAt(calls, j, pid)
    ensures Happens(calls, j, To(pid, QueueTimelock)) && DelayOf(Run(calls[..j]), pid) > 0
    ensures var s := Run(calls[..j]);
            && pid in s.dockets && s.dockets[pid].proposal.status == Passed
            && DelayOf(s, pid) == if s.dockets[pid].proposal.action == EmergencyAction then s.config.emergencyDelay
                                  else s.config.timelockDelay
  {
    hide Run, Apply, DelayOf;
    QueueNeeds(Run(calls[..j]), calls[j].now, pid);
  }

  /** Call k executed a proposal: through the timelock, or signed by the admin and the guardian together. */
  ghost predicate ExecutedAt(calls: seq<Call>, k: nat, pid: nat) {
    || Happens(calls, k, To(pid, ExecuteProposal))
    || (k < |calls| && Run(calls[..k]).officers.Some?
        && var Officers(admin, guardian) := Run(calls[..k]).officers.value;
           || Happens(calls, k, To(pid, EmergencyExecute(admin, guardian)))
           || Happens(calls, k, To(pid, EmergencyExecute(guardian, admin))))
  }

  /** Only those ways lead to Executed. */
  lemma {:induction false} ExecutedOrigin(calls: seq<Call>, pid: nat) returns (k: nat)
    requires HasStatus(Run(calls), pid, Executed)
    ensures ExecutedAt(calls, k, pid)
  {
    hide Step, Advance, Apply, Answer, Put;
    var init, last := calls[..|calls| - 1], calls[|calls| - 1];
    var before := Run(init);
    StepDocket(before, last, pid);
    if HasStatus(before, pid, Executed) {
      k := ExecutedOrigin(init, pid);
      assert init[..k] == calls[..k];
    } else {
      k := |calls| - 1;
      OpensVoting(before, last, Run(calls).dockets[pid], pid);
      AdvanceInto(before, last.now, before.dockets[pid], last.op.act);
    }
  }

  // ---------------------------------------------------------------------------------------------
  // The cap on active proposals
  // ---------------------------------------------------------------------------------------------

  function ActiveBit(m: map<nat, Docket>, pid: nat): nat {
    if pid in m && Active(m[pid].proposal) then 1 else 0
  }

  lemma {:induction false} CountUpdate(m: map<nat, Docket>, pid: nat, d: Docket, ids: seq<nat>)
    requires forall i, j :: 0 <= i < j < |ids| ==> ids[i] != ids[j]
    ensures CountActive(m[pid := d], ids)
            == CountActive(m, ids) + if pid in ids then ActiveBit(m[pid := d], pid) - ActiveBit(m, pid) else 0
  {
    if ids != [] {
      CountUpdate(m, pid, d, ids[..|ids| - 1]);
    }
  }

  lemma CountSnoc(m: map<nat, Docket>, ids: seq<nat>, pid: nat)
    ensures CountActive(m, ids + [pid]) == CountActive(m, ids) + ActiveBit(m, pid)
  {
    assert (ids + [pid])[..|ids|] == ids;
  }

  function ActiveCount(s: State): nat {
    CountActive(s.dockets, s.allIds)
  }

  /** The largest cap in force so far. */
  ghost function CapSoFar(calls: seq<Call>): nat {
    if calls == [] then EMPTY.config.maxActive
    else Max(CapSoFar(calls[..|calls| - 1]), Run(calls).config.maxActive)
  }

  /** No call on a proposal makes it active again. */
  lemma AdvanceActive(s: State, now: u64, d: Docket, act: Act)
    requires Advance(s, now, d, act).Ok?
    ensures Active(Advance(s, now, d, act).value.proposal) ==> Active(d.proposal)
  {
  }

  lemma SubmitCount(s: State, now: u64, proposer: Address, action: Action)
    requires IdsKnown(s) && Submit(s, now, proposer, action).Ok?
    ensures ActiveCount(Submit(s, now, proposer, action).value.state) == ActiveCount(s) + 1 <= s.config.maxActive
  {
    var t := Submit(s, now, proposer, action).value.state;
    CountUpdate(s.dockets, s.nextId, t.dockets[s.nextId], s.allIds);
    CountSnoc(t.dockets, s.allIds, s.nextId);
  }

  lemma OnProposalCount(s: State, now: u64, pid: nat, act: Act)
    requires IdsKnown(s) && OnProposal(s, now, pid, act).Ok?
    ensures ActiveCount(OnProposal(s, now, pid, act).value.state) <= ActiveCount(s)
  {
    hide Advance, Permitted;
    var d := Advance(s, now, s.dockets[pid], act).value;
    AdvanceActive(s, now, s.dockets[pid], act);
    CountUpdate(s.dockets, pid, d, s.allIds);
  }

  /** One call: the active count stays, or falls, or rises to at most the cap. */
  lemma StepCount(s: State, c: Call)
    requires IdsKnown(s)
    ensures ActiveCount(Step(s, c)) <= Max(ActiveCount(s), s.config.maxActive)
  {
    hide Advance, OnProposal, Submit, WrapI128, At, WithPower;
    if Apply(s, c).Ok? {
      match c.op
      case ToInitialize(_, _) => assert CountActive(s.dockets, []) == 0;
      case ToSubmit(proposer, action) => SubmitCount(s, c.now, proposer, action);
      case To(pid, act) => OnProposalCount(s, c.now, pid, act);
      case _ =>
    }
  }

  /** In every run the number of active proposals is within the largest cap that was in force. */
  lemma {:induction false} RunActiveCap(calls: seq<Call>)
    ensures ActiveCount(Run(calls)) <= CapSoFar(calls)
    ensures Run(calls).config.maxActive <= CapSoFar(calls)
  {
    hide Step, IdsKnown;
    if calls != [] {
      var init := calls[..|calls| - 1];
      RunActiveCap(init);
      IdsKept(init);
      StepCount(Run(init), calls[|calls| - 1]);
    }
  }

  /** No call from k on changes the configuration. */
  ghost predicate ConfiguredBefore(calls: seq<Call>, k: nat) {
    forall i :: k <= i < |calls| ==> !calls[i].op.ToConfigure?
  }

  /** From call k on, under the configuration in force then, the active count never exceeds its
      max_active_proposals if it did not at k. */
  lemma {:induction false} FixedConfigCap(calls: seq<Call>, k: nat)
    requires k <= |calls| && ConfiguredBefore(calls, k)
    requires ActiveCount(Run(calls[..k])) <= Run(calls[..k]).config.maxActive
    ensures Run(calls).config == Run(calls[..k]).config
    ensures ActiveCount(Run(calls)) <= Run(calls).config.maxActive
  {
    hide Step, IdsKnown, ActiveCount;
    if k == |calls| {
      assert calls[..k] == calls;
    } else {
      var init, last := calls[..|calls| - 1], calls[|calls| - 1];
      assert init[..k] == calls[..k];
      assert forall i :: k <= i < |init| ==> init[i] == calls[i];
      FixedConfigCap(init, k);
      IdsKept(init);
      RunUninitialized(init);
      StepCount(Run(init), last);
      StepFrame(Run(init), last);
    }
  }

  // ---------------------------------------------------------------------------------------------
  // Rewards
  // ---------------------------------------------------------------------------------------------

  /** What all calls of a run paid. */
  ghost function SumPaid(calls: seq<Call>): int {
    if calls == [] then 0
    else
      var init := calls[..|calls| - 1];
      SumPaid(init) + PaidBy(Answer(Run(init), calls[|calls| - 1]))
  }

  /** The recorded total of distributed rewards is what the successful claims paid, wrapped; so it is exact
      if and only if that fits. */
  lemma {:induction false} RewardsAddUp(calls: seq<Call>)
    ensures Run(calls).totalRewards == WrapI128(SumPaid(calls))
    ensures Run(calls).totalRewards == SumPaid(calls) <==> FitsI128(SumPaid(calls))
  {
    hide Step, Answer, PaidBy;
    if calls != [] {
      var init := calls[..|calls| - 1];
      RewardsAddUp(init);
      StepFrame(Run(init), calls[|calls| - 1]);
      WrapSum(SumPaid(init), PaidBy(Answer(Run(init), calls[|calls| - 1])));
    }
  }

  lemma ClaimMarks(s: State, now: u64, pid: nat, voter: Address)
    ensures var c := Call(now, To(pid, ClaimRewards(voter)));
            && (Apply(s, c).Ok? ==> pid in Step(s, c).dockets && voter in Step(s, c).dockets[pid].claimed)
            && (pid in s.dockets && voter in s.dockets[pid].claimed ==> Answer(s, c) == Err(RewardAlreadyClaimed))
  {
  }

  /** A voter is rewarded once per proposal: a second claim fails, whatever happened in between. */
  lemma ClaimOnce(calls: seq<Call>, i: nat, j: nat, pid: nat, voter: Address)
    requires i < j < |calls| && calls[j].op == To(pid, ClaimRewards(voter))
    requires Happens(calls, i, To(pid, ClaimRewards(voter)))
    ensures Answer(Run(calls[..j]), calls[j]) == Err(RewardAlreadyClaimed)
  {
    hide Step, Apply, Answer;
    var before, upto := calls[..j], calls[..i + 1];
    assert upto[..i] == calls[..i] && before[..i + 1] == upto;
    ClaimMarks(Run(calls[..i]), calls[i].now, pid, voter);
    RunKeeps(before, i + 1, pid);
    ClaimMarks(Run(before), calls[j].now, pid, voter);
  }

  // ---------------------------------------------------------------------------------------------
  // What nothing reads
  // ---------------------------------------------------------------------------------------------

  /** A state but for the pause flag and the total supply. */
  function Bare(s: State): State {
    s.(paused := false, totalSupply := 0)
  }

  /** Calls that set or clear the flag, or set the supply. */
  predicate OnlySets(c: Call) {
    c.op.ToPause? || c.op.ToUnpause? || c.op.ToSetSupply?
  }

  lemma AdvanceBare(s: State, t: State, now: u64, d: Docket, act: Act)
    requires Bare(s) == Bare(t)
    ensures Advance(s, now, d, act) == Advance(t, now, d, act)
  {
  }

  lemma PermittedBare(s: State, t: State, pid: nat, act: Act)
    requires Bare(s) == Bare(t)
    ensures Permitted(s, pid, act) == Permitted(t, pid, act)
  {
  }

  lemma OnProposalBare(s: State, t: State, now: u64, pid: nat, act: Act)
    requires Bare(s) == Bare(t)
    ensures var (x, y) := (OnProposal(s, now, pid, act), OnProposal(t, now, pid, act));
            && (x.Err? ==> y == x)
            && (x.Ok? ==> y.Ok? && x.value.report == y.value.report && Bare(x.value.state) == Bare(y.value.state))
  {
    hide Advance, Permitted, WrapI128;
    PermittedBare(s, t, pid, act);
    if pid in s.dockets {
      AdvanceBare(s, t, now, s.dockets[pid], act);
    }
  }

  /** No other call reads the pause flag or the total supply: its answer and all else it does are the same. */
  lemma StepBare(s: State, t: State, c: Call)
    requires Bare(s) == Bare(t) && !OnlySets(c)
    ensures Answer(s, c) == Answer(t, c) && Bare(Step(s, c)) == Bare(Step(t, c))
  {
    hide OnProposal, CountActive, Put, WrapI128, At, WithPower;
    match c.op
    case ToInitialize(_, _) =>
    case ToConfigure(_, _) =>
    case ToDeposit(_, _) =>
    case ToWithdraw(_, _) =>
    case ToSubmit(_, _) =>
    case To(pid, act) => OnProposalBare(s, t, c.now, pid, act);
    case ToDelegate(_, _) =>
    case ToRevoke(_) =>
  }

  lemma SetsBare(s: State, c: Call)
    requires OnlySets(c)
    ensures Bare(Step(s, c)) == Bare(s)
  {
  }

  /** A run without the calls that pause, unpause, or set the supply. */
  function Without(calls: seq<Call>): seq<Call> {
    if calls == [] then []
    else Without(calls[..|calls| - 1]) + if OnlySets(calls[|calls| - 1]) then [] else [calls[|calls| - 1]]
  }

  /**
   The pause, documented to stop proposals, voting and withdrawals, and the total supply, documented as what
   the quorum is a share of, decide nothing: leaving out every call that sets them changes no answer to any
   other call and nothing else in the state.
   */
  lemma {:induction false} RunIgnores(calls: seq<Call>, c: Call)
    ensures Bare(Run(calls)) == Bare(Run(Without(calls)))
    ensures !OnlySets(c) ==> Answer(Run(calls), c) == Answer(Run(Without(calls)), c)
  {
    hide Step, Bare, Answer, OnlySets;
    if calls != [] {
      var init, last := calls[..|calls| - 1], calls[|calls| - 1];
      RunIgnores(init, last);
      if OnlySets(last) {
        SetsBare(Run(init), last);
        assert Without(calls) == Without(init);
      } else {
        StepBare(Run(init), Run(Without(init)), last);
        RunSnoc(Without(init), last);
      }
    }
    if !OnlySets(c) {
      StepBare(Run(calls), Run(Without(calls)), c);
    }
  }
}
