/** The governance treasury: deposits, withdrawal requests, and their multi-signature execution. */
module Treasury {
  import opened Wrappers
  import opened Checked
  import opened Host
  import opened Sums

  const BPS := 10000

  datatype Error =
    | InsufficientBalance | RequestNotFound | AlreadyExecuted | NotASigner | AlreadyApproved
    | InsufficientApprovals | ExceedsSpendLimit | InvalidAmount | InvalidConfig
    | AlreadyInitialized | NotInitialized | Unauthorized

  datatype Request = Request(
    recipient: Address,
    amount: int,
    asset: Symbol,
    approvals: seq<Address>,
    executed: bool,
    createdAt: u64)

  /**
   The treasury's entries, and the two parameters of the configuration that govern it. The last field is a
   history variable: how many requests there were when `initialize` started their ids over.
   */
  datatype State = State(
    admin: Option<Address>,
    signers: seq<Address>,
    maxSpendBps: nat,
    threshold: nat,
    balances: map<Symbol, int>,
    assets: seq<Symbol>,
    requests: map<nat, Request>,
    nextId: nat,
    orphans: nat)

  /** Nothing is stored yet. */
  const EMPTY := State(None, [], 1000, 2, map[], [], map[], 1, 0)

  datatype Call =
    | Initialize(admin: Address)
    | Configure(caller: Address, maxSpendBps: nat, threshold: nat)
    | Deposit(asset: Symbol, amount: int)
    | CreateRequest(now: u64, recipient: Address, amount: int, asset: Symbol)
    | ApproveRequest(signer: Address, id: nat)
    | ExecuteRequest(id: nat)
    | AddSigner(signer: Address)
    | RemoveSigner(signer: Address)

  /** What a successful call returns: the new balance, the new id, or the amount paid. */
  datatype Done = Done(state: State, value: int)

  function DepositFunds(s: State, asset: Symbol, amount: int): Result<Done, Error> {
    if amount <= 0 then Err(InvalidAmount)
    else
      var balance :- CheckedAdd(At(s.balances, asset), amount, InsufficientBalance);
      Ok(Done(s.(balances := s.balances[asset := balance],
                 assets := if asset in s.assets then s.assets else s.assets + [asset]),
              balance))
  }

  /** The most one request may ask for, as the balance stands. */
  function SpendLimit(s: State, asset: Symbol): Result<int, Error> {
    var scaled :- CheckedMul(At(s.balances, asset), s.maxSpendBps, InsufficientBalance);
    Ok(TruncDiv(scaled, BPS))
  }

  function Create(s: State, now: u64, recipient: Address, amount: int, asset: Symbol): Result<Done, Error> {
    if amount <= 0 then Err(InvalidAmount)
    else
      var limit :- SpendLimit(s, asset);
      if amount > limit then Err(ExceedsSpendLimit)
      else
        var q := Request(recipient, amount, asset, [], false, now);
        Ok(Done(s.(requests := s.requests[s.nextId := q], nextId := s.nextId + 1), s.nextId))
  }

  predicate MaySign(s: State, signer: Address) {
    s.admin.Some? && (signer in s.signers || signer == s.admin.value)
  }

  function Approve(s: State, signer: Address, id: nat): Result<Done, Error> {
    if !MaySign(s, signer) then Err(NotASigner)
    else if id !in s.requests then Err(RequestNotFound)
    else
      var q := s.requests[id];
      if q.executed then Err(AlreadyExecuted)
      else if signer in q.approvals then Err(AlreadyApproved)
      else
        var approvals := q.approvals + [signer];
        Ok(Done(s.(requests := s.requests[id := q.(approvals := approvals)]), |approvals|))
  }

  function Execute(s: State, id: nat): Result<Done, Error> {
    if id !in s.requests then Err(RequestNotFound)
    else
      var q := s.requests[id];
      if q.executed then Err(AlreadyExecuted)
      else if |q.approvals| < s.threshold then Err(InsufficientApprovals)
      else if q.amount > At(s.balances, q.asset) then Err(InsufficientBalance)
      else
        Ok(Done(s.(balances := s.balances[q.asset := At(s.balances, q.asset) - q.amount],
                   requests := s.requests[id := q.(executed := true)]),
                q.amount))
  }

  /** The list without its first occurrence of a signer. */
  function Without(signers: seq<Address>, a: Address): seq<Address> {
    if signers == [] then []
    else if signers[0] == a then signers[1..]
    else [signers[0]] + Without(signers[1..], a)
  }

  function Apply(s: State, c: Call): Result<Done, Error> {
    match c
    case Initialize(admin) =>
      if s.admin.Some? then Err(AlreadyInitialized)
      else
        Ok(Done(s.(admin := Some(admin), maxSpendBps := 1000, threshold := 2, nextId := 1,
                   orphans := if s.nextId > 0 then s.nextId - 1 else 0), 0))
    case Configure(caller, maxSpendBps, threshold) =>
      if s.admin.None? then Err(NotInitialized)
      else if caller != s.admin.value then Err(Unauthorized)
      else if threshold == 0 then Err(InvalidConfig)
      else Ok(Done(s.(maxSpendBps := maxSpendBps, threshold := threshold), 0))
    case Deposit(asset, amount) => DepositFunds(s, asset, amount)
    case CreateRequest(now, recipient, amount, asset) => Create(s, now, recipient, amount, asset)
    case ApproveRequest(signer, id) => Approve(s, signer, id)
    case ExecuteRequest(id) => Execute(s, id)
    case AddSigner(signer) =>
      Ok(Done(if signer in s.signers then s else s.(signers := s.signers + [signer]), 0))
    case RemoveSigner(signer) => Ok(Done(s.(signers := Without(s.signers, signer)), 0))
  }

  function Step(s: State, c: Call): State {
    match Apply(s, c)
    case Ok(d) => d.state
    case Err(_) => s
  }

  function Answer(s: State, c: Call): Result<int, Error> {
    Apply(s, c).Map((d: Done) => d.value)
  }

  /** The state after a run from the empty store. */
  function Run(calls: seq<Call>): State {
    if calls == [] then EMPTY else Step(Run(calls[..|calls| - 1]), calls[|calls| - 1])
  }
}

/** Conservation and the signature rule over every run of the treasury. */
module TreasuryLaws {
  import opened Wrappers
  import opened Checked
  import opened Host
  import opened Sums
  import opened Treasury

  /** The amounts of the executed requests for an asset, by request. */
  ghost function PaidOut(requests: map<nat, Request>, asset: Symbol): map<nat, int> {
    map id | id in requests && requests[id].executed && requests[id].asset == asset :: requests[id].amount
  }

  /** The amount a call moves in or out of one asset. */
  ghost function DepositedBy(s: State, c: Call, asset: Symbol): int {
    if c.Deposit? && c.asset == asset && Apply(s, c).Ok? then c.amount else 0
  }

  ghost function PaidBy(s: State, c: Call, asset: Symbol): int {
    if c.ExecuteRequest? && Apply(s, c).Ok? && s.requests[c.id].asset == asset then Answer(s, c).value else 0
  }

  /** The amount of an executed request whose place a new one takes. */
  ghost function OverwrittenBy(s: State, c: Call, asset: Symbol): int {
    if c.CreateRequest? && Apply(s, c).Ok? then At(PaidOut(s.requests, asset), s.nextId) else 0
  }

  /** What the deposits, the payments and the overwritten payments of a run add up to. */
  ghost function Deposited(calls: seq<Call>, asset: Symbol): int {
    if calls == [] then 0
    else Deposited(calls[..|calls| - 1], asset) + DepositedBy(Run(calls[..|calls| - 1]), calls[|calls| - 1], asset)
  }

  ghost function Paid(calls: seq<Call>, asset: Symbol): int {
    if calls == [] then 0
    else Paid(calls[..|calls| - 1], asset) + PaidBy(Run(calls[..|calls| - 1]), calls[|calls| - 1], asset)
  }

  ghost function Overwritten(calls: seq<Call>, asset: Symbol): int {
    if calls == [] then 0
    else Overwritten(calls[..|calls| - 1], asset) + OverwrittenBy(Run(calls[..|calls| - 1]), calls[|calls| - 1], asset)
  }

  ghost predicate Distinct(s: seq<Address>) {
    forall i, j :: 0 <= i < j < |s| ==> s[i] != s[j]
  }

  ghost predicate RequestValid(q: Request) {
    q.amount > 0 && Distinct(q.approvals)
  }

  ghost predicate Valid(s: State) {
    && s.threshold >= 1 && s.nextId >= 1 && (s.admin.None? ==> s.orphans == 0)
    && (forall a :: a in s.balances ==> s.balances[a] >= 0)
    && (forall id :: id in s.requests ==> 1 <= id <= Max(s.nextId - 1, s.orphans) && RequestValid(s.requests[id]))
  }

  /** This id was handed out before `initialize` and again after it. */
  predicate Reused(s: State, id: nat) {
    1 <= id <= s.orphans && id < s.nextId
  }

  /** What is there, and what the stored requests say was paid out. */
  ghost function Funds(s: State, asset: Symbol): int {
    At(s.balances, asset) + Total(PaidOut(s.requests, asset))
  }

  lemma PaidOutPut(requests: map<nat, Request>, id: nat, q: Request, asset: Symbol)
    ensures Total(PaidOut(requests[id := q], asset))
            == Total(PaidOut(requests, asset)) - At(PaidOut(requests, asset), id)
             + if q.executed && q.asset == asset then q.amount else 0
  {
    var paid := PaidOut(requests, asset);
    if q.executed && q.asset == asset {
      assert PaidOut(requests[id := q], asset) == paid[id := q.amount];
      TotalUpdate(paid, id, q.amount);
    } else {
      assert PaidOut(requests[id := q], asset) == paid - {id};
      TotalDelete(paid, id);
    }
  }

  lemma StepValid(s: State, c: Call)
    requires Valid(s)
    ensures Valid(Step(s, c))
  {
    hide SpendLimit, Without;
  }

  lemma ExecuteFunds(s: State, id: nat, asset: Symbol)
    requires Execute(s, id).Ok?
    ensures Funds(Execute(s, id).value.state, asset) == Funds(s, asset)
  {
    PaidOutPut(s.requests, id, s.requests[id].(executed := true), asset);
  }

  lemma StepFunds(s: State, c: Call, asset: Symbol)
    ensures Funds(Step(s, c), asset) == Funds(s, asset) + DepositedBy(s, c, asset) - OverwrittenBy(s, c, asset)
  {
    hide Execute;
    if Apply(s, c).Ok? {
      match c
      case CreateRequest(now, recipient, amount, other) =>
        PaidOutPut(s.requests, s.nextId, Request(recipient, amount, other, [], false, now), asset);
      case ApproveRequest(signer, id) => PaidOutPut(s.requests, id, Step(s, c).requests[id], asset);
      case ExecuteRequest(id) => ExecuteFunds(s, id, asset);
      case _ =>
    }
  }

  lemma StepBalance(s: State, c: Call, asset: Symbol)
    ensures At(Step(s, c).balances, asset) == At(s.balances, asset) + DepositedBy(s, c, asset) - PaidBy(s, c, asset)
  {
    hide SpendLimit, Without;
  }

  lemma StepOverwrites(s: State, c: Call, asset: Symbol)
    requires Valid(s) && s.orphans == 0
    ensures OverwrittenBy(s, c, asset) == 0
  {
    hide Create;
  }

  lemma StepOrphans(s: State, c: Call)
    requires Valid(s)
    ensures Step(s, c).orphans == 0 ==> s.orphans == 0
    ensures Reused(s, 0) == false
    ensures forall id :: Reused(s, id) ==> Reused(Step(s, c), id)
  {
    hide SpendLimit, Without, At;
  }

  lemma {:induction false} RunValid(calls: seq<Call>)
    ensures Valid(Run(calls))
  {
    hide Step;
    if calls != [] {
      RunValid(calls[..|calls| - 1]);
      StepValid(Run(calls[..|calls| - 1]), calls[|calls| - 1]);
    }
  }

  /** This call puts a new request in the place of an executed one for the asset. */
  ghost predicate Replaces(s: State, c: Call, asset: Symbol) {
    && c.CreateRequest? && Apply(s, c).Ok?
    && s.nextId in s.requests && s.requests[s.nextId].executed && s.requests[s.nextId].asset == asset
  }

  ghost predicate NeverReplaces(calls: seq<Call>, asset: Symbol) {
    forall k :: 0 <= k < |calls| ==> !Replaces(Run(calls[..k]), calls[k], asset)
  }

  lemma ReplacesIff(s: State, c: Call, asset: Symbol)
    requires Valid(s)
    ensures OverwrittenBy(s, c, asset) >= 0
    ensures OverwrittenBy(s, c, asset) == 0 <==> !Replaces(s, c, asset)
  {
    hide Create;
    assert s.nextId in s.requests ==> RequestValid(s.requests[s.nextId]);
  }

  /** What was overwritten adds up to nothing exactly when nothing was. */
  lemma {:induction false} OverwrittenIff(calls: seq<Call>, asset: Symbol)
    ensures Overwritten(calls, asset) >= 0
    ensures Overwritten(calls, asset) == 0 <==> NeverReplaces(calls, asset)
  {
    hide Step, Run, OverwrittenBy, Replaces, NeverReplaces;
    NeverReplacesSnoc(calls, asset);
    if calls != [] {
      var init := calls[..|calls| - 1];
      OverwrittenIff(init, asset);
      RunValid(init);
      ReplacesIff(Run(init), calls[|calls| - 1], asset);
    }
  }

  lemma NeverReplacesSnoc(calls: seq<Call>, asset: Symbol)
    ensures calls == [] ==> NeverReplaces(calls, asset)
    ensures calls != [] ==>
              var init := calls[..|calls| - 1];
              NeverReplaces(calls, asset) <==>
                NeverReplaces(init, asset) && !Replaces(Run(init), calls[|calls| - 1], asset)
  {
    hide Run, Replaces;
    if calls != [] {
      var n := |calls| - 1;
      assert forall k :: 0 <= k < n ==> calls[..n][..k] == calls[..k] && calls[..n][k] == calls[k];
    }
  }

  /**
   In every run each asset's balance is what was deposited less what executions paid, and never negative. It is
   also what was deposited less the amounts of the executed requests in the store, if and only if no new request
   took the place of one of those, as none does unless requests were made before `initialize`.
   */
  lemma {:induction false} RunConserves(calls: seq<Call>, asset: Symbol)
    ensures var s := Run(calls);
            && At(s.balances, asset) == Deposited(calls, asset) - Paid(calls, asset) && At(s.balances, asset) >= 0
            && Funds(s, asset) == Deposited(calls, asset) - Overwritten(calls, asset)
            && (Funds(s, asset) == Deposited(calls, asset) <==> NeverReplaces(calls, asset))
            && (s.orphans == 0 ==> NeverReplaces(calls, asset))
  {
    hide NeverReplaces;
    RunValid(calls);
    OverwrittenIff(calls, asset);
    if calls == [] {
      assert PaidOut(map[], asset) == map[];
    } else {
      hide Step, Apply, Funds, DepositedBy, PaidBy, OverwrittenBy;
      var before, c := Run(calls[..|calls| - 1]), calls[|calls| - 1];
      RunConserves(calls[..|calls| - 1], asset);
      OverwrittenIff(calls[..|calls| - 1], asset);
      RunValid(calls[..|calls| - 1]);
      StepFunds(before, c, asset);
      StepBalance(before, c, asset);
      StepOrphans(before, c);
      if before.orphans == 0 {
        StepOverwrites(before, c, asset);
      }
    }
  }

  /** A request once made keeps its terms, never loses an approval, and is frozen by its execution. */
  ghost predicate Later(q: Request, r: Request) {
    && r.recipient == q.recipient && r.amount == q.amount && r.asset == q.asset && r.createdAt == q.createdAt
    && q.approvals <= r.approvals
    && (q.executed ==> r == q)
  }

  lemma StepLater(s: State, c: Call, id: nat)
    requires Valid(s) && id in s.requests && (Reused(Step(s, c), id) ==> Reused(s, id))
    ensures id in Step(s, c).requests && Later(s.requests[id], Step(s, c).requests[id])
  {
    hide SpendLimit, Without, At;
  }

  lemma {:induction false} ReusedForever(calls: seq<Call>, k: nat, id: nat)
    requires k <= |calls|
    ensures Reused(Run(calls[..k]), id) ==> Reused(Run(calls), id)
  {
    hide Step, Reused;
    if k == |calls| {
      assert calls[..k] == calls;
    } else {
      var init := calls[..|calls| - 1];
      assert init[..k] == calls[..k];
      ReusedForever(init, k, id);
      RunValid(init);
      StepOrphans(Run(init), calls[|calls| - 1]);
    }
  }

  /** From call k on, unless its id is handed out again after an `initialize` that came late. */
  lemma {:induction false} RunLater(calls: seq<Call>, k: nat, id: nat)
    requires k <= |calls| && id in Run(calls[..k]).requests
    requires Reused(Run(calls), id) ==> Reused(Run(calls[..k]), id)
    ensures id in Run(calls).requests && Later(Run(calls[..k]).requests[id], Run(calls).requests[id])
  {
    hide Step, Reused;
    if k == |calls| {
      assert calls[..k] == calls;
    } else {
      var init := calls[..|calls| - 1];
      assert init[..k] == calls[..k];
      ReusedForever(init, k, id);
      ReusedForever(calls, |calls| - 1, id);
      RunLater(init, k, id);
      RunValid(init);
      StepLater(Run(init), calls[|calls| - 1], id);
    }
  }

  ghost predicate Happens(calls: seq<Call>, k: nat, c: Call) {
    k < |calls| && calls[k] == c && Apply(Run(calls[..k]), c).Ok?
  }

  /** Call k approved a request, signed by someone who then was a signer or the admin. */
  ghost predicate ApprovedAt(calls: seq<Call>, k: nat, signer: Address, id: nat) {
    && Happens(calls, k, ApproveRequest(signer, id))
    && var s := Run(calls[..k]); s.admin.Some? && (signer == s.admin.value || signer in s.signers)
  }

  lemma StepApprovals(s: State, c: Call, id: nat, a: Address)
    requires id in Step(s, c).requests && a in Step(s, c).requests[id].approvals
    ensures (id in s.requests && a in s.requests[id].approvals)
            || (c == ApproveRequest(a, id) && Apply(s, c).Ok? && MaySign(s, a))
  {
    hide SpendLimit, Without, At;
  }

  /** Behind every recorded approval stands an authorised approving call. */
  lemma {:induction false} ApprovalOrigin(calls: seq<Call>, id: nat, a: Address) returns (k: nat)
    requires id in Run(calls).requests && a in Run(calls).requests[id].approvals
    ensures ApprovedAt(calls, k, a, id)
  {
    hide Step, Apply;
    var init := calls[..|calls| - 1];
    var before := Run(init);
    StepApprovals(before, calls[|calls| - 1], id, a);
    if id in before.requests && a in before.requests[id].approvals {
      k := ApprovalOrigin(init, id, a);
      assert init[..k] == calls[..k];
    } else {
      k := |calls| - 1;
    }
  }

  lemma ExecuteNeeds(s: State, id: nat)
    requires Apply(s, ExecuteRequest(id)).Ok?
    ensures id in s.requests && !s.requests[id].executed && |s.requests[id].approvals| >= s.threshold
    ensures id in Step(s, ExecuteRequest(id)).requests && Step(s, ExecuteRequest(id)).requests[id].executed
    ensures forall i :: Reused(Step(s, ExecuteRequest(id)), i) == Reused(s, i)
  {
  }

  /** Everyone on the list signed through an authorised approving call. */
  ghost predicate Signed(calls: seq<Call>, id: nat, approvers: seq<Address>) {
    forall a :: a in approvers ==> exists i: nat :: ApprovedAt(calls, i, a, id)
  }

  /**
   A payment happens only with at least as many pairwise distinct approvers as the threshold then in
   force, each of them authorised when it signed.
   */
  lemma PaidOnlyWhenSigned(calls: seq<Call>, k: nat, id: nat)
    requires Happens(calls, k, ExecuteRequest(id))
    ensures var s := Run(calls[..k]);
            && id in s.requests && 1 <= s.threshold <= |s.requests[id].approvals|
            && Distinct(s.requests[id].approvals) && Signed(calls[..k], id, s.requests[id].approvals)
  {
    hide Run, Apply;
    var before := calls[..k];
    var s := Run(before);
    RunValid(before);
    ExecuteNeeds(s, id);
    assert RequestValid(s.requests[id]);
    forall a | a in s.requests[id].approvals
      ensures exists i: nat :: ApprovedAt(before, i, a, id)
    {
      var i := ApprovalOrigin(before, id, a);
    }
  }

  /** A request pays at most once: a second execution fails, whatever happened in between, unless its id was
      handed out again. */
  lemma PaidOnce(calls: seq<Call>, i: nat, j: nat, id: nat)
    requires i < j < |calls| && calls[j] == ExecuteRequest(id) && Happens(calls, i, ExecuteRequest(id))
    requires Reused(Run(calls[..j]), id) ==> Reused(Run(calls[..i]), id)
    ensures Answer(Run(calls[..j]), calls[j]) == Err(AlreadyExecuted)
  {
    hide Apply, Step, Reused;
    var before, upto := calls[..j], calls[..i + 1];
    assert upto[..i] == calls[..i] && before[..i + 1] == upto;
    ExecuteNeeds(Run(calls[..i]), id);
    RunLater(before, i + 1, id);
    SecondExecution(Run(before), id);
  }

  lemma SecondExecution(s: State, id: nat)
    requires id in s.requests && s.requests[id].executed
    ensures Answer(s, ExecuteRequest(id)) == Err(AlreadyExecuted)
  {
  }

  /** A new request takes the place of whatever is stored under its id, an executed one included. */
  lemma CreateReuses(s: State, now: u64, recipient: Address, amount: int, asset: Symbol)
    requires Create(s, now, recipient, amount, asset).Ok?
    ensures var t := Step(s, CreateRequest(now, recipient, amount, asset));
            t.requests == s.requests[s.nextId := Request(recipient, amount, asset, [], false, now)]
  {
    hide SpendLimit;
  }

  /** Who takes part in the run of `LateInitializeRequest`. */
  datatype Cast = Cast(now: u64, admin: Address, signer: Address, recipient: Address, asset: Symbol)

  function LateCall(p: Cast, k: nat): Call
    requires k < 11
  {
    match k
    case 0 => Deposit(p.asset, 20000)
    case 1 => CreateRequest(p.now, p.recipient, 1000, p.asset)
    case 2 => Initialize(p.admin)
    case 3 => ApproveRequest(p.admin, 1)
    case 4 => AddSigner(p.signer)
    case 5 => ApproveRequest(p.signer, 1)
    case 6 => ExecuteRequest(1)
    case 7 => CreateRequest(p.now, p.recipient, 500, p.asset)
    case 8 => ApproveRequest(p.admin, 1)
    case 9 => ApproveRequest(p.signer, 1)
    case 10 => ExecuteRequest(1)
  }

  /** The one request as it is after k calls: the second of its id from the eighth on. */
  function LateRequest(p: Cast, k: nat): Request {
    var again := k >= 8;
    var approvals := if k - (if again then 5 else 0) < 4 then [] else if k == 4 || k == 5 || k == 9 then [p.admin]
                     else [p.admin, p.signer];
    Request(p.recipient, if again then 500 else 1000, p.asset, approvals, k == 7 || k == 11, p.now)
  }

  function LateState(p: Cast, k: nat): State {
    State(if k < 3 then None else Some(p.admin), if k < 5 then [] else [p.signer], 1000, 2,
          if k == 0 then map[] else map[p.asset := if k < 7 then 20000 else if k < 11 then 19000 else 18500],
          if k == 0 then [] else [p.asset],
          if k < 2 then map[] else map[1 := LateRequest(p, k)],
          if k == 2 || k >= 8 then 2 else 1, if k < 3 then 0 else 1)
  }

  lemma LateFirst(p: Cast, k: nat)
    requires k < 3
    ensures Step(LateState(p, k), LateCall(p, k)) == LateState(p, k + 1)
  {
    hide Without, Approve, Execute;
    match k
    case 0 => assert [] + [p.asset] == [p.asset];
    case 1 =>
    case 2 =>
  }

  lemma LateSecond(p: Cast, k: nat)
    requires 3 <= k < 6 && p.admin != p.signer
    ensures Step(LateState(p, k), LateCall(p, k)) == LateState(p, k + 1)
  {
    hide Without, DepositFunds, Create, Execute;
    match k
    case 3 => assert [] + [p.admin] == [p.admin];
    case 4 => assert [] + [p.signer] == [p.signer];
    case 5 => assert [p.admin] + [p.signer] == [p.admin, p.signer];
  }

  lemma LateThird(p: Cast, k: nat)
    requires 6 <= k < 8 && p.admin != p.signer
    ensures Step(LateState(p, k), LateCall(p, k)) == LateState(p, k + 1)
  {
    hide Without, DepositFunds, Approve;
    match k
    case 6 =>
    case 7 =>
  }

  lemma LateFourth(p: Cast, k: nat)
    requires 8 <= k < 10 && p.admin != p.signer
    ensures Step(LateState(p, k), LateCall(p, k)) == LateState(p, k + 1)
  {
    hide Without, DepositFunds, Create, Execute;
    match k
    case 8 => assert [] + [p.admin] == [p.admin];
    case 9 => assert [p.admin] + [p.signer] == [p.admin, p.signer];
  }

  lemma LateLast(p: Cast)
    requires p.admin != p.signer
    ensures Step(LateState(p, 10), LateCall(p, 10)) == LateState(p, 11)
  {
    hide Without, DepositFunds, Create, Approve;
  }

  lemma LateStep(p: Cast, k: nat)
    requires k < 11 && p.admin != p.signer
    ensures Step(LateState(p, k), LateCall(p, k)) == LateState(p, k + 1)
  {
    hide Step, LateState, LateCall;
    if k < 3 {
      LateFirst(p, k);
    } else if k < 6 {
      LateSecond(p, k);
    } else if k < 8 {
      LateThird(p, k);
    } else if k < 10 {
      LateFourth(p, k);
    } else {
      LateLast(p);
    }
  }

  lemma LateSums(p: Cast, k: nat)
    requires k < 11 && p.admin != p.signer
    ensures var s, c := LateState(p, k), LateCall(p, k);
            && DepositedBy(s, c, p.asset) == (if k == 0 then 20000 else 0)
            && PaidBy(s, c, p.asset) == (if k == 6 then 1000 else if k == 10 then 500 else 0)
            && OverwrittenBy(s, c, p.asset) == (if k == 7 then 1000 else 0)
  {
    match k
    case 0 =>
    case 1 =>
    case 2 =>
    case 3 =>
    case 4 =>
    case 5 =>
    case 6 =>
    case 7 =>
    case 8 =>
    case 9 =>
    case 10 =>
  }

  function LateCalls(p: Cast, k: nat): (calls: seq<Call>)
    requires k <= 11
    ensures |calls| == k
  {
    if k == 0 then [] else LateCalls(p, k - 1) + [LateCall(p, k - 1)]
  }

  lemma {:induction false} LateRun(p: Cast, k: nat)
    requires k <= 11 && p.admin != p.signer
    ensures var calls := LateCalls(p, k);
            && Run(calls) == LateState(p, k)
            && Deposited(calls, p.asset) == (if k > 0 then 20000 else 0)
            && Paid(calls, p.asset) == (if k > 10 then 1500 else if k > 6 then 1000 else 0)
            && Overwritten(calls, p.asset) == (if k > 7 then 1000 else 0)
  {
    hide Step, DepositedBy, PaidBy, OverwrittenBy, LateCall;
    if k == 0 {
      assert LateState(p, 0) == EMPTY;
    } else {
      LateRun(p, k - 1);
      LateStep(p, k - 1);
      LateSums(p, k - 1);
      assert LateCalls(p, k)[..|LateCalls(p, k - 1)|] == LateCalls(p, k - 1);
    }
  }

  lemma {:induction false} LatePrefix(p: Cast, k: nat, n: nat)
    requires k <= n <= 11
    ensures LateCalls(p, n)[..k] == LateCalls(p, k)
    ensures k < n ==> LateCalls(p, n)[k] == LateCall(p, k)
  {
    hide LateCall;
    if k + 1 < n {
      LatePrefix(p, k, n - 1);
    }
  }

  /** Both executions, of the request made before `initialize` and of the one made after it, answer what they pay. */
  lemma LateAnswers(p: Cast)
    requires p.admin != p.signer
    ensures Answer(LateState(p, 6), ExecuteRequest(1)) == Ok(1000)
    ensures Answer(LateState(p, 10), ExecuteRequest(1)) == Ok(500)
  {
  }

  /**
   A request made before `initialize` is approved and paid after it, and the next request gets its id: approved
   and executed as well, it is the second payment under one id, and the store tells of that one only.
   */
  lemma LateInitializeRequest(p: Cast)
    requires p.admin != p.signer
    ensures var calls := LateCalls(p, 11);
            var s := Run(calls);
            && calls[6] == calls[10] == ExecuteRequest(1)
            && Answer(Run(calls[..6]), calls[6]) == Ok(1000) && Answer(Run(calls[..10]), calls[10]) == Ok(500)
            && Deposited(calls, p.asset) == 20000 && Paid(calls, p.asset) == 1500
            && At(s.balances, p.asset) == 18500 && Overwritten(calls, p.asset) == 1000 && Reused(s, 1)
            && 1 in s.requests && s.requests[1].executed && s.requests[1].amount == 500
  {
    hide Run, LateCalls, Deposited, Paid, Overwritten, Answer;
    LateRun(p, 6);
    LateRun(p, 10);
    LateRun(p, 11);
    LatePrefix(p, 6, 11);
    LatePrefix(p, 10, 11);
    LateAnswers(p);
  }

  // ---------------------------------------------------------------------------------------------
  // The spend limit
  // ---------------------------------------------------------------------------------------------

  /** Within the configured share of the balance as it stands. */
  predicate WithinShare(s: State, amount: int, asset: Symbol) {
    amount * BPS <= At(s.balances, asset) * s.maxSpendBps
  }

  /** A request is accepted exactly when it is positive and within its share of the balance at that time. */
  lemma CreateIff(calls: seq<Call>, now: u64, recipient: Address, amount: int, asset: Symbol)
    ensures var s := Run(calls);
            Create(s, now, recipient, amount, asset).Ok?
            <==> amount > 0 && FitsI128(At(s.balances, asset) * s.maxSpendBps) && WithinShare(s, amount, asset)
  {
    hide Run, At;
    RunValid(calls);
    NonNegativeAt(Run(calls), asset);
    CreateWithin(Run(calls), now, recipient, amount, asset);
  }

  lemma NonNegativeAt(s: State, asset: Symbol)
    requires Valid(s)
    ensures At(s.balances, asset) >= 0
  {
  }

  lemma CreateWithin(s: State, now: u64, recipient: Address, amount: int, asset: Symbol)
    requires At(s.balances, asset) >= 0
    ensures Create(s, now, recipient, amount, asset).Ok?
            <==> amount > 0 && FitsI128(At(s.balances, asset) * s.maxSpendBps) && WithinShare(s, amount, asset)
  {
    hide At;
    assert At(s.balances, asset) * s.maxSpendBps >= 0;
    FloorIff(amount, At(s.balances, asset) * s.maxSpendBps, BPS);
  }

  /** The limit is not checked again: two requests of all that it allows are accepted one after the other. */
  lemma LimitIsPerRequest(s: State, now: u64, recipient: Address, asset: Symbol)
    requires SpendLimit(s, asset).Ok? && SpendLimit(s, asset).value > 0
    ensures var limit := SpendLimit(s, asset).value;
            var c := CreateRequest(now, recipient, limit, asset);
            var t := Step(s, c);
            && Answer(s, c) == Ok(s.nextId) && Answer(t, c) == Ok(s.nextId + 1)
            && Step(t, c).requests[s.nextId].amount + Step(t, c).requests[s.nextId + 1].amount == 2 * limit > limit
  {
  }

  /** A payment is still within its share of the balance if neither the balance nor the share has fallen since its
      request was made. */
  lemma ExecutedWithinShare(calls: seq<Call>, i: nat, k: nat, c: Call)
    requires c.CreateRequest? && Happens(calls, i, c) && i < k
    requires var id := Run(calls[..i]).nextId;
             Happens(calls, k, ExecuteRequest(id)) && (Reused(Run(calls[..k]), id) ==> Reused(Run(calls[..i + 1]), id))
    requires At(Run(calls[..i]).balances, c.asset) <= At(Run(calls[..k]).balances, c.asset)
    requires Run(calls[..i]).maxSpendBps <= Run(calls[..k]).maxSpendBps
    ensures var id := Run(calls[..i]).nextId;
            && id in Run(calls[..k]).requests && Run(calls[..k]).requests[id].amount == c.amount
            && WithinShare(Run(calls[..k]), c.amount, c.asset)
  {
    hide Apply, Step, Reused, Create, SpendLimit;
    var before, upto := calls[..k], calls[..i + 1];
    var s, t := Run(calls[..i]), Run(before);
    assert upto[..i] == calls[..i] && before[..i + 1] == upto;
    CreateApplies(s, c);
    CreateIff(calls[..i], c.now, c.recipient, c.amount, c.asset);
    CreateReuses(s, c.now, c.recipient, c.amount, c.asset);
    RunLater(before, i + 1, s.nextId);
    RunConserves(calls[..i], c.asset);
    Grows(At(s.balances, c.asset), At(t.balances, c.asset), s.maxSpendBps, t.maxSpendBps);
  }

  lemma CreateApplies(s: State, c: Call)
    requires c.CreateRequest?
    ensures Apply(s, c) == Create(s, c.now, c.recipient, c.amount, c.asset)
  {
  }

  lemma Grows(a: int, b: int, m: int, n: int)
    requires 0 <= a <= b && 0 <= m <= n
    ensures a * m <= b * n
  {
    MulMono(a, b, m);
    MulMono(m, n, b);
  }
}
