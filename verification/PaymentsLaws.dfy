/** Solvency of the payments contract over every run, and escrows that pay exactly once. */
module PaymentsLaws {
  import opened Wrappers
  import opened Checked
  import opened Host
  import opened Sums
  import opened Payments

  // ---------------------------------------------------------------------------------------------
  // What the contract owes and what it holds
  // ---------------------------------------------------------------------------------------------

  predicate BackedBy(tokens: map<Symbol, Address>, asset: Symbol, token: Address) {
    asset in tokens && tokens[asset] == token
  }

  /** The internal balances of the assets mapped to a token. */
  ghost function Accounts(balances: map<(Address, Symbol), int>, tokens: map<Symbol, Address>, token: Address)
    : map<(Address, Symbol), int>
  {
    map k | k in balances && BackedBy(tokens, k.1, token) :: balances[k]
  }

  /** The amounts locked in active escrows of the assets mapped to a token. */
  ghost function Locked(escrows: map<nat, Escrow>, tokens: map<Symbol, Address>, token: Address): map<nat, int> {
    map id | id in escrows && escrows[id].status == Active && BackedBy(tokens, escrows[id].asset, token)
      :: escrows[id].amount
  }

  /** What the contract owes in a token. */
  ghost function Liability(s: State, token: Address): int {
    Total(Accounts(s.balances, s.tokens, token)) + Total(Locked(s.escrows, s.tokens, token))
  }

  function Custody(s: State, token: Address): int {
    At(s.ledger, (token, s.self))
  }

  ghost predicate EscrowValid(s: State, id: nat)
    requires id in s.escrows
  {
    var e := s.escrows[id];
    1 <= id <= s.escrowCount && e.amount > 0 && e.depositor != e.receiver && e.asset in s.tokens
  }

  ghost predicate BalancesValid(s: State) {
    forall k :: k in s.balances ==> s.balances[k] >= 0 && k.1 in s.tokens
  }

  ghost predicate EscrowsValid(s: State) {
    forall id :: id in s.escrows ==> EscrowValid(s, id)
  }

  /** No balance is negative, every asset with an entry is registered, every escrow is well formed. */
  ghost predicate Valid(s: State) {
    BalancesValid(s) && EscrowsValid(s)
  }

  /** Nobody but the contract itself can move its tokens or sign for it. */
  predicate OutsideCall(s: State, c: Call) {
    match c
    case Deposit(from, _, _) => from != s.self
    case Withdraw(to, _, _) => to != s.self
    case CreateEscrow(_, depositor, _, _, _) => depositor != s.self
    case External(_, from, _, _) => from != s.self
    case _ => true
  }

  /** What is owed in one asset: its balances and its active escrows. */
  ghost function Owed(s: State, asset: Symbol): int {
    Total(AssetAccounts(s.balances, asset)) + Total(AssetLocked(s.escrows, asset))
  }

  ghost function AssetAccounts(balances: map<(Address, Symbol), int>, asset: Symbol): map<(Address, Symbol), int> {
    map k | k in balances && k.1 == asset :: balances[k]
  }

  ghost function AssetLocked(escrows: map<nat, Escrow>, asset: Symbol): map<nat, int> {
    map id | id in escrows && escrows[id].status == Active && escrows[id].asset == asset :: escrows[id].amount
  }

  /** This call maps a registered asset to another token. */
  predicate Remaps(s: State, c: Call) {
    c.SetToken? && Apply(s, c).Ok? && c.asset in s.tokens && s.tokens[c.asset] != c.token
  }

  /** What the contract no longer owes in a token, and from then on owes in another. */
  ghost function Relieved(s: State, c: Call, token: Address): int {
    if !Remaps(s, c) then 0
    else if token == s.tokens[c.asset] then Owed(s, c.asset)
    else if token == c.token then -Owed(s, c.asset)
    else 0
  }

  /** What the contract keeps of a token without owing it: gifts, and escrows released to itself. */
  function Windfall(s: State, c: Call, token: Address): int {
    if Apply(s, c).Err? then 0
    else
      match c
      case External(t, _, to, amount) => if t == token && to == s.self then amount else 0
      case Settle(_, id, _, release) =>
        if id in s.escrows && BackedBy(s.tokens, s.escrows[id].asset, token) && Payee(s.escrows[id], release) == s.self
        then s.escrows[id].amount else 0
      case _ => 0
  }

  // ---------------------------------------------------------------------------------------------
  // How single writes change the two sides
  // ---------------------------------------------------------------------------------------------

  lemma AccountsPut(balances: map<(Address, Symbol), int>, tokens: map<Symbol, Address>, k: (Address, Symbol), v: int,
                    token: Address)
    ensures Total(Accounts(balances[k := v], tokens, token))
            == Total(Accounts(balances, tokens, token))
             + if BackedBy(tokens, k.1, token) then v - At(balances, k) else 0
  {
    hide Total;
    var before := Accounts(balances, tokens, token);
    if BackedBy(tokens, k.1, token) {
      assert Accounts(balances[k := v], tokens, token) == before[k := v];
      TotalUpdate(before, k, v);
    } else {
      assert Accounts(balances[k := v], tokens, token) == before;
    }
  }

  /** What an escrow locks of a token. */
  function LockedBy(tokens: map<Symbol, Address>, e: Escrow, token: Address): int {
    if e.status == Active && BackedBy(tokens, e.asset, token) then e.amount else 0
  }

  lemma LockedPut(escrows: map<nat, Escrow>, tokens: map<Symbol, Address>, id: nat, e: Escrow, token: Address)
    ensures Total(Locked(escrows[id := e], tokens, token))
            == Total(Locked(escrows, tokens, token)) + LockedBy(tokens, e, token)
               - if id in escrows then LockedBy(tokens, escrows[id], token) else 0
  {
    hide Total;
    var before := Locked(escrows, tokens, token);
    if e.status == Active && BackedBy(tokens, e.asset, token) {
      assert Locked(escrows[id := e], tokens, token) == before[id := e.amount];
      TotalUpdate(before, id, e.amount);
    } else {
      assert Locked(escrows[id := e], tokens, token) == before - {id};
      TotalDelete(before, id);
    }
  }

  /** A token transfer moves the contract's holding of that token only. */
  lemma MoveHolding(ledger: Ledger, token: Address, from: Address, to: Address, amount: int, t: Address, who: Address)
    requires Move(ledger, token, from, to, amount).Ok?
    ensures var after := Move(ledger, token, from, to, amount).value;
            At(after, (t, who)) == At(ledger, (t, who))
              - (if t == token && who == from then amount else 0)
              + (if t == token && who == to then amount else 0)
  {
  }

  // ---------------------------------------------------------------------------------------------
  // Steps
  // ---------------------------------------------------------------------------------------------

  /** What the contract holds of a token beyond what it owes in it. */
  ghost function Margin(s: State, token: Address): int {
    Custody(s, token) - Liability(s, token)
  }

  /** Custody and liability of a token move together, but for a windfall and for what is owed in another token. */
  ghost predicate Balanced(s: State, c: Call, t: State, token: Address) {
    && t.self == s.self
    && Margin(t, token) == Margin(s, token) + Windfall(s, c, token) + Relieved(s, c, token)
  }

  lemma DepositBalanced(s: State, from: Address, asset: Symbol, amount: int, token: Address)
    requires from != s.self && PayIn(s, from, asset, amount).Ok?
    ensures Balanced(s, Deposit(from, asset, amount), PayIn(s, from, asset, amount).value, token)
  {
    hide Total, Accounts, Locked, Move;
    AccountsPut(s.balances, s.tokens, (from, asset), At(s.balances, (from, asset)) + amount, token);
    MoveHolding(s.ledger, s.tokens[asset], from, s.self, amount, token, s.self);
  }

  lemma WithdrawBalanced(s: State, to: Address, asset: Symbol, amount: int, token: Address)
    requires to != s.self && PayOut(s, to, asset, amount).Ok?
    ensures Balanced(s, Withdraw(to, asset, amount), PayOut(s, to, asset, amount).value, token)
  {
    hide Total, Accounts, Locked, Move, CheckCap;
    AccountsPut(s.balances, s.tokens, (to, asset), At(s.balances, (to, asset)) - amount, token);
    MoveHolding(s.ledger, s.tokens[asset], s.self, to, amount, token, s.self);
  }

  lemma TransferBalanced(s: State, from: Address, to: Address, asset: Symbol, amount: int, token: Address)
    requires Shift(s, from, to, asset, amount).Ok?
    ensures Balanced(s, Transfer(from, to, asset, amount), Shift(s, from, to, asset, amount).value, token)
  {
    hide Total, Accounts, Locked, CheckCap;
    var debited := At(s.balances, (from, asset)) - amount;
    AccountsPut(s.balances, s.tokens, (from, asset), debited, token);
    AccountsPut(s.balances[(from, asset) := debited], s.tokens, (to, asset), At(s.balances, (to, asset)) + amount,
                token);
  }

  lemma LockParts(s: State, now: u64, depositor: Address, receiver: Address, asset: Symbol, amount: int)
    requires Valid(s) && Lock(s, now, depositor, receiver, asset, amount).Ok?
    ensures var t := Lock(s, now, depositor, receiver, asset, amount).value;
            var id := s.escrowCount + 1;
            && id !in s.escrows && t.self == s.self && t.tokens == s.tokens && t.ledger == s.ledger
            && t.balances == s.balances[(depositor, asset) := At(s.balances, (depositor, asset)) - amount]
            && t.escrows == s.escrows[id := Escrow(asset, depositor, receiver, amount, Active, now, 0)]
  {
    hide CheckCap, At;
    forall id | id in s.escrows
      ensures id <= s.escrowCount
    {
      assert EscrowValid(s, id);
    }
  }

  lemma LockBalanced(s: State, now: u64, depositor: Address, receiver: Address, asset: Symbol, amount: int,
                     token: Address)
    requires Valid(s) && Lock(s, now, depositor, receiver, asset, amount).Ok?
    ensures Balanced(s, CreateEscrow(now, depositor, receiver, asset, amount),
                     Lock(s, now, depositor, receiver, asset, amount).value, token)
  {
    hide Total, Accounts, Locked, Lock, Valid, Apply, At;
    LockParts(s, now, depositor, receiver, asset, amount);
    AccountsPut(s.balances, s.tokens, (depositor, asset), At(s.balances, (depositor, asset)) - amount, token);
    LockedPut(s.escrows, s.tokens, s.escrowCount + 1,
              Escrow(asset, depositor, receiver, amount, Active, now, 0), token);
  }

  lemma SettleBalanced(s: State, now: u64, id: nat, caller: Address, release: bool, token: Address)
    requires SettleEscrow(s, now, id, caller, release).Ok?
    ensures Balanced(s, Settle(now, id, caller, release), SettleEscrow(s, now, id, caller, release).value, token)
  {
    hide Total, Accounts, Locked, Move;
    var e := s.escrows[id];
    LockedPut(s.escrows, s.tokens, id, SettleEscrow(s, now, id, caller, release).value.escrows[id], token);
    MoveHolding(s.ledger, s.tokens[e.asset], s.self, Payee(e, release), e.amount, token, s.self);
  }

  /** Mapping an asset to another token moves what is owed in it from the old token to the new. */
  lemma RemapAccounts(balances: map<(Address, Symbol), int>, tokens: map<Symbol, Address>, asset: Symbol,
                      token: Address)
    requires asset in tokens && tokens[asset] != token
    ensures var owed := Total(AssetAccounts(balances, asset));
            var after := tokens[asset := token];
            && Total(Accounts(balances, tokens, tokens[asset]))
               == Total(Accounts(balances, after, tokens[asset])) + owed
            && Total(Accounts(balances, after, token)) == Total(Accounts(balances, tokens, token)) + owed
  {
    hide Total;
    var after, own := tokens[asset := token], AssetAccounts(balances, asset);
    TotalSplit(Accounts(balances, after, tokens[asset]), own);
    assert Accounts(balances, tokens, tokens[asset]) == Accounts(balances, after, tokens[asset]) + own;
    TotalSplit(Accounts(balances, tokens, token), own);
    assert Accounts(balances, after, token) == Accounts(balances, tokens, token) + own;
  }

  lemma RemapLocked(escrows: map<nat, Escrow>, tokens: map<Symbol, Address>, asset: Symbol, token: Address)
    requires asset in tokens && tokens[asset] != token
    ensures var owed := Total(AssetLocked(escrows, asset));
            var after := tokens[asset := token];
            && Total(Locked(escrows, tokens, tokens[asset])) == Total(Locked(escrows, after, tokens[asset])) + owed
            && Total(Locked(escrows, after, token)) == Total(Locked(escrows, tokens, token)) + owed
  {
    hide Total;
    var after, own := tokens[asset := token], AssetLocked(escrows, asset);
    TotalSplit(Locked(escrows, after, tokens[asset]), own);
    assert Locked(escrows, tokens, tokens[asset]) == Locked(escrows, after, tokens[asset]) + own;
    TotalSplit(Locked(escrows, tokens, token), own);
    assert Locked(escrows, after, token) == Locked(escrows, tokens, token) + own;
  }

  lemma RemapOthers(s: State, asset: Symbol, token: Address, x: Address)
    requires asset in s.tokens && x != token && x != s.tokens[asset]
    ensures Liability(s.(tokens := s.tokens[asset := token]), x) == Liability(s, x)
  {
    hide Total;
    var after := s.tokens[asset := token];
    assert Accounts(s.balances, after, x) == Accounts(s.balances, s.tokens, x);
    assert Locked(s.escrows, after, x) == Locked(s.escrows, s.tokens, x);
  }

  /** A first registration, or a repeated one, changes nothing that is owed. */
  lemma SameLiability(s: State, asset: Symbol, token: Address, other: Address)
    requires Valid(s)
    requires asset in s.tokens ==> s.tokens[asset] == token
    ensures Liability(s.(tokens := s.tokens[asset := token]), other) == Liability(s, other)
  {
    var tokens := s.tokens[asset := token];
    assert Accounts(s.balances, tokens, other) == Accounts(s.balances, s.tokens, other);
    assert forall id :: id in s.escrows ==> EscrowValid(s, id);
    assert Locked(s.escrows, tokens, other) == Locked(s.escrows, s.tokens, other);
  }

  lemma SetTokenBalanced(s: State, caller: Address, asset: Symbol, token: Address, x: Address)
    requires Valid(s) && Apply(s, SetToken(caller, asset, token)).Ok?
    ensures Balanced(s, SetToken(caller, asset, token), Step(s, SetToken(caller, asset, token)), x)
  {
    hide Accounts, Locked, Total, AssetAccounts, AssetLocked;
    if asset !in s.tokens || s.tokens[asset] == token {
      SameLiability(s, asset, token, x);
    } else {
      RemapAccounts(s.balances, s.tokens, asset, token);
      RemapLocked(s.escrows, s.tokens, asset, token);
      if x != token && x != s.tokens[asset] {
        RemapOthers(s, asset, token, x);
      }
    }
  }

  lemma StepBalanced(s: State, c: Call, token: Address)
    requires Valid(s) && OutsideCall(s, c)
    ensures Balanced(s, c, Step(s, c), token)
  {
    hide Total, Accounts, Locked, Owed, PayIn, PayOut, Shift, Lock, SettleEscrow, Move;
    if Apply(s, c).Ok? {
      match c
      case TransferAdmin(caller, admin) =>
      case SetToken(caller, asset, backing) => SetTokenBalanced(s, caller, asset, backing, token);
      case SetGlobalCap(caller, cap) =>
      case SetAssetCap(caller, asset, cap) =>
      case Deposit(from, asset, amount) => DepositBalanced(s, from, asset, amount, token);
      case Withdraw(to, asset, amount) => WithdrawBalanced(s, to, asset, amount, token);
      case Transfer(from, to, asset, amount) => TransferBalanced(s, from, to, asset, amount, token);
      case CreateEscrow(now, depositor, receiver, asset, amount) =>
        LockBalanced(s, now, depositor, receiver, asset, amount, token);
      case Settle(now, id, caller, release) => SettleBalanced(s, now, id, caller, release, token);
      case External(t, from, to, amount) =>
        MoveHolding(s.ledger, t, from, to, amount, token, s.self);
    }
  }

  lemma StepBalances(s: State, c: Call)
    requires BalancesValid(s)
    ensures BalancesValid(Step(s, c))
  {
    hide Move, CheckCap;
  }

  lemma LockEscrows(s: State, now: u64, depositor: Address, receiver: Address, asset: Symbol, amount: int)
    requires Valid(s) && Lock(s, now, depositor, receiver, asset, amount).Ok?
    ensures EscrowsValid(Lock(s, now, depositor, receiver, asset, amount).value)
  {
    hide CheckCap;
    var t := Lock(s, now, depositor, receiver, asset, amount).value;
    forall id | id in t.escrows
      ensures EscrowValid(t, id)
    {
      assert id in s.escrows ==> EscrowValid(s, id);
    }
  }

  lemma StepEscrows(s: State, c: Call)
    requires Valid(s)
    ensures EscrowsValid(Step(s, c))
  {
    hide Move, CheckCap, Lock;
    if c.CreateEscrow? {
      if Apply(s, c).Ok? {
        LockEscrows(s, c.now, c.depositor, c.receiver, c.asset, c.amount);
      }
    } else {
      var t := Step(s, c);
      forall id | id in t.escrows
        ensures EscrowValid(t, id)
      {
        assert id in s.escrows && EscrowValid(s, id);
      }
    }
  }

  lemma StepValid(s: State, c: Call)
    requires Valid(s)
    ensures Valid(Step(s, c))
  {
    hide Step, BalancesValid, EscrowsValid;
    StepBalances(s, c);
    StepEscrows(s, c);
  }

  // ---------------------------------------------------------------------------------------------
  // Runs
  // ---------------------------------------------------------------------------------------------

  /** Every call comes from outside. */
  ghost predicate Orderly(s0: State, calls: seq<Call>) {
    forall k :: 0 <= k < |calls| ==> OutsideCall(Run(s0, calls[..k]), calls[k])
  }

  /** The windfalls of a run, and what the contract held of a token before it. */
  ghost function Surplus(s0: State, calls: seq<Call>, token: Address): int {
    if calls == [] then Custody(s0, token)
    else
      var init := calls[..|calls| - 1];
      Surplus(s0, init, token) + Windfall(Run(s0, init), calls[|calls| - 1], token)
  }

  /** What the registrations of a run moved out of a token, less what they moved into it. */
  ghost function Remapped(s0: State, calls: seq<Call>, token: Address): int {
    if calls == [] then 0
    else
      var init := calls[..|calls| - 1];
      Remapped(s0, init, token) + Relieved(Run(s0, init), calls[|calls| - 1], token)
  }

  lemma OrderlyInit(s0: State, calls: seq<Call>)
    requires calls != [] && Orderly(s0, calls)
    ensures Orderly(s0, calls[..|calls| - 1])
    ensures OutsideCall(Run(s0, calls[..|calls| - 1]), calls[|calls| - 1])
  {
    hide Run, OutsideCall;
    var init := calls[..|calls| - 1];
    assert forall k :: 0 <= k < |init| ==> init[..k] == calls[..k] && init[k] == calls[k];
  }

  /**
   In every run the contract's holding of each token is exactly what it owes in it (all internal balances plus all
   active escrows of the assets mapped to it), plus what it was given without owing it, plus what registrations
   made it owe in other tokens instead; and no internal balance is negative.
   */
  lemma {:induction false} RunSolvent(self: Address, admin: Address, ledger: Ledger, lenient: bool, calls: seq<Call>,
                                      token: Address)
    requires Orderly(Initialized(self, admin, ledger, lenient), calls)
    ensures var s0 := Initialized(self, admin, ledger, lenient);
            var s := Run(s0, calls);
            && Valid(s) && s.self == self
            && Custody(s, token) == Liability(s, token) + Surplus(s0, calls, token) + Remapped(s0, calls, token)
  {
    var s0 := Initialized(self, admin, ledger, lenient);
    if calls == [] {
      assert Accounts(map[], map[], token) == map[] && Locked(map[], map[], token) == map[];
    } else {
      hide Step, Windfall, Relieved, OutsideCall, Custody, Liability;
      var init, last := calls[..|calls| - 1], calls[|calls| - 1];
      OrderlyInit(s0, calls);
      RunSolvent(self, admin, ledger, lenient, init, token);
      StepValid(Run(s0, init), last);
      StepBalanced(Run(s0, init), last, token);
    }
  }

  lemma StepNoLoss(s: State, c: Call, token: Address)
    requires Valid(s)
    ensures Windfall(s, c, token) >= 0
  {
    if c.Settle? && c.id in s.escrows {
      assert EscrowValid(s, c.id);
    }
  }

  /** Wherever a run maps an asset to another token, nothing is owed in the asset. */
  ghost predicate HarmlessRemaps(s0: State, calls: seq<Call>) {
    forall k :: 0 <= k < |calls| && Remaps(Run(s0, calls[..k]), calls[k]) ==>
      Owed(Run(s0, calls[..k]), calls[k].asset) == 0
  }

  lemma {:induction false} NothingRemapped(s0: State, calls: seq<Call>, token: Address)
    requires HarmlessRemaps(s0, calls)
    ensures Remapped(s0, calls, token) == 0
  {
    hide Run, Owed, Remaps;
    if calls != [] {
      var n := |calls| - 1;
      var init := calls[..n];
      assert forall k :: 0 <= k < n ==> init[..k] == calls[..k] && init[k] == calls[k];
      NothingRemapped(s0, init, token);
    }
  }

  lemma {:induction false} NoLoss(self: Address, admin: Address, ledger: Ledger, lenient: bool, calls: seq<Call>,
                                  token: Address)
    ensures Surplus(Initialized(self, admin, ledger, lenient), calls, token) >= At(ledger, (token, self))
  {
    hide Step, Windfall;
    if calls != [] {
      var init := calls[..|calls| - 1];
      NoLoss(self, admin, ledger, lenient, init, token);
      RunValid(self, admin, ledger, lenient, init);
      StepNoLoss(Run(Initialized(self, admin, ledger, lenient), init), calls[|calls| - 1], token);
    }
  }

  /** So, while no asset in which something is owed is mapped to another token, the contract holds at least what it
      owes, plus what it held at the start. */
  lemma RunCovers(self: Address, admin: Address, ledger: Ledger, lenient: bool, calls: seq<Call>, token: Address)
    requires var s0 := Initialized(self, admin, ledger, lenient); Orderly(s0, calls) && HarmlessRemaps(s0, calls)
    ensures var s := Run(Initialized(self, admin, ledger, lenient), calls);
            Custody(s, token) >= Liability(s, token) + At(ledger, (token, self))
  {
    hide Run, Orderly, HarmlessRemaps, Custody, Liability;
    NoLoss(self, admin, ledger, lenient, calls, token);
    NothingRemapped(Initialized(self, admin, ledger, lenient), calls, token);
    RunSolvent(self, admin, ledger, lenient, calls, token);
  }

  /** A registration leaves the margin of every token alone exactly when it is a new one, repeats the old one, or
      nothing is owed in the asset. */
  lemma SetTokenIff(s: State, caller: Address, asset: Symbol, token: Address)
    requires Valid(s) && Apply(s, SetToken(caller, asset, token)).Ok?
    ensures (forall x :: Margin(Step(s, SetToken(caller, asset, token)), x) == Margin(s, x))
            <==> asset !in s.tokens || s.tokens[asset] == token || Owed(s, asset) == 0
  {
    hide Margin, Owed;
    var c := SetToken(caller, asset, token);
    var t := Step(s, c);
    forall x
      ensures Margin(t, x) == Margin(s, x) + Relieved(s, c, x)
    {
      SetTokenBalanced(s, caller, asset, token, x);
      assert Balanced(s, c, t, x);
    }
    if asset in s.tokens {
      var former := s.tokens[asset];
      assert Margin(t, former) == Margin(s, former) + Relieved(s, c, former);
    }
  }

  // ---------------------------------------------------------------------------------------------
  // What solvency gives the user
  // ---------------------------------------------------------------------------------------------

  /** No single entry exceeds the sum. */
  lemma AccountCovered(s: State, who: Address, asset: Symbol)
    requires Valid(s) && asset in s.tokens
    ensures 0 <= At(s.balances, (who, asset)) <= Liability(s, s.tokens[asset])
  {
    hide Total;
    var accounts := Accounts(s.balances, s.tokens, s.tokens[asset]);
    TotalNonNegative(accounts);
    assert forall id :: id in s.escrows ==> EscrowValid(s, id);
    TotalNonNegative(Locked(s.escrows, s.tokens, s.tokens[asset]));
    if (who, asset) in s.balances {
      assert (who, asset) in accounts;
    }
  }

  /**
   In a solvent state a withdrawal is refused only for a reason the caller can see: the amount, the
   cap, the registration, the balance, or a receiver whose own token balance would overflow. The
   contract never lacks the tokens.
   */
  lemma WithdrawIff(s: State, to: Address, asset: Symbol, amount: int)
    requires Valid(s) && to != s.self
    requires asset in s.tokens ==> Custody(s, s.tokens[asset]) >= Liability(s, s.tokens[asset])
    ensures PayOut(s, to, asset, amount).Ok?
            <==> && amount > 0 && CheckCap(s, asset, amount).Ok? && asset in s.tokens
                 && amount <= At(s.balances, (to, asset)) && FitsI128(At(s.balances, (to, asset)) - amount)
                 && FitsI128(At(s.ledger, (s.tokens[asset], to)) + amount)
  {
    hide Liability;
    if asset in s.tokens {
      AccountCovered(s, to, asset);
    }
  }

  /** An amount passes exactly when every cap can be read and it is within those that are set. */
  lemma CapRespected(s: State, asset: Symbol, amount: int)
    ensures CheckCap(s, asset, amount).Ok?
            <==> && ReadCap(s.globalCap, s.lenient).Ok? && ReadCap(AssetCap(s, asset), s.lenient).Ok?
                 && (s.globalCap.Some? && s.globalCap.value.Some? ==> amount <= s.globalCap.value.value)
                 && (asset in s.assetCaps && s.assetCaps[asset].Some? ==> amount <= s.assetCaps[asset].value)
  {
  }

  /** A cap that was set to zero limits nothing if the host reads an entry without a value as none. Otherwise
      nothing passes any more: nobody withdraws, transfers or opens an escrow. */
  lemma ClearedCap(s: State, caller: Address, of: Option<Symbol>, asset: Symbol, amount: int, who: Address, to: Address,
                   now: u64)
    requires SetCap(s, caller, of, 0).Ok? && (of.Some? ==> of.value == asset)
    ensures var t := SetCap(s, caller, of, 0).value;
            if t.lenient then (if of.Some? then s.globalCap else AssetCap(s, asset)).None? ==>
              CheckCap(t, asset, amount).Ok?
            else PayOut(t, who, asset, amount).Err? && Shift(t, who, to, asset, amount).Err?
                 && Lock(t, now, who, to, asset, amount).Err?
  {
    hide Move, Debit, At;
  }

  // ---------------------------------------------------------------------------------------------
  // Escrows
  // ---------------------------------------------------------------------------------------------

  /** What the successful settlements of one escrow paid out in a run. */
  ghost function PaidFor(s0: State, calls: seq<Call>, id: nat): int {
    if calls == [] then 0
    else
      var init, last := calls[..|calls| - 1], calls[|calls| - 1];
      var s := Run(s0, init);
      PaidFor(s0, init, id)
      + if last.Settle? && last.id == id && id in s.escrows && Apply(s, last).Ok? then s.escrows[id].amount else 0
  }

  /** A settlement pays the recorded amount from the contract's own tokens to the party it names. */
  lemma SettlePays(s: State, now: u64, id: nat, caller: Address, release: bool)
    requires SettleEscrow(s, now, id, caller, release).Ok?
    ensures id in s.escrows && s.escrows[id].asset in s.tokens
    ensures var e := s.escrows[id];
            var t := SettleEscrow(s, now, id, caller, release).value;
            var token := s.tokens[e.asset];
            && (caller == e.depositor || caller == e.receiver)
            && t.balances == s.balances
            && var payee := if release then e.receiver else e.depositor;
               && t.escrows == s.escrows[id := e.(status := if release then Released else Refunded, settledAt := now)]
               && (payee != s.self ==>
                     && At(t.ledger, (token, payee)) == At(s.ledger, (token, payee)) + e.amount
                     && Custody(t, token) == Custody(s, token) - e.amount)
  {
  }

  /** No active escrow locks more than the contract owes. */
  lemma EscrowCovered(s: State, id: nat)
    requires Valid(s) && id in s.escrows && s.escrows[id].status == Active
    ensures s.escrows[id].asset in s.tokens
    ensures 0 < s.escrows[id].amount <= Liability(s, s.tokens[s.escrows[id].asset])
  {
    hide Total;
    assert EscrowValid(s, id);
    var token := s.tokens[s.escrows[id].asset];
    var locked := Locked(s.escrows, s.tokens, token);
    assert forall i :: i in s.escrows ==> EscrowValid(s, i);
    assert id in locked;
    TotalNonNegative(locked);
    TotalNonNegative(Accounts(s.balances, s.tokens, token));
  }

  /** Nobody owes more in a token than the contract holds of it. */
  ghost predicate Covers(s: State) {
    forall token :: Custody(s, token) >= Liability(s, token)
  }

  /**
   In a solvent state a settlement succeeds if and only if the escrow is active, the caller one of its parties,
   and the receiving balance of the token does not overflow. The contract never lacks the tokens, and no cap
   counts, however small it was set since the escrow was made.
   */
  lemma SettleIff(s: State, now: u64, id: nat, caller: Address, release: bool)
    requires Valid(s) && Covers(s)
    ensures SettleEscrow(s, now, id, caller, release).Ok?
            <==> && id in s.escrows && s.escrows[id].status == Active && s.escrows[id].asset in s.tokens
                 && (caller == s.escrows[id].depositor || caller == s.escrows[id].receiver)
                 && var e := s.escrows[id];
                    var payee := if release then e.receiver else e.depositor;
                    var held := At(s.ledger, (s.tokens[e.asset], payee));
                    FitsI128(if payee == s.self then held else held + e.amount)
  {
    hide Liability;
    if id in s.escrows && s.escrows[id].status == Active {
      EscrowCovered(s, id);
    }
  }

  /** Setting the caps to anything else changes neither whether a settlement succeeds nor what it does. */
  lemma SettleIgnoresCaps(s: State, now: u64, id: nat, caller: Address, release: bool, global: CapEntry,
                          caps: map<Symbol, Option<int>>)
    ensures SettleEscrow(s.(globalCap := global, assetCaps := caps), now, id, caller, release)
            == SettleEscrow(s, now, id, caller, release).Map((t: State) => t.(globalCap := global, assetCaps := caps))
  {
    hide Move;
  }

  lemma StepEscrow(s: State, c: Call, id: nat)
    requires Valid(s)
    ensures var t := Step(s, c);
            && (id in s.escrows ==>
                  && id in t.escrows && t.escrows[id].amount == s.escrows[id].amount
                  && (s.escrows[id].status != Active ==> t.escrows[id] == s.escrows[id])
                  && (t.escrows[id].status != s.escrows[id].status ==> c.Settle? && c.id == id && Apply(s, c).Ok?))
            && (id !in s.escrows && id in t.escrows ==> t.escrows[id].status == Active)
            && (c.Settle? && c.id == id && Apply(s, c).Ok? ==>
                  id in s.escrows && s.escrows[id].status == Active && t.escrows[id].status != Active)
  {
    assert id in s.escrows ==> EscrowValid(s, id);
    OthersKeepEscrows(s, c);
    hide Move, CheckCap, PayIn, PayOut, Shift, SetCap, Debit;
  }

  lemma OthersKeepEscrows(s: State, c: Call)
    ensures !c.Settle? && !c.CreateEscrow? ==> Step(s, c).escrows == s.escrows
  {
    hide Move, CheckCap, Lock, SettleEscrow, Debit;
  }

  lemma {:induction false} RunValid(self: Address, admin: Address, ledger: Ledger, lenient: bool, calls: seq<Call>)
    ensures Valid(Run(Initialized(self, admin, ledger, lenient), calls))
  {
    hide Step;
    if calls != [] {
      RunValid(self, admin, ledger, lenient, calls[..|calls| - 1]);
      StepValid(Run(Initialized(self, admin, ledger, lenient), calls[..|calls| - 1]), calls[|calls| - 1]);
    }
  }

  /** Each escrow pays exactly once, its recorded amount, exactly when it leaves Active; never before. */
  lemma {:induction false} EscrowPaysOnce(self: Address, admin: Address, ledger: Ledger, lenient: bool,
                                          calls: seq<Call>, id: nat)
    ensures var s0 := Initialized(self, admin, ledger, lenient);
            var s := Run(s0, calls);
            PaidFor(s0, calls, id)
            == if id in s.escrows && s.escrows[id].status != Active then s.escrows[id].amount else 0
  {
    hide Step, Apply;
    var s0 := Initialized(self, admin, ledger, lenient);
    if calls != [] {
      var init := calls[..|calls| - 1];
      EscrowPaysOnce(self, admin, ledger, lenient, init, id);
      RunValid(self, admin, ledger, lenient, init);
      StepEscrow(Run(s0, init), calls[|calls| - 1], id);
    }
  }
}
