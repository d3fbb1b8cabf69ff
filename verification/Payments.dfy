/**
 Payments custody: an internal ledger of balances and two-party escrows, backed by tokens that the
 contract holds in external token contracts.
 */
module Payments {
  import opened Wrappers
  import opened Checked
  import opened Host
  import opened Sums

  datatype Error =
    | Unauthorized | InvalidAmount | TokenNotRegistered | CapExceeded | InsufficientBalance
    | ArithmeticOverflow | EscrowNotFound | EscrowNotActive | NotEscrowParty
    | TokenRefused  // the token contract traps
    | Unreadable  // the host traps on an entry that holds no value

  datatype EscrowStatus = Active | Released | Refunded

  datatype Escrow = Escrow(
    asset: Symbol,
    depositor: Address,
    receiver: Address,
    amount: int,
    status: EscrowStatus,
    createdAt: u64,
    settledAt: u64)

  /** Balances in the token contracts, by token and holder. */
  type Ledger = map<(Address, Address), int>

  /** An entry that was never written, that holds no cap, or that holds one. */
  type CapEntry = Option<Option<int>>

  /**
   `self` is the contract's own address; `ledger` is the state of the token contracts; `lenient` says whether the
   host reads an entry that holds no value as one that is not there, or traps.
   */
  datatype State = State(
    self: Address,
    admin: Address,
    tokens: map<Symbol, Address>,
    balances: map<(Address, Symbol), int>,
    globalCap: CapEntry,
    assetCaps: map<Symbol, Option<int>>,
    escrows: map<nat, Escrow>,
    escrowCount: nat,
    ledger: Ledger,
    lenient: bool)

  function Initialized(self: Address, admin: Address, ledger: Ledger, lenient: bool): State {
    State(self, admin, map[], map[], None, map[], map[], 0, ledger, lenient)
  }

  datatype Call =
    | TransferAdmin(caller: Address, admin: Address)
    | SetToken(caller: Address, asset: Symbol, token: Address)
    | SetGlobalCap(caller: Address, cap: int)
    | SetAssetCap(caller: Address, asset: Symbol, cap: int)
    | Deposit(from: Address, asset: Symbol, amount: int)
    | Withdraw(to: Address, asset: Symbol, amount: int)
    | Transfer(from: Address, to: Address, asset: Symbol, amount: int)
    | CreateEscrow(now: u64, depositor: Address, receiver: Address, asset: Symbol, amount: int)
    | Settle(now: u64, id: nat, caller: Address, release: bool)
    | External(token: Address, from: Address, to: Address, amount: int)  // a token transfer by anyone else

  // ---------------------------------------------------------------------------------------------
  // Tokens and caps
  // ---------------------------------------------------------------------------------------------

  /** A transfer in a token contract. */
  function Move(ledger: Ledger, token: Address, from: Address, to: Address, amount: int): Result<Ledger, Error> {
    if amount < 0 || At(ledger, (token, from)) < amount then Err(TokenRefused)
    else
      var debited := ledger[(token, from) := At(ledger, (token, from)) - amount];
      var credit :- CheckedAdd(At(debited, (token, to)), amount, TokenRefused);
      Ok(debited[(token, to) := credit])
  }

  function TokenOf(s: State, asset: Symbol): Result<Address, Error> {
    if asset in s.tokens then Ok(s.tokens[asset]) else Err(TokenNotRegistered)
  }

  /** The cap an entry is read as. */
  function ReadCap(entry: CapEntry, lenient: bool): Result<Option<int>, Error> {
    match entry
    case None => Ok(None)
    case Some(Some(cap)) => Ok(Some(cap))
    case Some(None) => if lenient then Ok(None) else Err(Unreadable)
  }

  function AssetCap(s: State, asset: Symbol): CapEntry {
    if asset in s.assetCaps then Some(s.assetCaps[asset]) else None
  }

  /** The smaller of the caps that are set; none means unlimited. */
  function EffectiveCap(s: State, asset: Symbol): Result<Option<int>, Error> {
    var global :- ReadCap(s.globalCap, s.lenient);
    var perAsset :- ReadCap(AssetCap(s, asset), s.lenient);
    match (global, perAsset)
    case (Some(g), Some(a)) => Ok(Some(Min(g, a)))
    case (Some(g), None) => Ok(Some(g))
    case (None, _) => Ok(perAsset)
  }

  function CheckCap(s: State, asset: Symbol, amount: int): Result<(), Error> {
    var cap :- EffectiveCap(s, asset);
    if cap.Some? && amount > cap.value then Err(CapExceeded) else Ok(())
  }

  /** A balance after a debit, which may not leave it negative. */
  function Debit(balance: int, amount: int): Result<int, Error> {
    var after :- CheckedSub(balance, amount, ArithmeticOverflow);
    if after < 0 then Err(InsufficientBalance) else Ok(after)
  }

  // ---------------------------------------------------------------------------------------------
  // Entry points
  // ---------------------------------------------------------------------------------------------

  /** A cap of zero means that there is none. */
  function CapValue(cap: int): Option<int> {
    if cap == 0 then None else Some(cap)
  }

  function SetCap(s: State, caller: Address, asset: Option<Symbol>, cap: int): Result<State, Error> {
    if caller != s.admin then Err(Unauthorized)
    else if cap < 0 then Err(InvalidAmount)
    else
      match asset
      case None => Ok(s.(globalCap := Some(CapValue(cap))))
      case Some(a) => Ok(s.(assetCaps := s.assetCaps[a := CapValue(cap)]))
  }

  function PayIn(s: State, from: Address, asset: Symbol, amount: int): Result<State, Error> {
    if amount <= 0 then Err(InvalidAmount)
    else
      var token :- TokenOf(s, asset);
      var balance :- CheckedAdd(At(s.balances, (from, asset)), amount, ArithmeticOverflow);
      var ledger :- Move(s.ledger, token, from, s.self, amount);
      Ok(s.(balances := s.balances[(from, asset) := balance], ledger := ledger))
  }

  function PayOut(s: State, to: Address, asset: Symbol, amount: int): Result<State, Error> {
    if amount <= 0 then Err(InvalidAmount)
    else
      var _ :- CheckCap(s, asset, amount);
      var token :- TokenOf(s, asset);
      var balance :- Debit(At(s.balances, (to, asset)), amount);
      var ledger :- Move(s.ledger, token, s.self, to, amount);
      Ok(s.(balances := s.balances[(to, asset) := balance], ledger := ledger))
  }

  function Shift(s: State, from: Address, to: Address, asset: Symbol, amount: int): Result<State, Error> {
    if amount <= 0 || from == to then Err(InvalidAmount)
    else
      var _ :- CheckCap(s, asset, amount);
      var debited :- Debit(At(s.balances, (from, asset)), amount);
      var credited :- CheckedAdd(At(s.balances, (to, asset)), amount, ArithmeticOverflow);
      Ok(s.(balances := s.balances[(from, asset) := debited][(to, asset) := credited]))
  }

  function Lock(s: State, now: u64, depositor: Address, receiver: Address, asset: Symbol, amount: int)
    : Result<State, Error>
  {
    if amount <= 0 || depositor == receiver then Err(InvalidAmount)
    else
      var _ :- CheckCap(s, asset, amount);
      var debited :- Debit(At(s.balances, (depositor, asset)), amount);
      if s.escrowCount >= U64_MAX then Err(ArithmeticOverflow)
      else
        var id := s.escrowCount + 1;
        var e := Escrow(asset, depositor, receiver, amount, Active, now, 0);
        Ok(s.(balances := s.balances[(depositor, asset) := debited], escrows := s.escrows[id := e], escrowCount := id))
  }

  /** The party an escrow pays. */
  function Payee(e: Escrow, release: bool): Address {
    if release then e.receiver else e.depositor
  }

  function SettleEscrow(s: State, now: u64, id: nat, caller: Address, release: bool): Result<State, Error> {
    if id !in s.escrows then Err(EscrowNotFound)
    else
      var e := s.escrows[id];
      if e.status != Active then Err(EscrowNotActive)
      else if caller != e.depositor && caller != e.receiver then Err(NotEscrowParty)
      else
        var token :- TokenOf(s, e.asset);
        var ledger :- Move(s.ledger, token, s.self, Payee(e, release), e.amount);
        var settled := e.(status := if release then Released else Refunded, settledAt := now);
        Ok(s.(escrows := s.escrows[id := settled], ledger := ledger))
  }

  function Apply(s: State, c: Call): Result<State, Error> {
    match c
    case TransferAdmin(caller, admin) => if caller != s.admin then Err(Unauthorized) else Ok(s.(admin := admin))
    case SetToken(caller, asset, token) =>
      if caller != s.admin then Err(Unauthorized) else Ok(s.(tokens := s.tokens[asset := token]))
    case SetGlobalCap(caller, cap) => SetCap(s, caller, None, cap)
    case SetAssetCap(caller, asset, cap) => SetCap(s, caller, Some(asset), cap)
    case Deposit(from, asset, amount) => PayIn(s, from, asset, amount)
    case Withdraw(to, asset, amount) => PayOut(s, to, asset, amount)
    case Transfer(from, to, asset, amount) => Shift(s, from, to, asset, amount)
    case CreateEscrow(now, depositor, receiver, asset, amount) => Lock(s, now, depositor, receiver, asset, amount)
    case Settle(now, id, caller, release) => SettleEscrow(s, now, id, caller, release)
    case External(token, from, to, amount) =>
      var ledger :- Move(s.ledger, token, from, to, amount);
      Ok(s.(ledger := ledger))
  }

  function Step(s: State, c: Call): State {
    match Apply(s, c)
    case Ok(t) => t
    case Err(_) => s
  }

  function Run(s: State, calls: seq<Call>): State {
    if calls == [] then s else Step(Run(s, calls[..|calls| - 1]), calls[|calls| - 1])
  }
}
