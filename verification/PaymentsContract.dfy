/** The payments contract's stored entries, and the calls it makes on the token contracts. */
module PaymentsContract {
  import opened Wrappers
  import opened Checked
  import opened Host
  import opened Sums
  import opened Payments

  class PaymentsContract {
    const self: Address
    const lenient: bool
    var admin: Address
    var tokens: map<Symbol, Address>
    var balances: map<(Address, Symbol), int>
    var globalCap: CapEntry
    var assetCaps: map<Symbol, Option<int>>
    var escrows: map<nat, Escrow>
    var escrowCount: nat
    /** The token contracts, as far as this contract sees them. */
    var ledger: Ledger

    function View(): State
      reads this
    {
      State(self, admin, tokens, balances, globalCap, assetCaps, escrows, escrowCount, ledger, lenient)
    }

    constructor (self: Address, admin: Address, ledger: Ledger, lenient: bool)
      ensures View() == Initialized(self, admin, ledger, lenient)
    {
      this.self, this.admin, this.ledger, this.lenient := self, admin, ledger, lenient;
      tokens, balances, globalCap, assetCaps := map[], map[], None, map[];
      escrows, escrowCount := map[], 0;
    }

    method SetToken(caller: Address, asset: Symbol, token: Address) returns (r: Result<(), Error>)
      modifies this`tokens
      ensures r == Apply(old(View()), Call.SetToken(caller, asset, token)).Map((_: State) => ())
      ensures View() == Step(old(View()), Call.SetToken(caller, asset, token))
    {
      if caller != admin {
        return Err(Unauthorized);
      }
      tokens := tokens[asset := token];
      return Ok(());
    }

    method SetGlobalCap(caller: Address, cap: int) returns (r: Result<(), Error>)
      modifies this`globalCap
      ensures r == Apply(old(View()), Call.SetGlobalCap(caller, cap)).Map((_: State) => ())
      ensures View() == Step(old(View()), Call.SetGlobalCap(caller, cap))
    {
      if caller != admin {
        return Err(Unauthorized);
      }
      if cap < 0 {
        return Err(InvalidAmount);
      }
      var capOpt := if cap == 0 then None else Some(cap);
      globalCap := Some(capOpt);
      return Ok(());
    }

    method SetAssetCap(caller: Address, asset: Symbol, cap: int) returns (r: Result<(), Error>)
      modifies this`assetCaps
      ensures r == Apply(old(View()), Call.SetAssetCap(caller, asset, cap)).Map((_: State) => ())
      ensures View() == Step(old(View()), Call.SetAssetCap(caller, asset, cap))
    {
      if caller != admin {
        return Err(Unauthorized);
      }
      if cap < 0 {
        return Err(InvalidAmount);
      }
      var capOpt := if cap == 0 then None else Some(cap);
      assetCaps := assetCaps[asset := capOpt];
      return Ok(());
    }

    /** Call a token contract; a trap there fails the whole call here. */
    method MoveTokens(token: Address, from: Address, to: Address, amount: int) returns (r: Result<(), Error>)
      modifies this`ledger
      ensures r == Move(old(ledger), token, from, to, amount).Map((_: Ledger) => ())
      ensures ledger == if r.Ok? then Move(old(ledger), token, from, to, amount).value else old(ledger)
    {
      var moved :- Move(ledger, token, from, to, amount);
      ledger := moved;
      return Ok(());
    }

    method Deposit(from: Address, asset: Symbol, amount: int) returns (r: Result<(), Error>)
      modifies this`balances, this`ledger
      ensures r == Apply(old(View()), Call.Deposit(from, asset, amount)).Map((_: State) => ())
      ensures View() == Step(old(View()), Call.Deposit(from, asset, amount))
    {
      hide Move;
      if amount <= 0 {
        return Err(InvalidAmount);
      }
      if asset !in tokens {
        return Err(TokenNotRegistered);
      }
      var balance :- CheckedAdd(At(balances, (from, asset)), amount, ArithmeticOverflow);
      var _ :- MoveTokens(tokens[asset], from, self, amount);
      balances := balances[(from, asset) := balance];
      return Ok(());
    }

    method Withdraw(to: Address, asset: Symbol, amount: int) returns (r: Result<(), Error>)
      modifies this`balances, this`ledger
      ensures r == Apply(old(View()), Call.Withdraw(to, asset, amount)).Map((_: State) => ())
      ensures View() == Step(old(View()), Call.Withdraw(to, asset, amount))
    {
      hide Move;
      if amount <= 0 {
        return Err(InvalidAmount);
      }
      var _ :- CheckCap(View(), asset, amount);
      if asset !in tokens {
        return Err(TokenNotRegistered);
      }
      var balance :- Debit(At(balances, (to, asset)), amount);
      var _ :- MoveTokens(tokens[asset], self, to, amount);
      balances := balances[(to, asset) := balance];
      return Ok(());
    }

    method Transfer(from: Address, to: Address, asset: Symbol, amount: int) returns (r: Result<(), Error>)
      modifies this`balances
      ensures r == Apply(old(View()), Call.Transfer(from, to, asset, amount)).Map((_: State) => ())
      ensures View() == Step(old(View()), Call.Transfer(from, to, asset, amount))
    {
      if amount <= 0 {
        return Err(InvalidAmount);
      }
      if from == to {
        return Err(InvalidAmount);
      }
      var _ :- CheckCap(View(), asset, amount);
      var debited :- Debit(At(balances, (from, asset)), amount);
      var credited :- CheckedAdd(At(balances, (to, asset)), amount, ArithmeticOverflow);
      balances := balances[(from, asset) := debited];
      balances := balances[(to, asset) := credited];
      return Ok(());
    }

    method CreateEscrow(now: u64, depositor: Address, receiver: Address, asset: Symbol, amount: int)
      returns (r: Result<nat, Error>)
      modifies this`balances, this`escrows, this`escrowCount
      ensures r == Apply(old(View()), Call.CreateEscrow(now, depositor, receiver, asset, amount))
                   .Map((t: State) => t.escrowCount)
      ensures View() == Step(old(View()), Call.CreateEscrow(now, depositor, receiver, asset, amount))
    {
      if amount <= 0 {
        return Err(InvalidAmount);
      }
      if depositor == receiver {
        return Err(InvalidAmount);
      }
      var _ :- CheckCap(View(), asset, amount);
      var debited :- Debit(At(balances, (depositor, asset)), amount);
      if escrowCount >= U64_MAX {
        return Err(ArithmeticOverflow);
      }
      balances := balances[(depositor, asset) := debited];
      escrowCount := escrowCount + 1;
      escrows := escrows[escrowCount := Escrow(asset, depositor, receiver, amount, Active, now, 0)];
      return Ok(escrowCount);
    }

    /** Release to the receiver or refund to the depositor; either party may call. */
    method SettleEscrow(now: u64, id: nat, caller: Address, release: bool) returns (r: Result<(), Error>)
      modifies this`escrows, this`ledger
      ensures r == Apply(old(View()), Settle(now, id, caller, release)).Map((_: State) => ())
      ensures View() == Step(old(View()), Settle(now, id, caller, release))
    {
      hide Move;
      if id !in escrows {
        return Err(EscrowNotFound);
      }
      var record := escrows[id];
      if record.status != Active {
        return Err(EscrowNotActive);
      }
      if caller != record.depositor && caller != record.receiver {
        return Err(NotEscrowParty);
      }
      if record.asset !in tokens {
        return Err(TokenNotRegistered);
      }
      var to := if release then record.receiver else record.depositor;
      var _ :- MoveTokens(tokens[record.asset], self, to, record.amount);
      record := record.(status := if release then Released else Refunded, settledAt := now);
      escrows := escrows[id := record];
      return Ok(());
    }
  }
}
