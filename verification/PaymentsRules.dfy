/** When each call on the payments contract succeeds, and whose balances it moves, in the stored fields. */
module PaymentsRules {
  import opened Wrappers
  import opened Checked
  import opened Host
  import opened Sums
  import opened Payments
  import opened PaymentsLaws

  // ---------------------------------------------------------------------------------------------
  // Internal balances
  // ---------------------------------------------------------------------------------------------

  /** The caps that are set allow an amount, and both can be read. */
  predicate CapsAllow(s: State, asset: Symbol, amount: int) {
    && (s.globalCap.Some? ==> if s.globalCap.value.Some? then amount <= s.globalCap.value.value else s.lenient)
    && (asset in s.assetCaps ==> if s.assetCaps[asset].Some? then amount <= s.assetCaps[asset].value else s.lenient)
  }

  lemma CapsMean(s: State, asset: Symbol, amount: int)
    ensures CheckCap(s, asset, amount).Ok? <==> CapsAllow(s, asset, amount)
  {
  }

  /** A transfer succeeds if and only if it is of a positive amount to someone else, within the caps, and covered by the
      sender's own balance, and the receiver's new one fits. It moves the amount from the sender to the receiver. */
  lemma TransferIff(s: State, from: Address, to: Address, asset: Symbol, amount: int)
    requires Valid(s)
    ensures var r, before := Apply(s, Transfer(from, to, asset, amount)), s.balances;
            && (r.Ok? <==> && amount > 0 && from != to && CapsAllow(s, asset, amount)
                           && amount <= At(before, (from, asset)) && FitsI128(At(before, (from, asset)) - amount)
                           && FitsI128(At(before, (to, asset)) + amount))
            && (r.Ok? ==> r.value == s.(balances := before[(from, asset) := At(before, (from, asset)) - amount]
                                                          [(to, asset) := At(before, (to, asset)) + amount]))
  {
    hide Valid, CheckCap, CapsAllow;
    CapsMean(s, asset, amount);
  }

  /** A deposit succeeds if and only if it is of a positive amount in a registered asset, the sender has the tokens,
      and both credits fit. It moves the tokens to the contract and credits the sender. */
  lemma DepositIff(s: State, from: Address, asset: Symbol, amount: int)
    requires from != s.self
    ensures var r, token := Apply(s, Deposit(from, asset, amount)), if asset in s.tokens then s.tokens[asset] else "";
            && (r.Ok? <==> && amount > 0 && asset in s.tokens && FitsI128(At(s.balances, (from, asset)) + amount)
                           && amount <= At(s.ledger, (token, from))
                           && FitsI128(At(s.ledger, (token, s.self)) + amount))
            && (r.Ok? ==>
                  && r.value == s.(balances := s.balances[(from, asset) := At(s.balances, (from, asset)) + amount],
                                   ledger := r.value.ledger)
                  && At(r.value.ledger, (token, from)) == At(s.ledger, (token, from)) - amount
                  && At(r.value.ledger, (token, s.self)) == At(s.ledger, (token, s.self)) + amount
                  && forall k :: k != (token, from) && k != (token, s.self) ==>
                       At(r.value.ledger, k) == At(s.ledger, k))
  {
  }

  /** A withdrawal debits its receiver's own balance and pays that amount of the asset's token to the same receiver. */
  lemma WithdrawMeans(s: State, to: Address, asset: Symbol, amount: int)
    requires to != s.self && Apply(s, Withdraw(to, asset, amount)).Ok?
    ensures 0 < amount <= At(s.balances, (to, asset)) && CapsAllow(s, asset, amount) && asset in s.tokens
    ensures var t, token := Apply(s, Withdraw(to, asset, amount)).value, s.tokens[asset];
            && t == s.(balances := s.balances[(to, asset) := At(s.balances, (to, asset)) - amount], ledger := t.ledger)
            && At(t.ledger, (token, to)) == At(s.ledger, (token, to)) + amount
            && At(t.ledger, (token, s.self)) == At(s.ledger, (token, s.self)) - amount
            && forall k :: k != (token, to) && k != (token, s.self) ==> At(t.ledger, k) == At(s.ledger, k)
  {
    hide CheckCap, CapsAllow;
    CapsMean(s, asset, amount);
  }

  /** An escrow is opened if and only if it is of a positive amount for someone else, within the caps, and covered by
      the depositor's own balance. It moves the amount from that balance into a new active escrow. */
  lemma CreateEscrowIff(s: State, now: u64, depositor: Address, receiver: Address, asset: Symbol, amount: int)
    ensures var r := Apply(s, CreateEscrow(now, depositor, receiver, asset, amount));
            && (r.Ok? <==> && amount > 0 && depositor != receiver && CapsAllow(s, asset, amount)
                           && amount <= At(s.balances, (depositor, asset))
                           && FitsI128(At(s.balances, (depositor, asset)) - amount) && s.escrowCount < U64_MAX)
            && (r.Ok? ==>
                  r.value == s.(
                    balances := s.balances[(depositor, asset) := At(s.balances, (depositor, asset)) - amount],
                    escrows := s.escrows[s.escrowCount + 1
                                 := Escrow(asset, depositor, receiver, amount, Active, now, 0)],
                    escrowCount := s.escrowCount + 1))
  {
    hide CheckCap, CapsAllow;
    CapsMean(s, asset, amount);
  }

  /** The party that signs a call on its own balance. */
  function Signer(c: Call): Option<Address> {
    match c
    case Deposit(from, _, _) => Some(from)
    case Withdraw(to, _, _) => Some(to)
    case Transfer(from, _, _, _) => Some(from)
    case CreateEscrow(_, depositor, _, _, _) => Some(depositor)
    case _ => None
  }

  /** What a completed call adds to one internal balance. */
  function Credited(c: Call, key: (Address, Symbol)): int {
    match c
    case Deposit(from, asset, amount) => if key == (from, asset) then amount else 0
    case Withdraw(to, asset, amount) => if key == (to, asset) then -amount else 0
    case Transfer(from, to, asset, amount) =>
      if key == (from, asset) then -amount else if key == (to, asset) then amount else 0
    case CreateEscrow(_, depositor, _, asset, amount) => if key == (depositor, asset) then -amount else 0
    case _ => 0
  }

  /** Each call moves exactly these balances, so that it lowers none but the signer's own, in the asset it names. */
  lemma StepMoves(s: State, c: Call, key: (Address, Symbol))
    ensures var before, after := At(s.balances, key), At(Step(s, c).balances, key);
            && after == before + (if Apply(s, c).Ok? then Credited(c, key) else 0)
            && (after < before ==> Signer(c) == Some(key.0))
  {
    hide Move, CheckCap, SetCap, SettleEscrow, Shift;
    if c.Transfer? {
      TransferMoves(s, c, key);
    } else if c.Settle? || c.SetGlobalCap? || c.SetAssetCap? {
      KeepsBalances(s, c);
    }
  }

  lemma TransferMoves(s: State, c: Call, key: (Address, Symbol))
    requires c.Transfer?
    ensures Apply(s, c).Ok? ==>
              c.amount > 0 && At(Step(s, c).balances, key) == At(s.balances, key) + Credited(c, key)
  {
    hide CheckCap, Move;
  }

  lemma KeepsBalances(s: State, c: Call)
    requires c.Settle? || c.SetGlobalCap? || c.SetAssetCap?
    ensures Step(s, c).balances == s.balances
  {
    hide Move;
  }

  // ---------------------------------------------------------------------------------------------
  // Administration
  // ---------------------------------------------------------------------------------------------

  /** Only the administrator hands its role on, registers tokens and sets caps, none of them negative. */
  lemma AdministerIff(s: State, c: Call)
    requires c.TransferAdmin? || c.SetToken? || c.SetGlobalCap? || c.SetAssetCap?
    ensures Apply(s, c).Ok? <==>
              c.caller == s.admin && (c.SetGlobalCap? || c.SetAssetCap? ==> c.cap >= 0)
    ensures Apply(s, c).Ok? ==>
              Step(s, c) == if c.TransferAdmin? then s.(admin := c.admin)
                            else if c.SetToken? then s.(tokens := s.tokens[c.asset := c.token])
                            else
                              var entry := if c.cap == 0 then None else Some(c.cap);
                              if c.SetGlobalCap? then s.(globalCap := Some(entry))
                              else s.(assetCaps := s.assetCaps[c.asset := entry])
  {
  }
}
