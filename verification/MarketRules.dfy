/** What each call of a market asks of its caller, and whose balances it moves. */
module MarketRules {
  import CpmmLaws
  import opened Wrappers
  import opened Checked
  import opened Host
  import opened Cpmm
  import opened Sums
  import opened Market
  import opened MarketLaws

  // ---------------------------------------------------------------------------------------------
  // Swaps
  // ---------------------------------------------------------------------------------------------

  /** The rounded-down fee on an amount. */
  predicate IsFee(fee: int, amount: int, feeBps: int) {
    fee * BPS_DENOM <= amount * feeBps < (fee + 1) * BPS_DENOM
  }

  lemma FeeRounds(amount: int, feeBps: int)
    requires amount >= 0 && feeBps >= 0 && Fee(amount, feeBps).Ok?
    ensures IsFee(Fee(amount, feeBps).value, amount, feeBps)
  {
    assert amount * feeBps >= 0;
    FloorBracket(amount * feeBps, BPS_DENOM);
  }

  /** An amount in basis points of the collateral, rounded down. */
  predicate IsImpact(impact: int, amount: int, collateral: int) {
    if collateral == 0 then impact == 0
    else impact * collateral <= amount * BPS_DENOM < (impact + 1) * collateral
  }

  lemma ImpactRounds(amount: int, collateral: int)
    requires amount >= 0 && collateral >= 0 && PriceImpact(amount, collateral).Ok?
    ensures IsImpact(PriceImpact(amount, collateral).value, amount, collateral)
  {
    if collateral > 0 {
      FloorBracket(amount * BPS_DENOM, collateral);
    }
  }

  /** A completed buy yields at least the bound, and something, and charges the fee on all of the payment. */
  lemma BuyTerms(p: Pool, i: nat, amount: int, feeBps: int, minOut: int)
    requires feeBps >= 0 && Cpmm.Buy(p, i, amount, feeBps, minOut).Ok?
    ensures var r := Cpmm.Buy(p, i, amount, feeBps, minOut).value;
            && amount > 0 && r.swap.outcomeAmount >= minOut && r.swap.outcomeAmount > 0
            && r.swap.collateralAmount == amount && IsFee(r.swap.fee, amount, feeBps)
            && r.pool.fees == p.fees + r.swap.fee && r.pool.collateral == p.collateral + amount - r.swap.fee
            && r.pool.volume == p.volume + amount
            && (Valid(p) && feeBps <= BPS_DENOM ==>
                  IsImpact(r.swap.priceImpactBps, amount - r.swap.fee, p.collateral))
  {
    hide Fee, AllK, IsFee, PriceImpact, IsImpact;
    FeeRounds(amount, feeBps);
    var fee := Fee(amount, feeBps).value;
    if Valid(p) && feeBps <= BPS_DENOM {
      CpmmLaws.FeeInRange(amount, feeBps);
      ImpactRounds(amount - fee, p.collateral);
    }
  }

  /** A completed sale pays at least the bound, and something, after the fee on all that leaves the reserve. */
  lemma SellTerms(p: Pool, i: nat, tokens: int, feeBps: int, minCollateral: int)
    requires Valid(p) && 0 <= feeBps && Cpmm.Sell(p, i, tokens, feeBps, minCollateral).Ok?
    ensures var r := Cpmm.Sell(p, i, tokens, feeBps, minCollateral).value;
            && tokens > 0 && r.swap.collateralAmount >= minCollateral && r.swap.collateralAmount > 0
            && r.swap.outcomeAmount == tokens
            && IsFee(r.swap.fee, r.swap.collateralAmount + r.swap.fee, feeBps)
            && r.pool.fees == p.fees + r.swap.fee
            && r.pool.collateral == p.collateral - r.swap.collateralAmount - r.swap.fee
            && r.pool.volume == p.volume + tokens
            && IsImpact(r.swap.priceImpactBps, r.swap.collateralAmount + r.swap.fee, p.collateral)
  {
    CpmmLaws.RequoteK(p.ks[i], p.collateral, p.reserves[i], p.reserves[i] + tokens);
    hide Fee, AllK, IsFee, TruncDiv, PriceImpact, IsImpact;
    FeeRounds(p.collateral - TruncDiv(p.ks[i], p.reserves[i] + tokens), feeBps);
    ImpactRounds(p.collateral - TruncDiv(p.ks[i], p.reserves[i] + tokens), p.collateral);
  }

  /** A deposit into a pool in use mints its share of the supply, rounded down, and takes the rounded-down share of
      every reserve. */
  lemma DepositTerms(p: Pool, amount: int, amounts: seq<int>)
    requires Valid(p) && 0 < p.lpSupply && 0 < p.collateral && Cpmm.AddLiquidity(p, amount, amounts).Ok?
    ensures var r := Cpmm.AddLiquidity(p, amount, amounts).value;
            && r.lp.lpTokensMinted * p.collateral <= amount * p.lpSupply < (r.lp.lpTokensMinted + 1) * p.collateral
            && |r.lp.outcomeDeposits| == |p.reserves|
            && forall i :: 0 <= i < |p.reserves| ==>
                 r.lp.outcomeDeposits[i] * p.collateral <= p.reserves[i] * amount
                 < (r.lp.outcomeDeposits[i] + 1) * p.collateral
  {
    CpmmLaws.AddParts(p, amount, amounts);
    hide Cpmm.AddLiquidity;
    Rounds(amount, p.lpSupply, p.collateral);
    forall i | 0 <= i < |p.reserves|
      ensures var d := TruncDiv(p.reserves[i] * amount, p.collateral);
              d * p.collateral <= p.reserves[i] * amount < (d + 1) * p.collateral
    {
      Rounds(p.reserves[i], amount, p.collateral);
    }
  }

  lemma Rounds(x: int, y: int, c: int)
    requires 0 <= x && 0 <= y && 0 < c
    ensures var d := TruncDiv(x * y, c);
            d * c <= x * y < (d + 1) * c
  {
    assert x * y >= 0;
    FloorBracket(x * y, c);
  }

  // ---------------------------------------------------------------------------------------------
  // Buying and selling
  // ---------------------------------------------------------------------------------------------

  /** The market takes trades: it is active and its trading time is not over. */
  predicate Open(s: State, now: u64) {
    s.market.Some? && s.market.value.status == Active && now < s.market.value.tradingEnd
  }

  /**
   A completed sale was made in an open market by someone who held the tokens. It lowers that one entry by the
   tokens sold, and touches no other balance of outcome or LP tokens.
   */
  lemma SaleMeans(s: State, c: Call)
    requires c.SellOutcome? && Apply(s, c).Ok?
    ensures var d, key := Apply(s, c).value, (c.seller, c.outcome);
            && Open(s, c.now) && c.outcome < s.market.value.outcomes && s.pool.Some?
            && 0 < c.tokens <= At(s.outcomeBalances, key)
            && d.state.outcomeBalances == s.outcomeBalances[key := At(s.outcomeBalances, key) - c.tokens]
            && d.state.lpBalances == s.lpBalances && d.state.lpTotalSupply == s.lpTotalSupply
            && d.state.market == s.market && d.report.Traded? && !d.report.buy
            && d.report.swap.outcomeAmount == c.tokens && d.report.swap.collateralAmount >= Max(1, c.minCollateral)
            && d.state.tradingVolume == s.tradingVolume + d.report.swap.collateralAmount
            && (Valid(s.pool.value) && s.market.value.feeBps >= 0 ==>
                  IsFee(d.report.swap.fee, d.report.swap.collateralAmount + d.report.swap.fee, s.market.value.feeBps))
  {
    hide Fee, AllK, PriceImpact, TruncDiv, IsFee, Valid;
    if Valid(s.pool.value) && s.market.value.feeBps >= 0 {
      SellTerms(s.pool.value, c.outcome, c.tokens, s.market.value.feeBps, c.minCollateral);
    }
  }

  /** In an open market a sale fails for want of tokens exactly when the seller holds fewer of that outcome. */
  lemma SaleRefusedIff(s: State, c: Call)
    requires c.SellOutcome? && Open(s, c.now) && c.outcome < s.market.value.outcomes
    ensures Answer(s, c) == Err(InsufficientBalance) <==> At(s.outcomeBalances, (c.seller, c.outcome)) < c.tokens
  {
    hide TruncDiv;
  }

  /** A completed buy raises the buyer's balance of that outcome by the tokens that left the pool, and no other. */
  lemma PurchaseMeans(s: State, c: Call)
    requires c.BuyOutcome? && Apply(s, c).Ok?
    ensures var d, key := Apply(s, c).value, (c.buyer, c.outcome);
            && Open(s, c.now) && c.outcome < s.market.value.outcomes && s.pool.Some? && c.amount > 0
            && d.report.Traded? && d.report.buy && d.report.swap.collateralAmount == c.amount
            && d.report.swap.outcomeAmount >= Max(1, c.minTokens)
            && d.state.outcomeBalances
               == s.outcomeBalances[key := At(s.outcomeBalances, key) + d.report.swap.outcomeAmount]
            && d.state.lpBalances == s.lpBalances && d.state.lpTotalSupply == s.lpTotalSupply
            && d.state.market == s.market && d.state.tradingVolume == s.tradingVolume + c.amount
            && (s.market.value.feeBps >= 0 ==> IsFee(d.report.swap.fee, c.amount, s.market.value.feeBps))
  {
    hide Fee, AllK, PriceImpact, TruncDiv, SumReserves, WithinCap, IsFee;
    if s.market.value.feeBps >= 0 {
      BuyTerms(s.pool.value, c.outcome, c.amount, s.market.value.feeBps, c.minTokens);
    }
  }

  ghost function SumOf(xs: seq<int>): int {
    if xs == [] then 0 else SumOf(xs[..|xs| - 1]) + xs[|xs| - 1]
  }

  lemma {:induction false} ReservesSum(reserves: seq<int>, n: nat)
    requires n <= |reserves| && SumReserves(reserves, n).Ok?
    ensures SumReserves(reserves, n).value == SumOf(reserves[..n])
  {
    if n > 0 {
      ReservesSum(reserves, n - 1);
      assert reserves[..n][..n - 1] == reserves[..n - 1];
    }
  }

  /** And it keeps the reserves and the payment together within the market's cap, if there is one. */
  lemma PurchaseWithinCap(s: State, c: Call)
    requires c.BuyOutcome? && Apply(s, c).Ok?
    ensures s.market.Some? && s.pool.Some?
    ensures s.market.value.maxOutcomeSupply > 0 ==>
              SumOf(s.pool.value.reserves) + c.amount <= s.market.value.maxOutcomeSupply
  {
    hide Cpmm.Buy;
    var reserves := s.pool.value.reserves;
    ReservesSum(reserves, |reserves|);
    assert reserves[..|reserves|] == reserves;
  }

  /** What a call adds to one balance of outcome tokens. */
  function Bought(s: State, c: Call, key: (Address, nat)): int {
    match Apply(s, c)
    case Err(_) => 0
    case Ok(d) =>
      if c.BuyOutcome? && key == (c.buyer, c.outcome) && d.report.Traded? then d.report.swap.outcomeAmount
      else if c.SellOutcome? && key == (c.seller, c.outcome) then -c.tokens
      else 0
  }

  /** Balances of outcome tokens change by the owner's own trades in that outcome, and by nothing else. */
  lemma StepOutcomes(s: State, c: Call, key: (Address, nat))
    ensures At(Step(s, c).state.outcomeBalances, key) == At(s.outcomeBalances, key) + Bought(s, c, key)
    ensures Bought(s, c, key) < 0 ==> c.SellOutcome? && c.seller == key.0 && c.outcome == key.1
    ensures At(s.outcomeBalances, key) >= 0 ==> At(Step(s, c).state.outcomeBalances, key) >= 0
  {
    if Apply(s, c).Ok? {
      if c.BuyOutcome? {
        PurchaseMeans(s, c);
      } else if c.SellOutcome? {
        SaleMeans(s, c);
      } else {
        OthersKeepOutcomes(s, c);
      }
    }
    hide Apply;
  }

  lemma OthersKeepOutcomes(s: State, c: Call)
    requires !c.BuyOutcome? && !c.SellOutcome?
    ensures Step(s, c).state.outcomeBalances == s.outcomeBalances
  {
    hide Cpmm.AddLiquidity, Cpmm.RemoveLiquidity, Cpmm.Create, Cpmm.DistributeFees;
  }

  /** In every run, at any fee rate, nobody's balance of any outcome is ever negative. */
  lemma {:induction false} RunOutcomes(m: MarketInfo, calls: seq<Call>, key: (Address, nat))
    ensures At(Run(Fresh(m), calls).state.outcomeBalances, key) >= 0
  {
    hide Step;
    if calls != [] {
      RunOutcomes(m, calls[..|calls| - 1], key);
      StepOutcomes(Run(Fresh(m), calls[..|calls| - 1]).state, calls[|calls| - 1], key);
    }
  }

  // ---------------------------------------------------------------------------------------------
  // Liquidity
  // ---------------------------------------------------------------------------------------------

  /** LP balances change by the owner's own liquidity calls: a creation credits its seed, a deposit what it mints,
      a withdrawal debits what it burns. */
  lemma StepLp(s: State, c: Call, who: Address)
    ensures var before, after := At(s.lpBalances, who), At(Step(s, c).state.lpBalances, who);
            if Apply(s, c).Ok? && c.CreateLiquidityPool? && c.creator == who then after == before + c.seed
            else if Apply(s, c).Ok? && c.AddLiquidity? && c.provider == who then
              Apply(s, c).value.report.Deposited? && after == before + Apply(s, c).value.report.lp.lpTokensMinted
            else if Apply(s, c).Ok? && c.RemoveLiquidity? && c.provider == who then after == before - c.lp
            else after == before
  {
    hide Cpmm.AddLiquidity, Cpmm.RemoveLiquidity, Cpmm.Create, Cpmm.DistributeFees, Cpmm.Buy, Cpmm.Sell;
    hide SumReserves, WithinCap;
  }

  /** When liquidity calls and the distribution of fees succeed at all. */
  lemma LiquidityNeeds(s: State, c: Call)
    requires Apply(s, c).Ok?
    ensures c.CreateLiquidityPool? ==>
              && s.market.Some? && s.market.value.status == Active && c.seed >= 1000
              && Apply(s, c).value.state.market == Some(s.market.value.(totalCollateral := c.seed))
              && Apply(s, c).value.state.pool.Some?
              && var p := Apply(s, c).value.state.pool.value;
                 && p.collateral == p.lpSupply == c.seed && p.fees == 0 && |p.reserves| == s.market.value.outcomes
                 && forall i :: 0 <= i < |p.reserves| ==> p.reserves[i] == c.seed
    ensures c.AddLiquidity? ==>
              && s.market.Some? && s.market.value.status == Active && s.pool.Some? && c.amount > 0
              && Apply(s, c).value.state.market
                 == Some(s.market.value.(totalCollateral := s.market.value.totalCollateral + c.amount))
    ensures c.RemoveLiquidity? ==> s.pool.Some? && 0 < c.lp <= s.pool.value.lpSupply
    ensures c.ChangeStatus? ==>
              s.market.Some? && Apply(s, c).value.state == s.(market := Some(s.market.value.(status := c.status)))
    ensures c.DistributeFees? ==>
              && c.byAdmin && s.pool.Some? && Apply(s, c).value.state.pool.Some?
              && var p, q := s.pool.value, Apply(s, c).value.state.pool.value;
                 && q.fees == Min(0, p.fees) && q.collateral == p.collateral + Max(0, p.fees)
                 && q.reserves == p.reserves && q.lpSupply == p.lpSupply
                 && Apply(s, c).value.report == Distributed(Max(0, p.fees))
  {
    hide AllK, Withdrawals, Deposits, Seeds, Cpmm.Buy, Cpmm.Sell, Plus, Minus;
  }
}
