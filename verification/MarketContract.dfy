/**
 The prediction market's liquidity and trading entry points over its stored entries. Each loads the
 pool, works on the copy and stores it with the ledgers; an error leaves every entry as it was.
 */
module MarketContract {
  import opened Wrappers
  import opened Checked
  import opened Host
  import opened Cpmm
  import opened CpmmPool
  import opened Sums
  import opened Market

  class PredictionMarket {
    const admin: Address
    var market: Option<MarketInfo>
    var pool: Option<Pool>
    var lpBalances: map<Address, int>
    var lpTotalSupply: int
    var outcomeBalances: map<(Address, nat), int>
    var tradingVolume: int

    function View(): State
      reads this
    {
      State(market, pool, lpBalances, lpTotalSupply, outcomeBalances, tradingVolume)
    }

    /** The stored pool has one k per outcome reserve, as every entry point leaves it. */
    ghost predicate Shaped()
      reads this
    {
      pool.Some? ==> |pool.value.ks| == |pool.value.reserves|
    }

    constructor (admin: Address, m: MarketInfo)
      ensures View() == Fresh(m) && Shaped() && this.admin == admin
    {
      this.admin := admin;
      market, pool := Some(m), None;
      lpBalances, lpTotalSupply, outcomeBalances, tradingVolume := map[], 0, map[], 0;
    }

    method CreateLiquidityPool(creator: Address, seed: int) returns (r: Result<Report, PredictionError>)
      requires Shaped()
      modifies this
      ensures Shaped()
      ensures r == Answer(old(View()), Call.CreateLiquidityPool(creator, seed))
      ensures View() == Step(old(View()), Call.CreateLiquidityPool(creator, seed)).state
    {
      if market.None? {
        return Err(MarketNotFound);
      }
      var m := market.value;
      if m.status != Active {
        return Err(MarketNotTradable);
      }
      var created :- LiquidityPool.CreatePool(m.outcomes, seed);
      var balance :- CheckedAdd(At(lpBalances, creator), seed, ArithmeticOverflow);
      var supply :- CheckedAdd(lpTotalSupply, seed, ArithmeticOverflow);
      pool := Some(created);
      lpBalances := lpBalances[creator := balance];
      lpTotalSupply := supply;
      market := Some(m.(totalCollateral := seed));
      var deposits := [];
      for i := 0 to m.outcomes
        invariant deposits == seq(i, _ => seed)
      {
        deposits := deposits + [seed];
      }
      return Ok(Deposited(LPResult(seed, seed, deposits)));
    }

    method AddLiquidity(provider: Address, amount: int) returns (r: Result<Report, PredictionError>)
      requires Shaped()
      modifies this
      ensures Shaped()
      ensures r == Answer(old(View()), Call.AddLiquidity(provider, amount))
      ensures View() == Step(old(View()), Call.AddLiquidity(provider, amount)).state
    {
      hide CreatePool, Remove, Market.Buy, Market.Sell;
      if market.None? {
        return Err(MarketNotFound);
      }
      var m := market.value;
      if m.status != Active {
        return Err(MarketNotTradable);
      }
      if pool.None? {
        return Err(NoLiquidityPool);
      }
      var lpPool := new LiquidityPool.Load(pool.value);
      var amounts := [];
      for i := 0 to |lpPool.outcomeReserves|
        invariant amounts == seq(i, _ => amount)
      {
        amounts := amounts + [amount];
      }
      var lp :- lpPool.AddLiquidity(amount, amounts);
      var balance :- CheckedAdd(At(lpBalances, provider), lp.lpTokensMinted, ArithmeticOverflow);
      var supply :- CheckedAdd(lpTotalSupply, lp.lpTokensMinted, ArithmeticOverflow);
      var total :- CheckedAdd(m.totalCollateral, amount, ArithmeticOverflow);
      pool := Some(lpPool.View());
      lpBalances := lpBalances[provider := balance];
      lpTotalSupply := supply;
      market := Some(m.(totalCollateral := total));
      return Ok(Deposited(lp));
    }

    method RemoveLiquidity(provider: Address, amount: int) returns (r: Result<Report, PredictionError>)
      requires Shaped()
      modifies this
      ensures Shaped()
      ensures r == Answer(old(View()), Call.RemoveLiquidity(provider, amount))
      ensures View() == Step(old(View()), Call.RemoveLiquidity(provider, amount)).state
    {
      if pool.None? {
        return Err(NoLiquidityPool);
      }
      var lpPool := new LiquidityPool.Load(pool.value);
      var lp :- lpPool.RemoveLiquidity(amount);
      var balance :- CheckedSub(At(lpBalances, provider), amount, InsufficientBalance);
      var supply :- CheckedSub(lpTotalSupply, amount, ArithmeticOverflow);
      pool := Some(lpPool.View());
      lpBalances := lpBalances[provider := balance];
      lpTotalSupply := supply;
      return Ok(Withdrawn(lp));
    }

    method TotalReserves(p: Pool) returns (r: Result<int, PredictionError>)
      ensures r == SumReserves(p.reserves, |p.reserves|)
    {
      var total := 0;
      for i := 0 to |p.reserves|
        invariant SumReserves(p.reserves, i) == Ok(total)
      {
        if SumReserves(p.reserves, i + 1).Err? {
          SumReservesStop(p.reserves, i + 1, |p.reserves|);
        }
        total :- CheckedAdd(total, p.reserves[i], ArithmeticOverflow);
      }
      return Ok(total);
    }

    method BuyOutcome(buyer: Address, i: nat, amount: int, minTokens: int, now: u64)
      returns (r: Result<Report, PredictionError>)
      requires Shaped()
      modifies this
      ensures Shaped()
      ensures r == Answer(old(View()), Call.BuyOutcome(buyer, i, amount, minTokens, now))
      ensures View() == Step(old(View()), Call.BuyOutcome(buyer, i, amount, minTokens, now)).state
    {
      if market.None? {
        return Err(MarketNotFound);
      }
      var m := market.value;
      if !TradingOpen(m, now) {
        return Err(MarketNotTradable);
      }
      if i >= m.outcomes {
        return Err(InvalidOutcomeIndex);
      }
      if pool.None? {
        return Err(NoLiquidityPool);
      }
      var reserves :- TotalReserves(pool.value);
      var _ :- WithinCap(m, reserves, amount);
      var lpPool := new LiquidityPool.Load(pool.value);
      var swap :- lpPool.BuyOutcomeTokens(i, amount, m.feeBps, minTokens);
      var balance :- CheckedAdd(At(outcomeBalances, (buyer, i)), swap.outcomeAmount, ArithmeticOverflow);
      var volume :- CheckedAdd(tradingVolume, amount, ArithmeticOverflow);
      pool := Some(lpPool.View());
      outcomeBalances := outcomeBalances[(buyer, i) := balance];
      tradingVolume := volume;
      return Ok(Traded(true, swap));
    }

    method SellOutcome(seller: Address, i: nat, tokens: int, minCollateral: int, now: u64)
      returns (r: Result<Report, PredictionError>)
      requires Shaped()
      modifies this
      ensures Shaped()
      ensures r == Answer(old(View()), Call.SellOutcome(seller, i, tokens, minCollateral, now))
      ensures View() == Step(old(View()), Call.SellOutcome(seller, i, tokens, minCollateral, now)).state
    {
      if market.None? {
        return Err(MarketNotFound);
      }
      var m := market.value;
      if !TradingOpen(m, now) {
        return Err(MarketNotTradable);
      }
      if i >= m.outcomes {
        return Err(InvalidOutcomeIndex);
      }
      var current := At(outcomeBalances, (seller, i));
      if current < tokens {
        return Err(InsufficientBalance);
      }
      if pool.None? {
        return Err(NoLiquidityPool);
      }
      var lpPool := new LiquidityPool.Load(pool.value);
      var swap :- lpPool.SellOutcomeTokens(i, tokens, m.feeBps, minCollateral);
      var balance :- CheckedSub(current, tokens, ArithmeticOverflow);
      var volume :- CheckedAdd(tradingVolume, swap.collateralAmount, ArithmeticOverflow);
      pool := Some(lpPool.View());
      outcomeBalances := outcomeBalances[(seller, i) := balance];
      tradingVolume := volume;
      return Ok(Traded(false, swap));
    }

    method DistributeFees(caller: Address) returns (r: Result<Report, PredictionError>)
      requires Shaped()
      modifies this
      ensures Shaped()
      ensures r == Answer(old(View()), Call.DistributeFees(caller == admin))
      ensures View() == Step(old(View()), Call.DistributeFees(caller == admin)).state
    {
      if caller != admin {
        return Err(Unauthorized);
      }
      if pool.None? {
        return Err(NoLiquidityPool);
      }
      var lpPool := new LiquidityPool.Load(pool.value);
      var fees :- lpPool.DistributeLpFees();
      pool := Some(lpPool.View());
      return Ok(Distributed(fees));
    }
  }

  lemma {:induction false} SumReservesStop(reserves: seq<int>, k: nat, n: nat)
    requires k <= n <= |reserves| && SumReserves(reserves, k).Err?
    ensures SumReserves(reserves, n) == SumReserves(reserves, k)
  {
    if k < n {
      SumReservesStop(reserves, k, n - 1);
    }
  }
}
