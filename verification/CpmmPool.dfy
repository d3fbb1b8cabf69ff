/**
 The pool object the entry points work on: a copy of the stored pool that they update in place and
 save only on success, so on an error its state is of no consequence.
 */
module CpmmPool {
  import opened Wrappers
  import opened Checked
  import opened Cpmm

  lemma {:induction false} DepositsStop(p: Pool, amount: int, k: nat, n: nat)
    requires k <= n <= |p.reserves|
    ensures Deposits(p, amount, k).Err? ==> Deposits(p, amount, n) == Deposits(p, amount, k)
  {
    if k < n {
      DepositsStop(p, amount, k, n - 1);
    }
  }

  lemma {:induction false} SeedsStop(p: Pool, amounts: seq<int>, k: nat, n: nat)
    requires k <= n <= |p.reserves| == |amounts|
    ensures Seeds(p, amounts, k).Err? ==> Seeds(p, amounts, n) == Seeds(p, amounts, k)
  {
    if k < n {
      SeedsStop(p, amounts, k, n - 1);
    }
  }

  lemma {:induction false} WithdrawalsStop(p: Pool, lp: int, k: nat, n: nat)
    requires k <= n <= |p.reserves|
    ensures Withdrawals(p, lp, k).Err? ==> Withdrawals(p, lp, n) == Withdrawals(p, lp, k)
  {
    if k < n {
      WithdrawalsStop(p, lp, k, n - 1);
    }
  }

  class LiquidityPool {
    var collateralReserve: int
    var outcomeReserves: seq<int>
    var lpSupply: int
    var kPerOutcome: seq<int>
    var feesAccumulated: int
    var totalVolume: int

    function View(): Pool
      reads this
    {
      Pool(collateralReserve, outcomeReserves, lpSupply, kPerOutcome, feesAccumulated, totalVolume)
    }

    constructor Load(p: Pool)
      ensures View() == p
    {
      collateralReserve, outcomeReserves, lpSupply := p.collateral, p.reserves, p.lpSupply;
      kPerOutcome, feesAccumulated, totalVolume := p.ks, p.fees, p.volume;
    }

    static method CreatePool(outcomes: nat, seed: int) returns (r: Result<Pool, PredictionError>)
      ensures r == Create(outcomes, seed)
    {
      if seed < MIN_LIQUIDITY {
        return Err(InsufficientLiquidity);
      }
      var reserves, ks := [], [];
      for i := 0 to outcomes
        invariant i > 0 ==> FitsI128(seed * seed)
        invariant reserves == seq(i, _ => seed) && ks == seq(i, _ => seed * seed)
      {
        reserves := reserves + [seed];
        var k :- CheckedMul(seed, seed, ArithmeticOverflow);
        ks := ks + [k];
      }
      return Ok(Pool(seed, reserves, seed, ks, 0, 0));
    }

    method UpdateAllK() returns (r: Result<(), PredictionError>)
      requires |kPerOutcome| == |outcomeReserves|
      modifies this`kPerOutcome
      ensures r == AllK(collateralReserve, outcomeReserves).Map(_ => ())
      ensures r.Ok? ==> kPerOutcome == AllK(collateralReserve, outcomeReserves).value
    {
      for i := 0 to |outcomeReserves|
        invariant |kPerOutcome| == |outcomeReserves|
        invariant forall j :: 0 <= j < i ==> FitsI128(collateralReserve * outcomeReserves[j])
        invariant forall j :: 0 <= j < i ==> kPerOutcome[j] == collateralReserve * outcomeReserves[j]
      {
        var k :- CheckedMul(collateralReserve, outcomeReserves[i], ArithmeticOverflow);
        kPerOutcome := kPerOutcome[i := k];
      }
      return Ok(());
    }

    method BuyOutcomeTokens(i: nat, collateralIn: int, feeBps: int, minOut: int)
      returns (r: Result<SwapResult, PredictionError>)
      requires |kPerOutcome| == |outcomeReserves|
      modifies this
      ensures r == Buy(old(View()), i, collateralIn, feeBps, minOut).Map((s: Swapped) => s.swap)
      ensures r.Ok? ==> View() == Buy(old(View()), i, collateralIn, feeBps, minOut).value.pool
    {
      if collateralIn <= 0 {
        return Err(InvalidOrderAmount);
      }
      if i >= |kPerOutcome| {
        return Err(InvalidOutcomeIndex);
      }
      var fee :- Fee(collateralIn, feeBps);
      var added :- CheckedSub(collateralIn, fee, ArithmeticOverflow);
      var collateral :- CheckedAdd(collateralReserve, added, ArithmeticOverflow);
      var reserve :- CheckedDiv(kPerOutcome[i], collateral, ArithmeticOverflow);
      var out :- CheckedSub(outcomeReserves[i], reserve, ArithmeticOverflow);
      if out < minOut {
        return Err(SlippageExceeded);
      }
      if out <= 0 {
        return Err(InsufficientLiquidity);
      }
      var impact :- PriceImpact(added, collateralReserve);
      collateralReserve := collateral;
      outcomeReserves := outcomeReserves[i := reserve];
      feesAccumulated :- CheckedAdd(feesAccumulated, fee, ArithmeticOverflow);
      totalVolume :- CheckedAdd(totalVolume, collateralIn, ArithmeticOverflow);
      var _ :- UpdateAllK();
      return Ok(SwapResult(out, collateralIn, fee, impact));
    }

    method SellOutcomeTokens(i: nat, tokensIn: int, feeBps: int, minCollateral: int)
      returns (r: Result<SwapResult, PredictionError>)
      requires |kPerOutcome| == |outcomeReserves|
      modifies this
      ensures r == Sell(old(View()), i, tokensIn, feeBps, minCollateral).Map((s: Swapped) => s.swap)
      ensures r.Ok? ==> View() == Sell(old(View()), i, tokensIn, feeBps, minCollateral).value.pool
    {
      if tokensIn <= 0 {
        return Err(InvalidOrderAmount);
      }
      if i >= |kPerOutcome| {
        return Err(InvalidOutcomeIndex);
      }
      var reserve :- CheckedAdd(outcomeReserves[i], tokensIn, ArithmeticOverflow);
      var collateral :- CheckedDiv(kPerOutcome[i], reserve, ArithmeticOverflow);
      var before :- CheckedSub(collateralReserve, collateral, ArithmeticOverflow);
      var fee :- Fee(before, feeBps);
      var out :- CheckedSub(before, fee, ArithmeticOverflow);
      if out < minCollateral {
        return Err(SlippageExceeded);
      }
      if out <= 0 {
        return Err(InsufficientLiquidity);
      }
      var impact :- PriceImpact(before, collateralReserve);
      collateralReserve := collateral;
      outcomeReserves := outcomeReserves[i := reserve];
      feesAccumulated :- CheckedAdd(feesAccumulated, fee, ArithmeticOverflow);
      totalVolume :- CheckedAdd(totalVolume, tokensIn, ArithmeticOverflow);
      var _ :- UpdateAllK();
      return Ok(SwapResult(tokensIn, out, fee, impact));
    }

    method SeedReserves(amounts: seq<int>) returns (r: Result<seq<int>, PredictionError>)
      requires |amounts| == |outcomeReserves|
      modifies this`outcomeReserves
      ensures r == Seeds(old(View()), amounts, |amounts|)
      ensures r.Ok? ==> outcomeReserves == Plus(old(outcomeReserves), r.value)
    {
      ghost var p := View();
      var actual := [];
      for i := 0 to |amounts|
        invariant |outcomeReserves| == |amounts|
        invariant Seeds(p, amounts, i) == Ok(actual)
        invariant forall j :: 0 <= j < i ==> outcomeReserves[j] == p.reserves[j] + actual[j]
        invariant forall j :: i <= j < |amounts| ==> outcomeReserves[j] == p.reserves[j]
      {
        var reserve := CheckedAdd(outcomeReserves[i], amounts[i], ArithmeticOverflow);
        if Seeds(p, amounts, i + 1).Err? {
          SeedsStop(p, amounts, i + 1, |amounts|);
        }
        if amounts[i] <= 0 {
          return Err(InvalidOrderAmount);
        }
        actual := actual + [amounts[i]];
        var value :- reserve;
        outcomeReserves := outcomeReserves[i := value];
      }
      return Ok(actual);
    }

    method MatchReserves(amount: int) returns (r: Result<seq<int>, PredictionError>)
      modifies this`outcomeReserves
      ensures r == Deposits(old(View()), amount, |old(outcomeReserves)|)
      ensures r.Ok? ==> outcomeReserves == Plus(old(outcomeReserves), r.value)
    {
      hide Proportion;
      ghost var p := View();
      var actual := [];
      for i := 0 to |outcomeReserves|
        invariant |outcomeReserves| == |p.reserves|
        invariant Deposits(p, amount, i) == Ok(actual)
        invariant forall j :: 0 <= j < i ==> outcomeReserves[j] == p.reserves[j] + actual[j]
        invariant forall j :: i <= j < |p.reserves| ==> outcomeReserves[j] == p.reserves[j]
      {
        if Deposits(p, amount, i + 1).Err? {
          DepositsStop(p, amount, i + 1, |p.reserves|);
        }
        var d :- Proportion(outcomeReserves[i], amount, collateralReserve);
        actual := actual + [d];
        var reserve :- CheckedAdd(outcomeReserves[i], d, ArithmeticOverflow);
        outcomeReserves := outcomeReserves[i := reserve];
      }
      return Ok(actual);
    }

    method AddLiquidity(amount: int, amounts: seq<int>) returns (r: Result<LPResult, PredictionError>)
      requires |kPerOutcome| == |outcomeReserves|
      modifies this
      ensures r == Cpmm.AddLiquidity(old(View()), amount, amounts).Map((s: Provided) => s.lp)
      ensures r.Ok? ==> View() == Cpmm.AddLiquidity(old(View()), amount, amounts).value.pool
    {
      if amount <= 0 {
        return Err(InvalidOrderAmount);
      }
      if |amounts| != |outcomeReserves| {
        return Err(InvalidMarketParams);
      }
      var minted, added, deposits := amount, amount, [];
      if lpSupply == 0 {
        deposits :- SeedReserves(amounts);
        collateralReserve :- CheckedAdd(collateralReserve, added, ArithmeticOverflow);
        lpSupply := minted;
      } else {
        var first := if |outcomeReserves| > 0 then outcomeReserves[0] else 0;
        added :- Proportion(first, amount, collateralReserve);
        var scaled :- CheckedMul(amount, lpSupply, ArithmeticOverflow);
        minted :- CheckedDiv(scaled, collateralReserve, ArithmeticOverflow);
        deposits :- MatchReserves(amount);
        collateralReserve :- CheckedAdd(collateralReserve, added, ArithmeticOverflow);
        lpSupply :- CheckedAdd(lpSupply, minted, ArithmeticOverflow);
      }
      var _ :- UpdateAllK();
      return Ok(LPResult(minted, added, deposits));
    }

    method ReleaseReserves(lp: int) returns (r: Result<seq<int>, PredictionError>)
      modifies this`outcomeReserves
      ensures r == Withdrawals(old(View()), lp, |old(outcomeReserves)|)
      ensures r.Ok? ==> outcomeReserves == Minus(old(outcomeReserves), r.value)
    {
      hide Share;
      ghost var p := View();
      var out := [];
      for i := 0 to |outcomeReserves|
        invariant |outcomeReserves| == |p.reserves|
        invariant Withdrawals(p, lp, i) == Ok(out)
        invariant forall j :: 0 <= j < i ==> outcomeReserves[j] == p.reserves[j] - out[j]
        invariant forall j :: i <= j < |p.reserves| ==> outcomeReserves[j] == p.reserves[j]
      {
        if Withdrawals(p, lp, i + 1).Err? {
          WithdrawalsStop(p, lp, i + 1, |p.reserves|);
        }
        var w :- Share(outcomeReserves[i], lp, lpSupply);
        out := out + [w];
        var reserve :- CheckedSub(outcomeReserves[i], w, ArithmeticOverflow);
        outcomeReserves := outcomeReserves[i := reserve];
      }
      return Ok(out);
    }

    method RemoveLiquidity(lp: int) returns (r: Result<LPResult, PredictionError>)
      requires |kPerOutcome| == |outcomeReserves|
      modifies this
      ensures r == Cpmm.RemoveLiquidity(old(View()), lp).Map((s: Provided) => s.lp)
      ensures r.Ok? ==> View() == Cpmm.RemoveLiquidity(old(View()), lp).value.pool
    {
      if lp <= 0 || lp > lpSupply {
        return Err(InvalidOrderAmount);
      }
      var out :- Share(collateralReserve, lp, lpSupply);
      var released :- ReleaseReserves(lp);
      collateralReserve :- CheckedSub(collateralReserve, out, ArithmeticOverflow);
      lpSupply :- CheckedSub(lpSupply, lp, ArithmeticOverflow);
      var _ :- UpdateAllK();
      return Ok(LPResult(0, out, released));
    }

    method VerifyInvariant() returns (ok: bool)
      ensures ok == Cpmm.VerifyInvariant(View())
    {
      for i := 0 to |outcomeReserves|
        invariant forall j :: 0 <= j < i ==>
          && FitsI128(collateralReserve * outcomeReserves[j])
          && Distance(if j < |kPerOutcome| then kPerOutcome[j] else 0, collateralReserve * outcomeReserves[j]) <= 1
      {
        var k := if i < |kPerOutcome| then kPerOutcome[i] else 0;
        match CheckedMul(collateralReserve, outcomeReserves[i], ()) {
          case Err(_) => return false;
          case Ok(expected) =>
            var difference := WrapI128(k - expected);
            if WrapI128(Abs(difference)) > 1 {
              return false;
            }
        }
      }
      return true;
    }

    /** Fee distribution after resolution: the fees join the collateral reserve. */
    method DistributeLpFees() returns (r: Result<int, PredictionError>)
      requires |kPerOutcome| == |outcomeReserves|
      modifies this
      ensures r == DistributeFees(old(View())).Map((s: (Pool, int)) => s.1)
      ensures r.Ok? ==> View() == DistributeFees(old(View())).value.0
    {
      var fees := feesAccumulated;
      if fees <= 0 {
        return Ok(0);
      }
      collateralReserve :- CheckedAdd(collateralReserve, fees, ArithmeticOverflow);
      feesAccumulated := 0;
      var _ :- UpdateAllK();
      return Ok(fees);
    }
  }
}
