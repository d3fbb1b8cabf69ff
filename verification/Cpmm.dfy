/**
 The constant-product market maker of the prediction market, as functions on a stored pool.

 Every outcome has its own token reserve; all of them share one collateral reserve, and k_i is the
 product of the two. A division is truncated, so a swap moves k_i by less than one divisor.
 */
module Cpmm {
  import opened Wrappers
  import opened Checked

  const MIN_LIQUIDITY := 1_000
  const BPS_DENOM := 10_000

  datatype PredictionError =
    | MarketNotFound
    | InvalidMarketParams
    | MarketNotTradable
    | InvalidOutcomeIndex
    | InsufficientBalance
    | ArithmeticOverflow
    | MarketCapReached
    | NoLiquidityPool
    | InsufficientLiquidity
    | InvalidOrderAmount
    | OrderNotFound
    | NotOrderOwner
    | SlippageExceeded
    | Unauthorized

  datatype Pool = Pool(
    collateral: int,
    reserves: seq<int>,
    lpSupply: int,
    ks: seq<int>,
    fees: int,
    volume: int)

  datatype SwapResult = SwapResult(outcomeAmount: int, collateralAmount: int, fee: int, priceImpactBps: int)
  datatype LPResult = LPResult(lpTokensMinted: int, collateralDeposited: int, outcomeDeposits: seq<int>)

  datatype Swapped = Swapped(pool: Pool, swap: SwapResult)
  datatype Provided = Provided(pool: Pool, lp: LPResult)

  /** Every stored k_i is exactly collateral times reserve. */
  ghost predicate Exact(p: Pool) {
    && |p.ks| == |p.reserves|
    && (forall i :: 0 <= i < |p.reserves| ==> p.ks[i] == p.collateral * p.reserves[i])
  }

  /** No amount is negative. */
  ghost predicate Solvent(p: Pool) {
    && 0 <= p.collateral && 0 <= p.lpSupply && 0 <= p.fees
    && (forall i :: 0 <= i < |p.reserves| ==> 0 <= p.reserves[i])
  }

  ghost predicate Valid(p: Pool) {
    Exact(p) && Solvent(p)
  }

  // ---------------------------------------------------------------------------------------------
  // Operations
  // ---------------------------------------------------------------------------------------------

  /** The product of the collateral with every reserve, or an error when one does not fit. */
  function AllK(collateral: int, reserves: seq<int>): (r: Result<seq<int>, PredictionError>)
    ensures r.Ok? ==> |r.value| == |reserves|
    ensures r.Ok? ==> forall i :: 0 <= i < |reserves| ==> r.value[i] == collateral * reserves[i]
    ensures r.Ok? <==> forall i :: 0 <= i < |reserves| ==> FitsI128(collateral * reserves[i])
  {
    if forall i :: 0 <= i < |reserves| ==> FitsI128(collateral * reserves[i])
    then Ok(seq(|reserves|, i requires 0 <= i < |reserves| => collateral * reserves[i]))
    else Err(ArithmeticOverflow)
  }

  function Create(outcomes: nat, seed: int): Result<Pool, PredictionError> {
    if seed < MIN_LIQUIDITY then Err(InsufficientLiquidity)
    else if outcomes > 0 && !FitsI128(seed * seed) then Err(ArithmeticOverflow)
    else Ok(Pool(seed, seq(outcomes, _ => seed), seed, seq(outcomes, _ => seed * seed), 0, 0))
  }

  function PriceImpact(amount: int, collateral: int): Result<int, PredictionError> {
    if collateral > 0 then
      var scaled :- CheckedMul(amount, BPS_DENOM, ArithmeticOverflow);
      CheckedDiv(scaled, collateral, ArithmeticOverflow)
    else Ok(0)
  }

  function Fee(amount: int, feeBps: int): Result<int, PredictionError> {
    var scaled :- CheckedMul(amount, feeBps, ArithmeticOverflow);
    CheckedDiv(scaled, BPS_DENOM, ArithmeticOverflow)
  }

  function Buy(p: Pool, i: nat, collateralIn: int, feeBps: int, minOut: int): Result<Swapped, PredictionError> {
    if collateralIn <= 0 then Err(InvalidOrderAmount)
    else if i >= |p.ks| then Err(InvalidOutcomeIndex)
    else
      var fee :- Fee(collateralIn, feeBps);
      var added :- CheckedSub(collateralIn, fee, ArithmeticOverflow);
      if i >= |p.reserves| then Err(InvalidOutcomeIndex)
      else
        var collateral :- CheckedAdd(p.collateral, added, ArithmeticOverflow);
        var reserve :- CheckedDiv(p.ks[i], collateral, ArithmeticOverflow);
        var out :- CheckedSub(p.reserves[i], reserve, ArithmeticOverflow);
        if out < minOut then Err(SlippageExceeded)
        else if out <= 0 then Err(InsufficientLiquidity)
        else
          var impact :- PriceImpact(added, p.collateral);
          var fees :- CheckedAdd(p.fees, fee, ArithmeticOverflow);
          var volume :- CheckedAdd(p.volume, collateralIn, ArithmeticOverflow);
          var reserves := p.reserves[i := reserve];
          var ks :- AllK(collateral, reserves);
          Ok(Swapped(Pool(collateral, reserves, p.lpSupply, ks, fees, volume),
                     SwapResult(out, collateralIn, fee, impact)))
  }

  function Sell(p: Pool, i: nat, tokensIn: int, feeBps: int, minCollateral: int): Result<Swapped, PredictionError> {
    if tokensIn <= 0 then Err(InvalidOrderAmount)
    else if i >= |p.ks| || i >= |p.reserves| then Err(InvalidOutcomeIndex)
    else
      var reserve :- CheckedAdd(p.reserves[i], tokensIn, ArithmeticOverflow);
      var collateral :- CheckedDiv(p.ks[i], reserve, ArithmeticOverflow);
      var before :- CheckedSub(p.collateral, collateral, ArithmeticOverflow);
      var fee :- Fee(before, feeBps);
      var out :- CheckedSub(before, fee, ArithmeticOverflow);
      if out < minCollateral then Err(SlippageExceeded)
      else if out <= 0 then Err(InsufficientLiquidity)
      else
        var impact :- PriceImpact(before, p.collateral);
        var fees :- CheckedAdd(p.fees, fee, ArithmeticOverflow);
        var volume :- CheckedAdd(p.volume, tokensIn, ArithmeticOverflow);
        var reserves := p.reserves[i := reserve];
        var ks :- AllK(collateral, reserves);
        Ok(Swapped(Pool(collateral, reserves, p.lpSupply, ks, fees, volume),
                   SwapResult(tokensIn, out, fee, impact)))
  }

  /** The share of one reserve that a deposit of `amount` collateral is matched with. */
  function Proportion(reserve: int, amount: int, collateral: int): Result<int, PredictionError> {
    var scaled :- CheckedMul(reserve, amount, ArithmeticOverflow);
    CheckedDiv(scaled, Max(collateral, 1), ArithmeticOverflow)
  }

  /** What every one of the first n reserves contributes, left to right, together with its new value. */
  function Deposits(p: Pool, amount: int, n: nat): (r: Result<seq<int>, PredictionError>)
    requires n <= |p.reserves|
    ensures r.Ok? ==> |r.value| == n
    ensures r.Ok? ==> forall i :: 0 <= i < n ==>
                        Proportion(p.reserves[i], amount, p.collateral) == Ok(r.value[i])
  {
    if n == 0 then Ok([])
    else
      var before :- Deposits(p, amount, n - 1);
      var d :- Proportion(p.reserves[n - 1], amount, p.collateral);
      var _ :- CheckedAdd(p.reserves[n - 1], d, ArithmeticOverflow);
      Ok(before + [d])
  }

  /** The first provider's own amounts, refused when one is not positive or overflows its reserve. */
  function Seeds(p: Pool, amounts: seq<int>, n: nat): (r: Result<seq<int>, PredictionError>)
    requires n <= |p.reserves| == |amounts|
    ensures r.Ok? ==> r.value == amounts[..n]
    ensures r.Ok? ==> forall i :: 0 <= i < n ==> amounts[i] > 0
  {
    if n == 0 then Ok([])
    else
      var before :- Seeds(p, amounts, n - 1);
      if amounts[n - 1] <= 0 then Err(InvalidOrderAmount)
      else
        var _ :- CheckedAdd(p.reserves[n - 1], amounts[n - 1], ArithmeticOverflow);
        Ok(before + [amounts[n - 1]])
  }

  function Plus(a: seq<int>, b: seq<int>): (r: seq<int>)
    requires |a| == |b|
    ensures |r| == |a|
    ensures forall i :: 0 <= i < |a| ==> r[i] == a[i] + b[i]
  {
    seq(|a|, i requires 0 <= i < |a| => a[i] + b[i])
  }

  function Minus(a: seq<int>, b: seq<int>): (r: seq<int>)
    requires |a| == |b|
    ensures |r| == |a|
    ensures forall i :: 0 <= i < |a| ==> r[i] == a[i] - b[i]
  {
    seq(|a|, i requires 0 <= i < |a| => a[i] - b[i])
  }

  function AddLiquidity(p: Pool, amount: int, amounts: seq<int>): Result<Provided, PredictionError> {
    if amount <= 0 then Err(InvalidOrderAmount)
    else if |amounts| != |p.reserves| then Err(InvalidMarketParams)
    else if p.lpSupply == 0 then
      var deposits :- Seeds(p, amounts, |amounts|);
      var collateral :- CheckedAdd(p.collateral, amount, ArithmeticOverflow);
      var reserves := Plus(p.reserves, deposits);
      var ks :- AllK(collateral, reserves);
      Ok(Provided(p.(collateral := collateral, reserves := reserves, lpSupply := amount, ks := ks),
                  LPResult(amount, amount, deposits)))
    else
      var first := if |p.reserves| > 0 then p.reserves[0] else 0;
      var added :- Proportion(first, amount, p.collateral);
      var scaled :- CheckedMul(amount, p.lpSupply, ArithmeticOverflow);
      var minted :- CheckedDiv(scaled, p.collateral, ArithmeticOverflow);
      var deposits :- Deposits(p, amount, |p.reserves|);
      var collateral :- CheckedAdd(p.collateral, added, ArithmeticOverflow);
      var supply :- CheckedAdd(p.lpSupply, minted, ArithmeticOverflow);
      var reserves := Plus(p.reserves, deposits);
      var ks :- AllK(collateral, reserves);
      Ok(Provided(p.(collateral := collateral, reserves := reserves, lpSupply := supply, ks := ks),
                  LPResult(minted, added, deposits)))
  }

  function Share(reserve: int, num: int, den: int): Result<int, PredictionError> {
    var scaled :- CheckedMul(reserve, num, ArithmeticOverflow);
    CheckedDiv(scaled, den, ArithmeticOverflow)
  }

  /** The share of each of the first n reserves that leaves the pool. */
  function Withdrawals(p: Pool, lp: int, n: nat): (r: Result<seq<int>, PredictionError>)
    requires n <= |p.reserves|
    ensures r.Ok? ==> |r.value| == n
    ensures r.Ok? ==> forall i :: 0 <= i < n ==> Share(p.reserves[i], lp, p.lpSupply) == Ok(r.value[i])
  {
    if n == 0 then Ok([])
    else
      var before :- Withdrawals(p, lp, n - 1);
      var w :- Share(p.reserves[n - 1], lp, p.lpSupply);
      var _ :- CheckedSub(p.reserves[n - 1], w, ArithmeticOverflow);
      Ok(before + [w])
  }

  function RemoveLiquidity(p: Pool, lp: int): Result<Provided, PredictionError> {
    if lp <= 0 || lp > p.lpSupply then Err(InvalidOrderAmount)
    else
      var out :- Share(p.collateral, lp, p.lpSupply);
      var withdrawals :- Withdrawals(p, lp, |p.reserves|);
      var collateral :- CheckedSub(p.collateral, out, ArithmeticOverflow);
      var supply :- CheckedSub(p.lpSupply, lp, ArithmeticOverflow);
      var reserves := Minus(p.reserves, withdrawals);
      var ks :- AllK(collateral, reserves);
      Ok(Provided(p.(collateral := collateral, reserves := reserves, lpSupply := supply, ks := ks),
                  LPResult(0, out, withdrawals)))
  }

  /** The distance of two numbers; the difference wraps around, and so does its absolute value. */
  function Distance(k: int, expected: int): i128 {
    WrapI128(Abs(WrapI128(k - expected)))
  }

  /** The stored k_i of every outcome is within one of the product it stands for. */
  predicate VerifyInvariant(p: Pool) {
    forall i :: 0 <= i < |p.reserves| ==>
      && FitsI128(p.collateral * p.reserves[i])
      && Distance(if i < |p.ks| then p.ks[i] else 0, p.collateral * p.reserves[i]) <= 1
  }

  /** Move the accumulated fees into the collateral reserve. */
  function DistributeFees(p: Pool): Result<(Pool, int), PredictionError> {
    if p.fees <= 0 then Ok((p, 0))
    else
      var collateral :- CheckedAdd(p.collateral, p.fees, ArithmeticOverflow);
      var ks :- AllK(collateral, p.reserves);
      Ok((p.(collateral := collateral, fees := 0, ks := ks), p.fees))
  }
}
