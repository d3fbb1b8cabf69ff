/** What the market maker promises: bounded rounding on swaps and fair liquidity shares. */
module CpmmLaws {
  import opened Wrappers
  import opened Checked
  import opened Cpmm

  // ---------------------------------------------------------------------------------------------
  // Arithmetic on one outcome
  // ---------------------------------------------------------------------------------------------

  lemma FeeInRange(amount: int, feeBps: int)
    requires 0 <= amount && 0 <= feeBps <= BPS_DENOM
    requires Fee(amount, feeBps).Ok?
    ensures 0 <= Fee(amount, feeBps).value <= amount
  {
    MulMono(0, amount, feeBps);
    MulMono(feeBps, BPS_DENOM, amount);
    FloorBracket(amount * feeBps, BPS_DENOM);
  }

  /** Dividing the product of two amounts by a larger first factor leaves at most the second. */
  lemma Requote(c: int, r: int, d: int)
    requires 0 <= c <= d && 0 <= r && 0 < d
    ensures TruncDiv(c * r, d) == c * r / d
    ensures 0 <= c * r / d <= r
    ensures d * (c * r / d) <= c * r < d * (c * r / d) + d
  {
    assert 0 <= c * r;
    FloorBracket(c * r, d);
    assert r * c <= r * d;
    MulCancel(c * r / d, r, d);
  }

  /** The collateral left when the reserve r grows to s. */
  lemma RequoteK(k: int, c: int, r: int, s: int)
    requires 0 <= c && 0 <= r <= s && 0 < s && k == c * r
    ensures var d := TruncDiv(k, s);
            0 <= d <= c && d * s <= k < d * s + s
  {
    assert c * r == r * c;
    Requote(r, c, s);
  }

  lemma RoundTripArithmetic(c: int, r: int, c1: int, k1: int, d: int)
    requires 0 <= c && 0 < r && 0 < c1
    requires k1 <= c * r < k1 + c1
    requires d * r <= k1 < d * r + r
    ensures d <= c
    ensures (c - d) * r <= c1 + r - 2
  {
    MulCancel(d, c, r);
    assert (c - d) * r == c * r - d * r;
  }

  // ---------------------------------------------------------------------------------------------
  // What a successful swap does, before any rounding argument
  // ---------------------------------------------------------------------------------------------

  lemma BuyParts(p: Pool, i: nat, collateralIn: int, feeBps: int, minOut: int)
    requires |p.ks| == |p.reserves|
    ensures Buy(p, i, collateralIn, feeBps, minOut).Ok? ==>
            var r := Buy(p, i, collateralIn, feeBps, minOut).value;
            && 0 < collateralIn && i < |p.reserves|
            && Fee(collateralIn, feeBps) == Ok(r.swap.fee)
            && r.pool.collateral == p.collateral + collateralIn - r.swap.fee
            && r.pool.collateral != 0 && FitsI128(r.pool.collateral)
            && r.pool.reserves == p.reserves[i := TruncDiv(p.ks[i], r.pool.collateral)]
            && r.swap.outcomeAmount == p.reserves[i] - r.pool.reserves[i] > 0
            && r.swap.collateralAmount == collateralIn
            && r.pool.lpSupply == p.lpSupply
            && r.pool.fees == p.fees + r.swap.fee
            && Exact(r.pool)
  {
  }

  lemma SellParts(p: Pool, i: nat, tokensIn: int, feeBps: int, minCollateral: int)
    requires |p.ks| == |p.reserves|
    ensures Sell(p, i, tokensIn, feeBps, minCollateral).Ok? ==>
            var r := Sell(p, i, tokensIn, feeBps, minCollateral).value;
            && 0 < tokensIn && i < |p.reserves|
            && r.pool.reserves == p.reserves[i := p.reserves[i] + tokensIn]
            && FitsI128(r.pool.reserves[i]) && r.pool.reserves[i] != 0
            && r.pool.collateral == TruncDiv(p.ks[i], r.pool.reserves[i])
            && Fee(p.collateral - r.pool.collateral, feeBps) == Ok(r.swap.fee)
            && r.swap.collateralAmount == p.collateral - r.pool.collateral - r.swap.fee > 0
            && r.swap.outcomeAmount == tokensIn
            && r.pool.lpSupply == p.lpSupply
            && r.pool.fees == p.fees + r.swap.fee
            && Exact(r.pool)
  {
  }

  // ---------------------------------------------------------------------------------------------
  // Swaps: the traded k_i never rises and falls by less than the divisor used
  // ---------------------------------------------------------------------------------------------

  lemma KIsProduct(p: Pool, i: nat)
    requires Valid(p) && i < |p.reserves|
    ensures p.ks[i] == p.collateral * p.reserves[i] >= 0
  {
    assert p.ks[i] == p.collateral * p.reserves[i];
  }

  lemma KIsProductOf(p: Pool, i: nat)
    requires Exact(p) && i < |p.reserves|
    ensures p.ks[i] == p.collateral * p.reserves[i]
  {
  }

  /** The traded outcome of a buy, and the bounds on what else changes. */
  lemma BuyTraded(p: Pool, i: nat, collateralIn: int, feeBps: int, minOut: int)
    requires Valid(p) && 0 <= feeBps <= BPS_DENOM
    ensures Buy(p, i, collateralIn, feeBps, minOut).Ok? ==>
            var q := Buy(p, i, collateralIn, feeBps, minOut).value.pool;
            && i < |p.ks| && p.collateral <= q.collateral && 0 < q.collateral && p.fees <= q.fees
            && q.reserves == p.reserves[i := q.reserves[i]] && 0 <= q.reserves[i] <= p.reserves[i]
            && Exact(q) && q.lpSupply == p.lpSupply
            && q.ks[i] <= p.ks[i] < q.ks[i] + q.collateral
  {
    if Buy(p, i, collateralIn, feeBps, minOut).Ok? {
      BuyParts(p, i, collateralIn, feeBps, minOut);
      FeeInRange(collateralIn, feeBps);
      var q := Buy(p, i, collateralIn, feeBps, minOut).value.pool;
      KIsProductOf(p, i);
      KIsProductOf(q, i);
      Requote(p.collateral, p.reserves[i], q.collateral);
    }
  }

  /** The traded outcome of a sale, and the bounds on what else changes. */
  lemma SellTraded(p: Pool, i: nat, tokensIn: int, feeBps: int, minCollateral: int)
    requires Valid(p) && 0 <= feeBps <= BPS_DENOM
    ensures Sell(p, i, tokensIn, feeBps, minCollateral).Ok? ==>
            var q := Sell(p, i, tokensIn, feeBps, minCollateral).value.pool;
            && i < |p.ks| && 0 <= q.collateral <= p.collateral && p.fees <= q.fees
            && q.reserves == p.reserves[i := q.reserves[i]] && 0 < q.reserves[i]
            && Exact(q) && q.lpSupply == p.lpSupply
            && q.ks[i] <= p.ks[i] < q.ks[i] + q.reserves[i]
  {
    if Sell(p, i, tokensIn, feeBps, minCollateral).Ok? {
      SellParts(p, i, tokensIn, feeBps, minCollateral);
      var q := Sell(p, i, tokensIn, feeBps, minCollateral).value.pool;
      KIsProductOf(p, i);
      KIsProductOf(q, i);
      RequoteK(p.ks[i], p.collateral, p.reserves[i], q.reserves[i]);
      FeeInRange(p.collateral - q.collateral, feeBps);
    }
  }

  /** Two exact pools that differ in the reserve of outcome i only: the other k_j follow the collateral. */
  lemma OtherKs(p: Pool, q: Pool, i: nat)
    requires Exact(p) && Exact(q) && Solvent(p) && i < |p.reserves|
    requires |q.reserves| == |p.reserves| && q.reserves == p.reserves[i := q.reserves[i]]
    ensures |p.ks| == |q.ks|
    ensures p.collateral <= q.collateral ==> forall j :: 0 <= j < |p.ks| && j != i ==> p.ks[j] <= q.ks[j]
    ensures q.collateral <= p.collateral ==> forall j :: 0 <= j < |p.ks| && j != i ==> q.ks[j] <= p.ks[j]
  {
    forall j | 0 <= j < |p.ks| && j != i
      ensures p.collateral <= q.collateral ==> p.ks[j] <= q.ks[j]
      ensures q.collateral <= p.collateral ==> q.ks[j] <= p.ks[j]
    {
      KIsProductOf(p, j);
      KIsProductOf(q, j);
      if p.collateral <= q.collateral {
        MulMono(p.collateral, q.collateral, p.reserves[j]);
      }
      if q.collateral <= p.collateral {
        MulMono(q.collateral, p.collateral, p.reserves[j]);
      }
    }
  }

  lemma BuyRounding(p: Pool, i: nat, collateralIn: int, feeBps: int, minOut: int)
    requires Valid(p) && 0 <= feeBps <= BPS_DENOM
    ensures Buy(p, i, collateralIn, feeBps, minOut).Ok? ==>
            var q := Buy(p, i, collateralIn, feeBps, minOut).value.pool;
            && Valid(q) && i < |p.ks| && 0 < q.collateral
            && q.ks[i] <= p.ks[i] < q.ks[i] + q.collateral
            && forall j :: 0 <= j < |p.ks| && j != i ==> q.ks[j] >= p.ks[j]
  {
    if Buy(p, i, collateralIn, feeBps, minOut).Ok? {
      BuyTraded(p, i, collateralIn, feeBps, minOut);
      OtherKs(p, Buy(p, i, collateralIn, feeBps, minOut).value.pool, i);
    }
  }

  lemma SellRounding(p: Pool, i: nat, tokensIn: int, feeBps: int, minCollateral: int)
    requires Valid(p) && 0 <= feeBps <= BPS_DENOM
    ensures Sell(p, i, tokensIn, feeBps, minCollateral).Ok? ==>
            var q := Sell(p, i, tokensIn, feeBps, minCollateral).value.pool;
            && Valid(q) && i < |p.ks| && 0 < q.reserves[i]
            && q.ks[i] <= p.ks[i] < q.ks[i] + q.reserves[i]
            && forall j :: 0 <= j < |p.ks| && j != i ==> q.ks[j] <= p.ks[j]
  {
    if Sell(p, i, tokensIn, feeBps, minCollateral).Ok? {
      SellTraded(p, i, tokensIn, feeBps, minCollateral);
      OtherKs(p, Sell(p, i, tokensIn, feeBps, minCollateral).value.pool, i);
    }
  }

  /** A buy, then a sale of exactly the tokens received. */
  function RoundTrip(p: Pool, i: nat, collateralIn: int, feeBps: int, minOut: int, minBack: int)
    : Result<(Swapped, Swapped), PredictionError>
  {
    var b :- Buy(p, i, collateralIn, feeBps, minOut);
    var s :- Sell(b.pool, i, b.swap.outcomeAmount, feeBps, minBack);
    Ok((b, s))
  }

  /**
   The round trip: buy outcome i, then sell exactly the tokens received. The return before the
   second fee is at least what the buy put in, and it exceeds it by at most
   (C' + R_i - 2) / R_i, where C' is the collateral after the buy.
   */
  lemma RoundTripBound(p: Pool, i: nat, collateralIn: int, feeBps: int, minOut: int, minBack: int)
    requires Valid(p) && 0 <= feeBps <= BPS_DENOM
    ensures RoundTrip(p, i, collateralIn, feeBps, minOut, minBack).Ok? ==>
            var (b, s) := RoundTrip(p, i, collateralIn, feeBps, minOut, minBack).value;
            var added := collateralIn - b.swap.fee;
            var back := s.swap.collateralAmount + s.swap.fee;
            && s.pool.reserves == p.reserves
            && added <= back
            && (back - added) * p.reserves[i] <= b.pool.collateral + p.reserves[i] - 2
  {
    if RoundTrip(p, i, collateralIn, feeBps, minOut, minBack).Err? {
      return;
    }
    BuyParts(p, i, collateralIn, feeBps, minOut);
    BuyRounding(p, i, collateralIn, feeBps, minOut);
    KIsProduct(p, i);
    var b := Buy(p, i, collateralIn, feeBps, minOut).value;
    SellParts(b.pool, i, b.swap.outcomeAmount, feeBps, minBack);
    SellRounding(b.pool, i, b.swap.outcomeAmount, feeBps, minBack);
    var s := Sell(b.pool, i, b.swap.outcomeAmount, feeBps, minBack).value;
    assert s.pool.reserves[i] == p.reserves[i];
    assert s.pool.ks[i] == s.pool.collateral * p.reserves[i];
    RoundTripArithmetic(p.collateral, p.reserves[i], b.pool.collateral, b.pool.ks[i], s.pool.collateral);
  }

  lemma OneK(c: int, r: int)
    requires FitsI128(c * r)
    ensures AllK(c, [r]) == Ok([c * r])
  {
    assert forall i :: 0 <= i < |[r]| ==> c * [r][i] == c * r;
    assert AllK(c, [r]).value == [c * r];
  }

  lemma TightBuy(p: Pool)
    requires p == Pool(1, [5], 1, [5], 0, 0)
    ensures Valid(p)
    ensures Buy(p, 0, 1, 0, 0) == Ok(Swapped(Pool(2, [2], 1, [4], 0, 1), SwapResult(3, 1, 0, 10_000)))
  {
    assert p.ks[0] == p.collateral * p.reserves[0];
    OneK(2, 2);
    assert p.reserves[0 := 2] == [2];
    assert Fee(1, 0) == Ok(0);
    assert CheckedDiv(5, 2, ArithmeticOverflow) == Ok(2);
  }

  lemma TightSell(p: Pool)
    requires p == Pool(2, [2], 1, [4], 0, 1)
    ensures Sell(p, 0, 3, 0, 0) == Ok(Swapped(Pool(0, [5], 1, [0], 0, 4), SwapResult(3, 2, 0, 10_000)))
  {
    OneK(0, 5);
    assert p.reserves[0 := 5] == [5];
    assert Fee(2, 0) == Ok(0);
    assert CheckedDiv(4, 5, ArithmeticOverflow) == Ok(0);
  }

  /** The bound is attained, so no smaller one holds for every pool. */
  lemma RoundTripBoundIsTight(p: Pool)
    requires p == Pool(1, [5], 1, [5], 0, 0)
    ensures Valid(p)
    ensures var b := Buy(p, 0, 1, 0, 0);
            && b.Ok?
            && var s := Sell(b.value.pool, 0, b.value.swap.outcomeAmount, 0, 0);
            && s.Ok?
            && (s.value.swap.collateralAmount + s.value.swap.fee - 1) * p.reserves[0]
               == b.value.pool.collateral + p.reserves[0] - 2
  {
    TightBuy(p);
    TightSell(Pool(2, [2], 1, [4], 0, 1));
  }

  // ---------------------------------------------------------------------------------------------
  // Liquidity shares
  // ---------------------------------------------------------------------------------------------

  lemma RemoveParts(p: Pool, lp: int)
    requires |p.ks| == |p.reserves|
    ensures RemoveLiquidity(p, lp).Ok? ==>
            var r := RemoveLiquidity(p, lp).value;
            && 0 < lp <= p.lpSupply && r.pool.lpSupply == p.lpSupply - lp
            && r.lp.collateralDeposited == TruncDiv(p.collateral * lp, p.lpSupply)
            && r.pool.collateral == p.collateral - r.lp.collateralDeposited
            && r.lp.lpTokensMinted == 0
            && |r.lp.outcomeDeposits| == |p.reserves| == |r.pool.reserves|
            && (forall i :: 0 <= i < |p.reserves| ==>
                  && r.lp.outcomeDeposits[i] == TruncDiv(p.reserves[i] * lp, p.lpSupply)
                  && r.pool.reserves[i] == p.reserves[i] - r.lp.outcomeDeposits[i])
            && r.pool.fees == p.fees
            && Exact(r.pool)
  {
    if RemoveLiquidity(p, lp).Ok? {
      var w := Withdrawals(p, lp, |p.reserves|).value;
      forall i | 0 <= i < |p.reserves|
        ensures w[i] == TruncDiv(p.reserves[i] * lp, p.lpSupply)
      {
        assert Share(p.reserves[i], lp, p.lpSupply) == Ok(w[i]);
      }
    }
  }

  lemma AddParts(p: Pool, amount: int, amounts: seq<int>)
    requires |p.ks| == |p.reserves| && 0 < p.lpSupply && 0 < p.collateral
    ensures AddLiquidity(p, amount, amounts).Ok? ==>
            var r := AddLiquidity(p, amount, amounts).value;
            var first := if |p.reserves| > 0 then p.reserves[0] else 0;
            && 0 < amount
            && r.lp.lpTokensMinted == TruncDiv(amount * p.lpSupply, p.collateral)
            && r.lp.collateralDeposited == TruncDiv(first * amount, p.collateral)
            && r.pool.lpSupply == p.lpSupply + r.lp.lpTokensMinted
            && r.pool.collateral == p.collateral + r.lp.collateralDeposited
            && |r.lp.outcomeDeposits| == |p.reserves| == |r.pool.reserves|
            && (forall i :: 0 <= i < |p.reserves| ==>
                  && r.lp.outcomeDeposits[i] == TruncDiv(p.reserves[i] * amount, p.collateral)
                  && r.pool.reserves[i] == p.reserves[i] + r.lp.outcomeDeposits[i])
            && r.pool.fees == p.fees
            && Exact(r.pool)
  {
    if AddLiquidity(p, amount, amounts).Ok? {
      var d := Deposits(p, amount, |p.reserves|).value;
      forall i | 0 <= i < |p.reserves|
        ensures d[i] == TruncDiv(p.reserves[i] * amount, p.collateral)
      {
        assert Proportion(p.reserves[i], amount, p.collateral) == Ok(d[i]);
      }
    }
  }

  /** Paying out the floor of a share keeps the rest at least proportional, and within one unit. */
  lemma ShareArithmetic(x: int, lp: int, s: int)
    requires 0 <= x && 0 < lp <= s
    ensures var out := TruncDiv(x * lp, s);
            && 0 <= out <= x
            && x * (s - lp) <= (x - out) * s < x * (s - lp) + s
  {
    Requote(lp, x, s);
    var out := x * lp / s;
    assert (x - out) * s == x * s - out * s;
    assert x * (s - lp) == x * s - x * lp;
  }

  /** Burning shares never lowers what a remaining share is backed by, in collateral or in any outcome. */
  lemma RemoveIsFair(p: Pool, lp: int)
    requires Valid(p)
    ensures RemoveLiquidity(p, lp).Ok? ==>
            var q := RemoveLiquidity(p, lp).value.pool;
            && Valid(q) && |q.reserves| == |p.reserves|
            && q.collateral * p.lpSupply >= p.collateral * q.lpSupply
            && q.collateral * p.lpSupply < p.collateral * q.lpSupply + p.lpSupply
            && forall i :: 0 <= i < |p.reserves| ==>
                 && q.reserves[i] * p.lpSupply >= p.reserves[i] * q.lpSupply
                 && q.reserves[i] * p.lpSupply < p.reserves[i] * q.lpSupply + p.lpSupply
  {
    if RemoveLiquidity(p, lp).Ok? {
      RemoveParts(p, lp);
      ShareArithmetic(p.collateral, lp, p.lpSupply);
      forall i | 0 <= i < |p.reserves|
        ensures var q := RemoveLiquidity(p, lp).value.pool;
                && 0 <= q.reserves[i] <= p.reserves[i]
                && q.reserves[i] * p.lpSupply >= p.reserves[i] * q.lpSupply
                && q.reserves[i] * p.lpSupply < p.reserves[i] * q.lpSupply + p.lpSupply
      {
        ShareArithmetic(p.reserves[i], lp, p.lpSupply);
      }
    }
  }

  /** One reserve x matched with d for a deposit of `amount` that mints m of s shares. */
  lemma MintProduct(x: int, amount: int, c: int, s: int, m: int, d: int)
    requires 0 <= x && 0 < c && 0 < s
    requires m * c <= amount * s
    requires x * amount < d * c + c
    ensures x * m < d * s + s
  {
    MulMono(m * c, amount * s, x);
    MulMono(x * amount + 1, d * c + c, s);
    assert (x * m) * c == x * (m * c);
    assert x * (amount * s) == (x * amount) * s;
    assert (x * amount + 1) * s == (x * amount) * s + s;
    assert (d * c + c) * s == (d * s + s) * c;
    assert (x * m) * c + s <= (d * s + s) * c;
    MulCancel(x * m + 1, d * s + s, c) by {
      assert (x * m + 1) * c == (x * m) * c + c;
    }
  }

  lemma BurnQuotient(x: int, d: int, m: int, s: int)
    requires 0 <= x && 0 <= d && 0 <= m && 0 < s
    ensures TruncDiv((x + d) * m, s + m) <= d <==> x * m < d * s + s + m
  {
    var n := (x + d) * m;
    assert n == x * m + d * m >= 0;
    FloorBracket(n, s + m);
    FloorIff(d + 1, n, s + m);
    assert (d + 1) * (s + m) == d * s + d * m + s + m;
  }

  /** The mint and one matched deposit, as the floors they are. */
  lemma MintParts(x: int, amount: int, c: int, s: int)
    requires 0 <= x && 0 < amount && 0 < c && 0 < s
    ensures var m := TruncDiv(amount * s, c);
            var d := TruncDiv(x * amount, c);
            0 <= m && 0 <= d && x * m < d * s + s
  {
    assert 0 <= amount * s && 0 <= x * amount;
    FloorBracket(amount * s, c);
    FloorBracket(x * amount, c);
    MintProduct(x, amount, c, s, TruncDiv(amount * s, c), TruncDiv(x * amount, c));
  }

  /** Burning the minted shares takes at most d of the reserve x that was matched with d. */
  lemma OutcomeArithmetic(x: int, amount: int, c: int, s: int)
    requires 0 <= x && 0 < amount && 0 < c && 0 < s
    ensures var m := TruncDiv(amount * s, c);
            var d := TruncDiv(x * amount, c);
            0 <= m && 0 <= d && TruncDiv((x + d) * m, s + m) <= d
  {
    MintParts(x, amount, c, s);
    BurnQuotient(x, TruncDiv(x * amount, c), TruncDiv(amount * s, c), s);
  }

  /** What a deposit followed by burning exactly the minted shares returns. */
  function AddThenBurn(p: Pool, amount: int, amounts: seq<int>): Result<(LPResult, LPResult), PredictionError> {
    var added :- AddLiquidity(p, amount, amounts);
    var burnt :- RemoveLiquidity(added.pool, added.lp.lpTokensMinted);
    Ok((added.lp, burnt.lp))
  }

  /** The parts of a completed deposit and burn on a pool in use. */
  lemma AddThenBurnParts(p: Pool, amount: int, amounts: seq<int>)
    requires Valid(p) && 0 < p.lpSupply && 0 < p.collateral
    ensures AddThenBurn(p, amount, amounts).Ok? ==>
            var r := AddThenBurn(p, amount, amounts).value;
            var first := if |p.reserves| > 0 then p.reserves[0] else 0;
            var m := TruncDiv(amount * p.lpSupply, p.collateral);
            var d := TruncDiv(first * amount, p.collateral);
            && 0 < amount && 0 < m && 0 <= d
            && r.0.lpTokensMinted == m && r.0.collateralDeposited == d
            && r.1.collateralDeposited == TruncDiv((p.collateral + d) * m, p.lpSupply + m)
            && |r.0.outcomeDeposits| == |r.1.outcomeDeposits| == |p.reserves|
            && forall i :: 0 <= i < |p.reserves| ==>
                 && r.0.outcomeDeposits[i] == TruncDiv(p.reserves[i] * amount, p.collateral)
                 && r.1.outcomeDeposits[i]
                    == TruncDiv((p.reserves[i] + r.0.outcomeDeposits[i]) * m, p.lpSupply + m)
  {
    hide AddLiquidity, RemoveLiquidity, TruncDiv;
    if AddThenBurn(p, amount, amounts).Ok? {
      AddParts(p, amount, amounts);
      var added := AddLiquidity(p, amount, amounts).value;
      RemoveParts(added.pool, added.lp.lpTokensMinted);
      MintParts(if |p.reserves| > 0 then p.reserves[0] else 0, amount, p.collateral, p.lpSupply);
    }
  }

  /** Adding liquidity and distributing fees keep the pool valid. */
  lemma DepositsKeepValid(p: Pool, amount: int, amounts: seq<int>)
    requires Valid(p)
    ensures AddLiquidity(p, amount, amounts).Ok? ==> Valid(AddLiquidity(p, amount, amounts).value.pool)
    ensures DistributeFees(p).Ok? ==> Valid(DistributeFees(p).value.0)
  {
    if AddLiquidity(p, amount, amounts).Ok? && p.lpSupply != 0 {
      var r := AddLiquidity(p, amount, amounts).value;
      assert p.collateral != 0;
      AddParts(p, amount, amounts);
      MintParts(if |p.reserves| > 0 then p.reserves[0] else 0, amount, p.collateral, p.lpSupply);
      forall i | 0 <= i < |p.reserves|
        ensures 0 <= r.pool.reserves[i]
      {
        MintParts(p.reserves[i], amount, p.collateral, p.lpSupply);
      }
    }
  }

  lemma NoOutcomeGainAt(p: Pool, amount: int, amounts: seq<int>, i: nat)
    requires Valid(p) && 0 < p.lpSupply && 0 < p.collateral && i < |p.reserves|
    ensures AddThenBurn(p, amount, amounts).Ok? ==>
            var r := AddThenBurn(p, amount, amounts).value;
            && |r.0.outcomeDeposits| == |r.1.outcomeDeposits| == |p.reserves|
            && r.1.outcomeDeposits[i] <= r.0.outcomeDeposits[i]
  {
    hide AddThenBurn, TruncDiv;
    if AddThenBurn(p, amount, amounts).Ok? {
      AddThenBurnParts(p, amount, amounts);
      OutcomeArithmetic(p.reserves[i], amount, p.collateral, p.lpSupply);
    }
  }

  /** No outcome token is gained by depositing and burning the minted shares. */
  lemma NoOutcomeGain(p: Pool, amount: int, amounts: seq<int>)
    requires Valid(p) && 0 < p.lpSupply && 0 < p.collateral
    ensures AddThenBurn(p, amount, amounts).Ok? ==>
            var r := AddThenBurn(p, amount, amounts).value;
            && |r.0.outcomeDeposits| == |r.1.outcomeDeposits| == |p.reserves|
            && forall i :: 0 <= i < |p.reserves| ==> r.1.outcomeDeposits[i] <= r.0.outcomeDeposits[i]
  {
    hide AddThenBurn, TruncDiv;
    if AddThenBurn(p, amount, amounts).Ok? {
      AddThenBurnParts(p, amount, amounts);
      forall i | 0 <= i < |p.reserves|
        ensures var r := AddThenBurn(p, amount, amounts).value;
                r.1.outcomeDeposits[i] <= r.0.outcomeDeposits[i]
      {
        NoOutcomeGainAt(p, amount, amounts, i);
      }
    }
  }

  /** No completed deposit and burn returns more collateral than it put in. */
  ghost predicate NeverGainsCollateral(p: Pool) {
    forall amount, amounts :: AddThenBurn(p, amount, amounts).Ok? ==>
      AddThenBurn(p, amount, amounts).value.1.collateralDeposited
      <= AddThenBurn(p, amount, amounts).value.0.collateralDeposited
  }

  /** Collateral c against outcome 0's reserve r: no gain while r + 1 >= c. */
  lemma NoGainArithmetic(c: int, r: int, amount: int, s: int)
    requires 0 < c <= r + 1 && 0 < amount && 0 < s
    ensures var m := TruncDiv(amount * s, c);
            var d := TruncDiv(r * amount, c);
            0 <= m && 0 <= d && TruncDiv((c + d) * m, s + m) <= d
  {
    var m := TruncDiv(amount * s, c);
    var d := TruncDiv(r * amount, c);
    MintParts(r, amount, c, s);
    MulMono(c, r + 1, m);
    assert (r + 1) * m == r * m + m;
    BurnQuotient(c, d, m, s);
  }

  /** Depositing the whole collateral c mints s more shares and takes exactly r. */
  lemma DoublingArithmetic(c: int, r: int, s: int)
    requires 0 < c && 0 <= r && 0 < s
    ensures TruncDiv(c * s, c) == s && TruncDiv(r * c, c) == r
    ensures TruncDiv((c + r) * s, s + s) <= r <==> c <= r + 1
  {
    ExactQuotient(s, c);
    ExactQuotient(r, c);
    BurnQuotient(c, r, s, s);
    assert r * s + s + s == (r + 2) * s;
    if c <= r + 1 {
      MulMono(c + 1, r + 2, s);
      assert (c + 1) * s == c * s + s;
    } else {
      MulMono(r + 2, c, s);
    }
  }

  /**
   The deposit matches collateral at the rate of outcome 0, so it is fair in collateral for every
   amount exactly when outcome 0's reserve is not below the collateral by more than one. The one
   deposit of the pool's whole collateral is enough to see a gain in every other pool.
   */
  lemma CollateralFairIff(p: Pool, amounts: seq<int>)
    requires Valid(p) && 0 < p.lpSupply && 0 < p.collateral && 0 < |p.reserves|
    ensures AddThenBurn(p, p.collateral, amounts).Ok? ==>
            (NeverGainsCollateral(p) <==> p.reserves[0] + 1 >= p.collateral)
  {
    hide AddThenBurn, TruncDiv;
    if AddThenBurn(p, p.collateral, amounts).Ok? {
      DoublingArithmetic(p.collateral, p.reserves[0], p.lpSupply);
      AddThenBurnParts(p, p.collateral, amounts);
      if p.reserves[0] + 1 >= p.collateral {
        forall amount, given | AddThenBurn(p, amount, given).Ok?
          ensures AddThenBurn(p, amount, given).value.1.collateralDeposited
                  <= AddThenBurn(p, amount, given).value.0.collateralDeposited
        {
          NoCollateralGain(p, amount, given);
        }
      }
    }
  }

  lemma NoCollateralGain(p: Pool, amount: int, amounts: seq<int>)
    requires Valid(p) && 0 < p.lpSupply && 0 < p.collateral && 0 < |p.reserves|
    requires p.reserves[0] + 1 >= p.collateral
    ensures AddThenBurn(p, amount, amounts).Ok? ==>
            var r := AddThenBurn(p, amount, amounts).value;
            r.1.collateralDeposited <= r.0.collateralDeposited
  {
    hide AddThenBurn, Valid, TruncDiv;
    if AddThenBurn(p, amount, amounts).Ok? {
      AddThenBurnParts(p, amount, amounts);
      NoGainArithmetic(p.collateral, p.reserves[0], amount, p.lpSupply);
    }
  }

  lemma ExactFloor(n: int, x: int, c: int)
    requires 0 < c && n == x * c
    ensures n / c == x
  {
    FloorIff(x, n, c);
    FloorIff(x + 1, n, c);
  }

  lemma ExactQuotient(x: int, c: int)
    requires 0 <= x && 0 < c
    ensures TruncDiv(x * c, c) == x && TruncDiv(c * x, c) == x
  {
    var n := x * c;
    assert n == c * x >= 0;
    ExactFloor(n, x, c);
  }

  /** A pool whose outcome 0 was bought up: depositing 2000 and burning returns 1500 for the 1000 taken. */
  lemma CollateralGainExample()
    ensures var p := Pool(2_000, [1_000], 1_000, [2_000_000], 0, 0);
            && Valid(p)
            && AddThenBurn(p, 2_000, [0]).Ok?
            && AddThenBurn(p, 2_000, [0]).value.0.collateralDeposited == 1_000
            && AddThenBurn(p, 2_000, [0]).value.1.collateralDeposited == 1_500
  {
    var p := Pool(2_000, [1_000], 1_000, [2_000_000], 0, 0);
    assert p.ks[0] == p.collateral * p.reserves[0];
    assert Deposits(p, 2_000, 0) == Ok([]);
    assert Proportion(1_000, 2_000, 2_000) == Ok(1_000);
    assert [] + [1_000] == [1_000];
    assert Deposits(p, 2_000, |p.reserves|) == Ok([1_000]);
    assert CheckedDiv(2_000 * 1_000, 2_000, ArithmeticOverflow) == Ok(1_000);
    assert p.reserves[0] == 1_000;
    var q := Pool(3_000, [2_000], 2_000, [6_000_000], 0, 0);
    assert Plus([1_000], [1_000]) == [2_000];
    assert AllK(3_000, [2_000]).Ok? by { assert FitsI128(3_000 * [2_000][0]); }
    assert AllK(3_000, [2_000]).value == [6_000_000];
    assert AddLiquidity(p, 2_000, [0]) == Ok(Provided(q, LPResult(1_000, 1_000, [1_000])));
    assert Withdrawals(q, 1_000, 0) == Ok([]);
    assert Share(2_000, 1_000, 2_000) == Ok(1_000);
    assert Withdrawals(q, 1_000, 1) == Ok([] + [1_000]);
    assert Minus([2_000], [1_000]) == [1_000];
    assert AllK(1_500, [1_000]).Ok? by { assert FitsI128(1_500 * [1_000][0]); }
  }

  /** The tolerance of the self-check: a stored k passes that is within one of the product, and one so far away
      that their difference or its absolute value wraps around. */
  lemma DistanceIff(k: i128, expected: i128)
    ensures Distance(k, expected) <= 1
            <==> Abs(k - expected) <= 1 || Abs(k - expected) == TWO_128 / 2 || Abs(k - expected) == TWO_128 - 1
  {
    var d := k - expected;
    var n := WrapShift(d);
    assert -1 <= n <= 1;
    if FitsI128(d) {
      assert Distance(k, expected) == WrapI128(Abs(d));
    } else {
      assert WrapI128(d) == d - n * TWO_128;
    }
  }
}
