/**
 One prediction market's storage and its liquidity and trading entry points. Every storage key the
 entry points touch carries the market's id, so the state of one market is a state of its own.
 */
module Market {
  import opened Wrappers
  import opened Checked
  import opened Host
  import opened Cpmm
  import opened Sums

  datatype MarketStatus = Active | PendingResolution | Resolved | Disputed | Closed | MarketCancelled

  datatype MarketInfo = MarketInfo(
    status: MarketStatus,
    tradingEnd: u64,
    outcomes: nat,
    maxOutcomeSupply: int,
    feeBps: int,
    totalCollateral: int)

  datatype State = State(
    market: Option<MarketInfo>,
    pool: Option<Pool>,
    lpBalances: map<Address, int>,
    lpTotalSupply: int,
    outcomeBalances: map<(Address, nat), int>,
    tradingVolume: int)

  /** A market as `create_market` leaves it: no pool, no balances. */
  function Fresh(m: MarketInfo): State {
    State(Some(m), None, map[], 0, map[], 0)
  }

  /** What a successful call reports to its caller. */
  datatype Report =
    | Deposited(lp: LPResult)
    | Withdrawn(lp: LPResult)
    | Traded(buy: bool, swap: SwapResult)
    | Distributed(fees: int)
    | Moved

  datatype Done = Done(state: State, report: Report)

  datatype Call =
    | CreateLiquidityPool(creator: Address, seed: int)
    | AddLiquidity(provider: Address, amount: int)
    | RemoveLiquidity(provider: Address, lp: int)
    | BuyOutcome(buyer: Address, outcome: nat, amount: int, minTokens: int, now: u64)
    | SellOutcome(seller: Address, outcome: nat, tokens: int, minCollateral: int, now: u64)
    | DistributeFees(byAdmin: bool)
    | ChangeStatus(status: MarketStatus)  // any of the resolution, dispute and closing entry points

  predicate TradingOpen(m: MarketInfo, now: u64) {
    m.status == Active && now < m.tradingEnd
  }

  /** Credit a provider with freshly minted LP tokens, in its balance and in the total. */
  function CreditLp(s: State, who: Address, minted: int): Result<State, PredictionError> {
    var balance :- CheckedAdd(At(s.lpBalances, who), minted, ArithmeticOverflow);
    var supply :- CheckedAdd(s.lpTotalSupply, minted, ArithmeticOverflow);
    Ok(s.(lpBalances := s.lpBalances[who := balance], lpTotalSupply := supply))
  }

  function CreatePool(s: State, creator: Address, seed: int): Result<Done, PredictionError> {
    if s.market.None? then Err(MarketNotFound)
    else if s.market.value.status != Active then Err(MarketNotTradable)
    else
      var m := s.market.value;
      var pool :- Cpmm.Create(m.outcomes, seed);
      var t :- CreditLp(s, creator, seed);
      Ok(Done(t.(market := Some(m.(totalCollateral := seed)), pool := Some(pool)),
              Deposited(LPResult(seed, seed, seq(m.outcomes, _ => seed)))))
  }

  function Add(s: State, provider: Address, amount: int): Result<Done, PredictionError> {
    if s.market.None? then Err(MarketNotFound)
    else if s.market.value.status != Active then Err(MarketNotTradable)
    else if s.pool.None? then Err(NoLiquidityPool)
    else
      var m := s.market.value;
      var added :- Cpmm.AddLiquidity(s.pool.value, amount, seq(|s.pool.value.reserves|, _ => amount));
      var t :- CreditLp(s, provider, added.lp.lpTokensMinted);
      var total :- CheckedAdd(m.totalCollateral, amount, ArithmeticOverflow);
      Ok(Done(t.(market := Some(m.(totalCollateral := total)), pool := Some(added.pool)), Deposited(added.lp)))
  }

  function Remove(s: State, provider: Address, lp: int): Result<Done, PredictionError> {
    if s.pool.None? then Err(NoLiquidityPool)
    else
      var removed :- Cpmm.RemoveLiquidity(s.pool.value, lp);
      var balance :- CheckedSub(At(s.lpBalances, provider), lp, InsufficientBalance);
      var supply :- CheckedSub(s.lpTotalSupply, lp, ArithmeticOverflow);
      Ok(Done(s.(pool := Some(removed.pool), lpBalances := s.lpBalances[provider := balance],
                 lpTotalSupply := supply),
              Withdrawn(removed.lp)))
  }

  /** The running sum of the first n reserves. */
  function SumReserves(reserves: seq<int>, n: nat): Result<int, PredictionError>
    requires n <= |reserves|
  {
    if n == 0 then Ok(0)
    else
      var before :- SumReserves(reserves, n - 1);
      CheckedAdd(before, reserves[n - 1], ArithmeticOverflow)
  }

  function WithinCap(m: MarketInfo, supply: int, amount: int): Result<(), PredictionError> {
    if m.maxOutcomeSupply <= 0 then Ok(())
    else
      var after :- CheckedAdd(supply, amount, ArithmeticOverflow);
      if after > m.maxOutcomeSupply then Err(MarketCapReached) else Ok(())
  }

  function Buy(s: State, buyer: Address, i: nat, amount: int, minTokens: int, now: u64)
    : Result<Done, PredictionError>
  {
    if s.market.None? then Err(MarketNotFound)
    else if !TradingOpen(s.market.value, now) then Err(MarketNotTradable)
    else if i >= s.market.value.outcomes then Err(InvalidOutcomeIndex)
    else if s.pool.None? then Err(NoLiquidityPool)
    else
      var m := s.market.value;
      var supply :- SumReserves(s.pool.value.reserves, |s.pool.value.reserves|);
      var _ :- WithinCap(m, supply, amount);
      var r :- Cpmm.Buy(s.pool.value, i, amount, m.feeBps, minTokens);
      var balance :- CheckedAdd(At(s.outcomeBalances, (buyer, i)), r.swap.outcomeAmount, ArithmeticOverflow);
      var volume :- CheckedAdd(s.tradingVolume, amount, ArithmeticOverflow);
      Ok(Done(s.(pool := Some(r.pool), outcomeBalances := s.outcomeBalances[(buyer, i) := balance],
                 tradingVolume := volume),
              Traded(true, r.swap)))
  }

  function Sell(s: State, seller: Address, i: nat, tokens: int, minCollateral: int, now: u64)
    : Result<Done, PredictionError>
  {
    if s.market.None? then Err(MarketNotFound)
    else if !TradingOpen(s.market.value, now) then Err(MarketNotTradable)
    else if i >= s.market.value.outcomes then Err(InvalidOutcomeIndex)
    else if At(s.outcomeBalances, (seller, i)) < tokens then Err(InsufficientBalance)
    else if s.pool.None? then Err(NoLiquidityPool)
    else
      var r :- Cpmm.Sell(s.pool.value, i, tokens, s.market.value.feeBps, minCollateral);
      var balance :- CheckedSub(At(s.outcomeBalances, (seller, i)), tokens, ArithmeticOverflow);
      var volume :- CheckedAdd(s.tradingVolume, r.swap.collateralAmount, ArithmeticOverflow);
      Ok(Done(s.(pool := Some(r.pool), outcomeBalances := s.outcomeBalances[(seller, i) := balance],
                 tradingVolume := volume),
              Traded(false, r.swap)))
  }

  function Distribute(s: State, byAdmin: bool): Result<Done, PredictionError> {
    if !byAdmin then Err(Unauthorized)
    else if s.pool.None? then Err(NoLiquidityPool)
    else
      var (pool, fees) :- Cpmm.DistributeFees(s.pool.value);
      Ok(Done(s.(pool := Some(pool)), Distributed(fees)))
  }

  function Apply(s: State, c: Call): Result<Done, PredictionError> {
    match c
    case CreateLiquidityPool(creator, seed) => CreatePool(s, creator, seed)
    case AddLiquidity(provider, amount) => Add(s, provider, amount)
    case RemoveLiquidity(provider, lp) => Remove(s, provider, lp)
    case BuyOutcome(buyer, i, amount, minTokens, now) => Buy(s, buyer, i, amount, minTokens, now)
    case SellOutcome(seller, i, tokens, minCollateral, now) => Sell(s, seller, i, tokens, minCollateral, now)
    case DistributeFees(byAdmin) => Distribute(s, byAdmin)
    case ChangeStatus(status) =>
      if s.market.None? then Err(MarketNotFound)
      else Ok(Done(s.(market := Some(s.market.value.(status := status))), Moved))
  }

  /** A failed call rolls back and reports nothing. */
  function Step(s: State, c: Call): Done {
    match Apply(s, c)
    case Ok(d) => d
    case Err(_) => Done(s, Moved)
  }

  /** What the caller gets back. */
  function Answer(s: State, c: Call): Result<Report, PredictionError> {
    Apply(s, c).Map((d: Done) => d.report)
  }

  datatype History = History(state: State, reports: seq<Report>)

  function Run(s: State, calls: seq<Call>): History {
    if calls == [] then History(s, [])
    else
      var before := Run(s, calls[..|calls| - 1]);
      var d := Step(before.state, calls[|calls| - 1]);
      History(d.state, before.reports + [d.report])
  }
}

/** Conservation over every run of one market. */
module MarketLaws {
  import CpmmLaws
  import opened Wrappers
  import opened Checked
  import opened Host
  import opened Cpmm
  import opened Sums
  import opened Market

  /** Collateral a report says moved into the market (negative when it left). */
  function CollateralIn(r: Report): int {
    match r
    case Deposited(lp) => lp.collateralDeposited
    case Withdrawn(lp) => -lp.collateralDeposited
    case Traded(buy, swap) => if buy then swap.collateralAmount else -swap.collateralAmount
    case _ => 0
  }

  /** Tokens of outcome i a report says liquidity providers put in (negative when they left). */
  function OutcomeIn(r: Report, i: nat): int {
    match r
    case Deposited(lp) => if i < |lp.outcomeDeposits| then lp.outcomeDeposits[i] else 0
    case Withdrawn(lp) => if i < |lp.outcomeDeposits| then -lp.outcomeDeposits[i] else 0
    case _ => 0
  }

  function SumCollateral(rs: seq<Report>): int {
    if rs == [] then 0 else SumCollateral(rs[..|rs| - 1]) + CollateralIn(rs[|rs| - 1])
  }

  function SumOutcome(rs: seq<Report>, i: nat): int {
    if rs == [] then 0 else SumOutcome(rs[..|rs| - 1], i) + OutcomeIn(rs[|rs| - 1], i)
  }

  /** Every user's balance of one outcome. */
  ghost function Holders(m: map<(Address, nat), int>, i: nat): map<(Address, nat), int> {
    map k | k in m && k.1 == i :: m[k]
  }

  function Reserve(s: State, i: nat): int {
    if s.pool.Some? && i < |s.pool.value.reserves| then s.pool.value.reserves[i] else 0
  }

  /** Tokens of outcome i in existence: in the pool and with the users. */
  ghost function OutcomeSupply(s: State, i: nat): int {
    Reserve(s, i) + Total(Holders(s.outcomeBalances, i))
  }

  /** Collateral the market holds, in the reserve and as undistributed fees. */
  function Held(s: State): int {
    if s.pool.Some? then s.pool.value.collateral + s.pool.value.fees else 0
  }

  /** The stored k_i are exact and representable, one for every outcome of the market. */
  ghost predicate Tracked(s: State) {
    s.market.Some? && (s.pool.Some? ==>
      && Exact(s.pool.value) && |s.pool.value.reserves| == s.market.value.outcomes
      && forall i :: 0 <= i < |s.pool.value.reserves| ==>
           FitsI128(s.pool.value.collateral * s.pool.value.reserves[i]))
  }

  /** The recorded total is the sum of the provider balances. */
  ghost predicate LpCounted(s: State) {
    Total(s.lpBalances) == s.lpTotalSupply
  }

  /** What a pool holds, its own supply of LP tokens included. */
  datatype Quantity = Collateral | LpTokens | Outcome(i: nat)

  function InPool(s: State, q: Quantity): int {
    match q
    case Collateral => Held(s)
    case LpTokens => if s.pool.Some? then s.pool.value.lpSupply else 0
    case Outcome(i) => Reserve(s, i)
  }

  /** LP tokens that are recorded with a provider and are not those of the pool. */
  function Stranded(s: State): int {
    s.lpTotalSupply - InPool(s, LpTokens)
  }

  /** What the market no longer holds because a new pool took the place of the old one. */
  function DroppedBy(s: State, c: Call, q: Quantity): int {
    if c.CreateLiquidityPool? && Apply(s, c).Ok? then InPool(s, q) else 0
  }

  lemma HoldersUpdate(m: map<(Address, nat), int>, k: (Address, nat), v: int, i: nat)
    ensures Total(Holders(m[k := v], i)) == Total(Holders(m, i)) + if k.1 == i then v - At(m, k) else 0
  {
    if k.1 == i {
      assert Holders(m[k := v], i) == Holders(m, i)[k := v];
      TotalUpdate(Holders(m, i), k, v);
    } else {
      assert Holders(m[k := v], i) == Holders(m, i);
    }
  }

  /** The effect of one swap on a pool, whatever the fee rate: only sums, no rounding. */
  lemma SwapSums(p: Pool, i: nat, amount: int, feeBps: int, bound: int)
    requires |p.ks| == |p.reserves|
    ensures Cpmm.Buy(p, i, amount, feeBps, bound).Ok? ==>
              var r := Cpmm.Buy(p, i, amount, feeBps, bound).value;
              && i < |p.reserves| && |r.pool.reserves| == |p.reserves| && Kept(r.pool)
              && r.pool.collateral + r.pool.fees == p.collateral + p.fees + r.swap.collateralAmount
              && r.swap.collateralAmount == amount && r.pool.lpSupply == p.lpSupply
              && r.pool.reserves == p.reserves[i := p.reserves[i] - r.swap.outcomeAmount]
    ensures Cpmm.Sell(p, i, amount, feeBps, bound).Ok? ==>
              var r := Cpmm.Sell(p, i, amount, feeBps, bound).value;
              && i < |p.reserves| && |r.pool.reserves| == |p.reserves| && Kept(r.pool)
              && r.pool.collateral + r.pool.fees == p.collateral + p.fees - r.swap.collateralAmount
              && r.swap.outcomeAmount == amount && r.pool.lpSupply == p.lpSupply
              && r.pool.reserves == p.reserves[i := p.reserves[i] + amount]
  {
  }

  ghost predicate Kept(p: Pool) {
    Exact(p) && forall i :: 0 <= i < |p.reserves| ==> FitsI128(p.collateral * p.reserves[i])
  }

  lemma LiquiditySums(p: Pool, amount: int, amounts: seq<int>)
    requires |p.ks| == |p.reserves|
    ensures Cpmm.AddLiquidity(p, amount, amounts).Ok? ==>
              var r := Cpmm.AddLiquidity(p, amount, amounts).value;
              && Kept(r.pool) && r.pool.fees == p.fees
              && |r.lp.outcomeDeposits| == |r.pool.reserves| == |p.reserves|
              && r.pool.collateral == p.collateral + r.lp.collateralDeposited
              && r.pool.lpSupply == p.lpSupply + r.lp.lpTokensMinted
              && forall i :: 0 <= i < |p.reserves| ==>
                   r.pool.reserves[i] == p.reserves[i] + r.lp.outcomeDeposits[i]
    ensures Cpmm.RemoveLiquidity(p, amount).Ok? ==>
              var r := Cpmm.RemoveLiquidity(p, amount).value;
              && Kept(r.pool) && r.pool.fees == p.fees
              && |r.lp.outcomeDeposits| == |r.pool.reserves| == |p.reserves|
              && r.pool.collateral == p.collateral - r.lp.collateralDeposited
              && r.pool.lpSupply == p.lpSupply - amount
              && forall i :: 0 <= i < |p.reserves| ==>
                   r.pool.reserves[i] == p.reserves[i] - r.lp.outcomeDeposits[i]
  {
  }

  /** What one completed call keeps, and how it moves the conserved quantities when nothing is dropped. */
  ghost predicate Conserves(s: State, d: Done, i: nat) {
    && Tracked(d.state) && LpCounted(d.state) && Stranded(d.state) == Stranded(s)
    && Held(d.state) == Held(s) + CollateralIn(d.report)
    && OutcomeSupply(d.state, i) == OutcomeSupply(s, i) + OutcomeIn(d.report, i)
  }

  /** The same for any call, with what a creation drops. */
  ghost predicate Accounted(s: State, c: Call, i: nat) {
    var d := Step(s, c);
    && Tracked(d.state) && LpCounted(d.state) && Stranded(d.state) == Stranded(s) + DroppedBy(s, c, LpTokens)
    && Held(d.state) == Held(s) + CollateralIn(d.report) - DroppedBy(s, c, Collateral)
    && OutcomeSupply(d.state, i) == OutcomeSupply(s, i) + OutcomeIn(d.report, i) - DroppedBy(s, c, Outcome(i))
  }

  lemma CreateAccounts(s: State, creator: Address, seed: int, i: nat)
    requires Tracked(s) && LpCounted(s)
    requires CreatePool(s, creator, seed).Ok?
    ensures Accounted(s, CreateLiquidityPool(creator, seed), i)
  {
    TotalUpdate(s.lpBalances, creator, At(s.lpBalances, creator) + seed);
  }

  lemma AddConserves(s: State, provider: Address, amount: int, i: nat)
    requires Tracked(s) && LpCounted(s)
    requires Add(s, provider, amount).Ok?
    ensures Conserves(s, Add(s, provider, amount).value, i)
  {
    var d := Add(s, provider, amount).value;
    LiquiditySums(s.pool.value, amount, seq(|s.pool.value.reserves|, _ => amount));
    TotalUpdate(s.lpBalances, provider, d.state.lpBalances[provider]);
  }

  lemma RemoveConserves(s: State, provider: Address, lp: int, i: nat)
    requires Tracked(s) && LpCounted(s)
    requires Remove(s, provider, lp).Ok?
    ensures Conserves(s, Remove(s, provider, lp).value, i)
  {
    var d := Remove(s, provider, lp).value;
    LiquiditySums(s.pool.value, lp, []);
    TotalUpdate(s.lpBalances, provider, d.state.lpBalances[provider]);
  }

  lemma BuyConserves(s: State, buyer: Address, j: nat, amount: int, minTokens: int, now: u64, i: nat)
    requires Tracked(s) && LpCounted(s)
    requires Market.Buy(s, buyer, j, amount, minTokens, now).Ok?
    ensures Conserves(s, Market.Buy(s, buyer, j, amount, minTokens, now).value, i)
  {
    var d := Market.Buy(s, buyer, j, amount, minTokens, now).value;
    SwapSums(s.pool.value, j, amount, s.market.value.feeBps, minTokens);
    HoldersUpdate(s.outcomeBalances, (buyer, j), d.state.outcomeBalances[(buyer, j)], i);
  }

  lemma SellConserves(s: State, seller: Address, j: nat, tokens: int, minCollateral: int, now: u64, i: nat)
    requires Tracked(s) && LpCounted(s)
    requires Market.Sell(s, seller, j, tokens, minCollateral, now).Ok?
    ensures Conserves(s, Market.Sell(s, seller, j, tokens, minCollateral, now).value, i)
  {
    var d := Market.Sell(s, seller, j, tokens, minCollateral, now).value;
    SwapSums(s.pool.value, j, tokens, s.market.value.feeBps, minCollateral);
    HoldersUpdate(s.outcomeBalances, (seller, j), d.state.outcomeBalances[(seller, j)], i);
  }

  lemma DistributeConserves(s: State, byAdmin: bool, i: nat)
    requires Tracked(s) && LpCounted(s)
    requires Distribute(s, byAdmin).Ok?
    ensures Conserves(s, Distribute(s, byAdmin).value, i)
    ensures Held(Distribute(s, byAdmin).value.state) == Held(s)
  {
  }

  /** Every call conserves but for what a creation drops, whatever the fee rate of the market. */
  lemma StepConserves(s: State, c: Call, i: nat)
    requires Tracked(s) && LpCounted(s)
    ensures Accounted(s, c, i)
  {
    if Apply(s, c).Ok? {
      match c
      case CreateLiquidityPool(creator, seed) => CreateAccounts(s, creator, seed, i);
      case AddLiquidity(provider, amount) => AddConserves(s, provider, amount, i);
      case RemoveLiquidity(provider, lp) => RemoveConserves(s, provider, lp, i);
      case BuyOutcome(buyer, j, amount, minTokens, now) => BuyConserves(s, buyer, j, amount, minTokens, now, i);
      case SellOutcome(seller, j, tokens, minOut, now) => SellConserves(s, seller, j, tokens, minOut, now, i);
      case DistributeFees(byAdmin) => DistributeConserves(s, byAdmin, i);
      case ChangeStatus(status) =>
    }
  }

  /** A creation conserves if and only if there was nothing in the pool whose place it takes. */
  lemma RecreationIff(s: State, creator: Address, seed: int)
    requires Tracked(s) && LpCounted(s)
    requires CreatePool(s, creator, seed).Ok?
    ensures (forall i: nat :: Conserves(s, CreatePool(s, creator, seed).value, i)) <==> forall q :: InPool(s, q) == 0
  {
    hide Total, CreatePool, Tracked;
    var d := CreatePool(s, creator, seed).value;
    forall i: nat
      ensures Conserves(s, d, i)
              <==> InPool(s, LpTokens) == 0 && InPool(s, Collateral) == 0 && InPool(s, Outcome(i)) == 0
    {
      CreateAccounts(s, creator, seed, i);
    }
    if forall i: nat :: Conserves(s, d, i) {
      forall q
        ensures InPool(s, q) == 0
      {
        assert Conserves(s, d, if q.Outcome? then q.i else 0);
      }
    }
  }

  /** What the creations of a run dropped. */
  function Dropped(m: MarketInfo, calls: seq<Call>, q: Quantity): int {
    if calls == [] then 0
    else
      var init := calls[..|calls| - 1];
      Dropped(m, init, q) + DroppedBy(Run(Fresh(m), init).state, calls[|calls| - 1], q)
  }

  /** The end of a run agrees with everything reported and dropped on the way to it. */
  ghost predicate Accounts(m: MarketInfo, calls: seq<Call>, i: nat) {
    var h := Run(Fresh(m), calls);
    && Tracked(h.state) && LpCounted(h.state) && Stranded(h.state) == Dropped(m, calls, LpTokens)
    && Held(h.state) == SumCollateral(h.reports) - Dropped(m, calls, Collateral)
    && OutcomeSupply(h.state, i) == SumOutcome(h.reports, i) - Dropped(m, calls, Outcome(i))
  }

  lemma SumsSnoc(rs: seq<Report>, r: Report, i: nat)
    ensures SumCollateral(rs + [r]) == SumCollateral(rs) + CollateralIn(r)
    ensures SumOutcome(rs + [r], i) == SumOutcome(rs, i) + OutcomeIn(r, i)
  {
    assert (rs + [r])[..|rs|] == rs;
  }

  /**
   In every run, up to what creations dropped: the collateral held is what the reports add up to, the supply of
   every outcome is what liquidity calls reported, and the pool's own supply of LP tokens is the recorded total.
   Each k_i is exactly C * R_i, and that total is the sum of the balances.
   */
  lemma {:induction false} RunConserves(m: MarketInfo, calls: seq<Call>, i: nat)
    ensures Accounts(m, calls, i)
  {
    hide Step, DroppedBy, CollateralIn, OutcomeIn, Stranded, Held, OutcomeSupply, SumCollateral, SumOutcome;
    if calls == [] {
      FreshAccounts(m, i);
    } else {
      var init, last := calls[..|calls| - 1], calls[|calls| - 1];
      RunConserves(m, init, i);
      var before := Run(Fresh(m), init);
      StepConserves(before.state, last, i);
      SumsSnoc(before.reports, Step(before.state, last).report, i);
    }
  }

  lemma FreshAccounts(m: MarketInfo, i: nat)
    ensures Accounts(m, [], i)
  {
    assert Holders(map[], i) == map[];
  }

  /** No creation of a run took the place of a pool with any of this quantity in it. */
  ghost predicate NoneDropped(m: MarketInfo, calls: seq<Call>, q: Quantity) {
    forall k :: 0 <= k < |calls| ==> DroppedBy(Run(Fresh(m), calls[..k]).state, calls[k], q) == 0
  }

  ghost predicate NothingDropped(m: MarketInfo, calls: seq<Call>) {
    forall q :: NoneDropped(m, calls, q)
  }

  /** The end of a run agrees with everything reported. */
  ghost predicate AllThere(m: MarketInfo, calls: seq<Call>) {
    var h := Run(Fresh(m), calls);
    && Held(h.state) == SumCollateral(h.reports)
    && h.state.lpTotalSupply == InPool(h.state, LpTokens)
    && forall i: nat :: OutcomeSupply(h.state, i) == SumOutcome(h.reports, i)
  }

  lemma InPoolNonNegative(s: State, q: Quantity)
    requires PoolValid(s)
    ensures InPool(s, q) >= 0
  {
  }

  lemma {:induction false} DroppedIff(m: MarketInfo, calls: seq<Call>, q: Quantity)
    requires 0 <= m.feeBps <= BPS_DENOM
    ensures Dropped(m, calls, q) >= 0
    ensures Dropped(m, calls, q) == 0 <==> NoneDropped(m, calls, q)
  {
    hide Run, PoolValid, InPool;
    if calls != [] {
      var n := |calls| - 1;
      var init := calls[..n];
      DroppedIff(m, init, q);
      RunKeepsValid(m, init);
      InPoolNonNegative(Run(Fresh(m), init).state, q);
      assert forall k :: 0 <= k < n ==> init[..k] == calls[..k] && init[k] == calls[k];
    }
  }

  /** At a fee rate from 0 to 100% everything reported is there if and only if no creation dropped anything. */
  lemma RunExactIff(m: MarketInfo, calls: seq<Call>)
    requires 0 <= m.feeBps <= BPS_DENOM
    ensures AllThere(m, calls) <==> NothingDropped(m, calls)
  {
    hide Run, Held, OutcomeSupply, InPool, Tracked, LpCounted, NoneDropped, SumCollateral, SumOutcome, Dropped;
    forall q
      ensures Dropped(m, calls, q) == 0 <==> NoneDropped(m, calls, q)
    {
      DroppedIff(m, calls, q);
    }
    forall i: nat
      ensures Accounts(m, calls, i)
    {
      RunConserves(m, calls, i);
    }
    var h := Run(Fresh(m), calls);
    assert Accounts(m, calls, 0);
    if AllThere(m, calls) {
      forall q
        ensures NoneDropped(m, calls, q)
      {
        match q
        case Collateral =>
        case LpTokens =>
        case Outcome(i) => assert Accounts(m, calls, i) && OutcomeSupply(h.state, i) == SumOutcome(h.reports, i);
      }
    }
    if NothingDropped(m, calls) {
      assert NoneDropped(m, calls, Collateral) && NoneDropped(m, calls, LpTokens);
      forall i: nat
        ensures OutcomeSupply(h.state, i) == SumOutcome(h.reports, i)
      {
        assert Accounts(m, calls, i) && NoneDropped(m, calls, Outcome(i));
      }
    }
  }

  /** One creation at most. */
  ghost predicate CreatedAtMostOnce(calls: seq<Call>) {
    forall a, b :: 0 <= a < b < |calls| ==> !(calls[a].CreateLiquidityPool? && calls[b].CreateLiquidityPool?)
  }

  lemma {:induction false} NotYetCreated(m: MarketInfo, calls: seq<Call>)
    requires forall k :: 0 <= k < |calls| ==> !calls[k].CreateLiquidityPool?
    ensures Run(Fresh(m), calls).state.pool.None?
  {
    if calls != [] {
      NotYetCreated(m, calls[..|calls| - 1]);
    }
  }

  /** It drops nothing. */
  lemma OnceDropsNothing(m: MarketInfo, calls: seq<Call>)
    requires CreatedAtMostOnce(calls)
    ensures NothingDropped(m, calls)
  {
    hide Run, Apply;
    forall k, q | 0 <= k < |calls|
      ensures DroppedBy(Run(Fresh(m), calls[..k]).state, calls[k], q) == 0
    {
      if calls[k].CreateLiquidityPool? {
        NotYetCreated(m, calls[..k]);
      }
    }
    assert forall q :: NoneDropped(m, calls, q);
  }

  /** A second pool of 1000 takes the place of a first one: of 2000 put in, 1000 are left to 2000 LP tokens. */
  lemma RecreationExample(m: MarketInfo, a: Address, b: Address)
    requires m.status == Active && m.outcomes == 2 && a != b
    ensures var calls := [CreateLiquidityPool(a, 1000), CreateLiquidityPool(b, 1000)];
            var h := Run(Fresh(m), calls);
            && SumCollateral(h.reports) == 2000 && Held(h.state) == 1000
            && SumOutcome(h.reports, 0) == 2000 && OutcomeSupply(h.state, 0) == 1000
            && h.state.lpTotalSupply == 2000 && InPool(h.state, LpTokens) == 1000
            && h.state.lpBalances == map[a := 1000, b := 1000]
  {
    hide Run, Step, Total, SumCollateral, SumOutcome, Holders;
    var s, r := Fresh(m), Deposited(LPResult(1000, 1000, seq(2, _ => 1000)));
    RunTwo(s, CreateLiquidityPool(a, 1000), CreateLiquidityPool(b, 1000));
    CreateStep(s, a);
    CreateStep(Step(s, CreateLiquidityPool(a, 1000)).state, b);
    SumsTwo(r, 0);
    NoHolders(0);
  }

  lemma RunTwo(s: State, c: Call, d: Call)
    ensures var t := Step(s, c);
            Run(s, [c, d]) == History(Step(t.state, d).state, [t.report, Step(t.state, d).report])
  {
    hide Step;
    assert [c, d][..1] == [c] && [c][..0] == [];
    assert Run(s, []) == History(s, []);
    assert Run(s, [c]) == History(Step(s, c).state, [] + [Step(s, c).report]);
  }

  lemma SumsTwo(r: Report, i: nat)
    ensures SumCollateral([r, r]) == 2 * CollateralIn(r) && SumOutcome([r, r], i) == 2 * OutcomeIn(r, i)
  {
    hide CollateralIn, OutcomeIn;
    SumsSnoc([], r, i);
    SumsSnoc([r], r, i);
    assert [] + [r] == [r] && [r] + [r] == [r, r];
  }

  lemma NoHolders(i: nat)
    ensures Total(Holders(map[], i)) == 0
  {
    assert Holders(map[], i) == map[];
  }

  lemma CreateStep(s: State, who: Address)
    requires s.market.Some? && s.market.value.status == Active && s.market.value.outcomes == 2
    requires At(s.lpBalances, who) == 0 && 0 <= s.lpTotalSupply <= 1000
    ensures var t := Step(s, CreateLiquidityPool(who, 1000));
            && t.report == Deposited(LPResult(1000, 1000, seq(2, _ => 1000)))
            && t.state.lpBalances == s.lpBalances[who := 1000] && t.state.lpTotalSupply == s.lpTotalSupply + 1000
            && t.state.outcomeBalances == s.outcomeBalances
            && t.state.market == Some(s.market.value.(totalCollateral := 1000))
            && t.state.pool == Some(NewPool(2))
  {
    assert Cpmm.Create(2, 1000).value.ks == seq(2, _ => 1000000);
  }

  ghost predicate PoolValid(s: State) {
    s.pool.Some? ==> Valid(s.pool.value)
  }

  predicate Trades(s: State, c: Call) {
    (c.BuyOutcome? || c.SellOutcome?) && Apply(s, c).Ok?
  }

  lemma StepKeepsValid(s: State, c: Call)
    requires PoolValid(s)
    requires s.market.Some? && Trades(s, c) ==> 0 <= s.market.value.feeBps <= BPS_DENOM
    ensures PoolValid(Step(s, c).state)
    ensures Step(s, c).state.market.Some? <==> s.market.Some?
    ensures s.market.Some? ==> Step(s, c).state.market.value.feeBps == s.market.value.feeBps
  {
    if Apply(s, c).Ok? {
      match c
      case CreateLiquidityPool(creator, seed) =>
      case AddLiquidity(provider, amount) =>
        CpmmLaws.DepositsKeepValid(s.pool.value, amount, seq(|s.pool.value.reserves|, _ => amount));
      case RemoveLiquidity(provider, lp) => CpmmLaws.RemoveIsFair(s.pool.value, lp);
      case BuyOutcome(buyer, j, amount, minTokens, now) =>
        CpmmLaws.BuyRounding(s.pool.value, j, amount, s.market.value.feeBps, minTokens);
      case SellOutcome(seller, j, tokens, minOut, now) =>
        CpmmLaws.SellRounding(s.pool.value, j, tokens, s.market.value.feeBps, minOut);
      case DistributeFees(byAdmin) => CpmmLaws.DepositsKeepValid(s.pool.value, 0, []);
      case ChangeStatus(status) =>
    }
  }

  /** With a fee rate between 0 and 100%, every reachable pool meets the assumptions of the swap laws. */
  lemma {:induction false} RunKeepsValid(m: MarketInfo, calls: seq<Call>)
    requires 0 <= m.feeBps <= BPS_DENOM
    ensures PoolValid(Run(Fresh(m), calls).state)
    ensures Run(Fresh(m), calls).state.market.Some?
    ensures Run(Fresh(m), calls).state.market.value.feeBps == m.feeBps
  {
    if calls != [] {
      RunKeepsValid(m, calls[..|calls| - 1]);
      StepKeepsValid(Run(Fresh(m), calls[..|calls| - 1]).state, calls[|calls| - 1]);
    }
  }

  /** A rate so far below zero that the price impact of paying a single unit does not fit. */
  predicate Prohibitive(feeBps: i128) {
    TruncDiv(feeBps, BPS_DENOM) == TruncDiv(I128_MIN, BPS_DENOM)
  }

  /** Nothing was traded: liquidity calls keep every reserve equal to the collateral. */
  ghost predicate Untraded(s: State) {
    && s.outcomeBalances == map[]
    && (s.pool.Some? ==> s.pool.value.fees == 0 && forall i :: 0 <= i < |s.pool.value.reserves| ==>
          s.pool.value.reserves[i] == s.pool.value.collateral)
  }

  lemma ProhibitiveRange(feeBps: i128)
    requires Prohibitive(feeBps)
    ensures feeBps < 0 && 2 * feeBps < I128_MIN && TruncDiv(feeBps, BPS_DENOM) < 0
    ensures !FitsI128((1 - TruncDiv(feeBps, BPS_DENOM)) * BPS_DENOM)
  {
  }

  lemma ProhibitiveFee(amount: int, feeBps: i128)
    requires Prohibitive(feeBps) && amount > 0
    ensures var fee := Fee(amount, feeBps);
            fee.Ok? ==> amount == 1 && fee.value < 0 && !FitsI128((1 - fee.value) * BPS_DENOM)
  {
    hide TruncDiv, Prohibitive;
    ProhibitiveRange(feeBps);
    if amount > 1 {
      MulMono(2, amount, 0 - feeBps);
      assert amount * feeBps == -(amount * (0 - feeBps));
    } else {
      assert 1 * feeBps == feeBps;
    }
  }

  lemma NoBuyFits(p: Pool, i: nat, amount: int, feeBps: i128, minOut: int)
    requires Valid(p) && Prohibitive(feeBps) && forall j :: 0 <= j < |p.reserves| ==> p.reserves[j] == p.collateral
    ensures Cpmm.Buy(p, i, amount, feeBps, minOut).Err?
  {
    hide AllK, Fee, Prohibitive, TruncDiv;
    if amount > 0 && i < |p.reserves| && Fee(amount, feeBps).Ok? {
      ProhibitiveFee(amount, feeBps);
      if p.collateral == 0 {
        assert p.ks[i] == 0;
        CpmmLaws.Requote(0, 0, 1 - Fee(amount, feeBps).value);
      }
    }
  }

  lemma NoTradeFits(s: State, c: Call)
    requires PoolValid(s) && Untraded(s) && s.market.Some? && FitsI128(s.market.value.feeBps)
    requires Prohibitive(s.market.value.feeBps)
    ensures !Trades(s, c)
  {
    hide Cpmm.Buy, SumReserves, WithinCap, Prohibitive;
    if c.BuyOutcome? && s.pool.Some? {
      NoBuyFits(s.pool.value, c.outcome, c.amount, s.market.value.feeBps, c.minTokens);
    }
  }

  lemma StepUntraded(s: State, c: Call)
    requires PoolValid(s) && Untraded(s) && !Trades(s, c)
    ensures Untraded(Step(s, c).state)
  {
    hide Cpmm.Buy, Cpmm.Sell, SumReserves, WithinCap, Exact;
    if c.AddLiquidity? || c.RemoveLiquidity? {
      LiquidityUntraded(s, c);
    } else {
      hide Cpmm.AddLiquidity, Cpmm.RemoveLiquidity;
    }
  }

  lemma LiquidityUntraded(s: State, c: Call)
    requires PoolValid(s) && Untraded(s) && (c.AddLiquidity? || c.RemoveLiquidity?)
    ensures Untraded(Step(s, c).state)
  {
    hide Exact, AllK;
  }

  lemma {:induction false} RunUntraded(m: MarketInfo, calls: seq<Call>)
    requires FitsI128(m.feeBps) && Prohibitive(m.feeBps)
    ensures var s := Run(Fresh(m), calls).state;
            PoolValid(s) && Untraded(s) && s.market.Some? && s.market.value.feeBps == m.feeBps
  {
    hide Step, Trades, Prohibitive;
    if calls != [] {
      var init, last := calls[..|calls| - 1], calls[|calls| - 1];
      RunUntraded(m, init);
      var s := Run(Fresh(m), init).state;
      NoTradeFits(s, last);
      StepUntraded(s, last);
      StepKeepsValid(s, last);
    }
  }

  /** What `create_liquidity_pool` makes of 1000. */
  function NewPool(outcomes: nat): Pool {
    Pool(1000, seq(outcomes, _ => 1000), 1000, seq(outcomes, _ => 1000000), 0, 0)
  }

  /** How much to pay for outcome 0 of it so that the fee exceeds collateral and payment, or is below zero. */
  function Upsetting(feeBps: int): int {
    if feeBps > BPS_DENOM then if feeBps <= I128_MAX / 20000000 then 20000000 else 1
    else if -feeBps <= I128_MAX / 100000000 - 10000 then 10000 else 1
  }

  lemma UpsettingFee(feeBps: i128)
    requires feeBps > BPS_DENOM || (feeBps < 0 && !Prohibitive(feeBps))
    ensures var amount := Upsetting(feeBps);
            && Fee(amount, feeBps).Ok?
            && var fee := Fee(amount, feeBps).value;
               && FitsI128((amount - fee) * BPS_DENOM) && FitsI128((1000 + amount - fee) * 1000)
               && (feeBps < 0 ==> fee < 0) && (feeBps > BPS_DENOM ==> 1000 + amount - fee <= -1000)
  {
    if Upsetting(feeBps) == 20000000 {
      assert 20000000 * feeBps == 2000 * feeBps * 10000;
      FloorBracket(20000000 * feeBps, BPS_DENOM);
    } else if Upsetting(feeBps) == 10000 {
    }
  }

  lemma Requoted(collateral: int)
    requires collateral <= -1000 || collateral > 1000
    ensures var reserve := TruncDiv(1000000, collateral);
            -1000 <= reserve < 1000 && (collateral < 0 ==> reserve <= 0) && FitsI128(collateral * reserve)
  {
    var n, q := Abs(collateral), 1000000 / collateral;
    var x := if collateral < 0 then -q else q;
    assert 1000000 - n < x * n <= 1000000;
    MulCancel(0, x, n);
    MulCancel(x, if collateral < 0 then 1000 else 999, n);
    MulMono(0, x, n);
  }

  lemma UpsetPool(outcomes: nat, feeBps: i128)
    requires outcomes > 0 && (feeBps > BPS_DENOM || (feeBps < 0 && !Prohibitive(feeBps)))
    ensures var r := Cpmm.Buy(NewPool(outcomes), 0, Upsetting(feeBps), feeBps, 0);
            r.Ok? && !Solvent(r.value.pool) && FitsI128(r.value.swap.outcomeAmount)
  {
    UpsettingFee(feeBps);
    var p, amount := NewPool(outcomes), Upsetting(feeBps);
    var fee := Fee(amount, feeBps).value;
    var collateral := 1000 + amount - fee;
    Requoted(collateral);
    ImpactFits(amount - fee);
    hide Fee, Upsetting, Prohibitive, TruncDiv, PriceImpact;
    var reserve := TruncDiv(1000000, collateral);
    assert AllK(collateral, p.reserves[0 := reserve]).Ok?;
  }

  lemma ImpactFits(added: int)
    requires FitsI128(added * BPS_DENOM)
    ensures PriceImpact(added, 1000).Ok?
  {
  }

  /** Any market that takes trades, with no cap on its supply. */
  predicate Tradable(m: MarketInfo) {
    m.status == Active && 0 < m.tradingEnd && 1 <= m.outcomes <= 10 && m.maxOutcomeSupply <= 0 && FitsI128(m.feeBps)
  }

  lemma {:induction false} SumOfEqual(outcomes: nat, n: nat)
    requires n <= outcomes <= 10
    ensures SumReserves(seq(outcomes, _ => 1000), n) == Ok(1000 * n)
  {
    if n > 0 {
      SumOfEqual(outcomes, n - 1);
    }
  }

  /** Creating a pool and buying once leaves the pool of such a market with something negative. */
  lemma UpsetRun(m: MarketInfo, a: Address) returns (calls: seq<Call>)
    requires Tradable(m) && (m.feeBps > BPS_DENOM || (m.feeBps < 0 && !Prohibitive(m.feeBps)))
    ensures !PoolValid(Run(Fresh(m), calls).state)
  {
    var c, d := CreateLiquidityPool(a, 1000), BuyOutcome(a, 0, Upsetting(m.feeBps), 0, 0);
    calls := [c, d];
    RunTwo(Fresh(m), c, d);
    var s := Step(Fresh(m), c).state;
    assert Cpmm.Create(m.outcomes, 1000).value.ks == NewPool(m.outcomes).ks;
    assert s.pool == Some(NewPool(m.outcomes)) && s.outcomeBalances == map[] && s.tradingVolume == 0;
    SumOfEqual(m.outcomes, m.outcomes);
    UpsetPool(m.outcomes, m.feeBps);
    hide Cpmm.Buy, Run;
  }

  /** Market creation takes any fee rate. Every reachable pool is free of negative amounts if and only if the rate is
      from 0 to 100%, or nobody can trade at it. */
  lemma FeeRateIff(m: MarketInfo)
    requires Tradable(m)
    ensures (forall calls :: PoolValid(Run(Fresh(m), calls).state))
            <==> 0 <= m.feeBps <= BPS_DENOM || Prohibitive(m.feeBps)
  {
    hide Run, PoolValid, Prohibitive;
    if 0 <= m.feeBps <= BPS_DENOM {
      forall calls
        ensures PoolValid(Run(Fresh(m), calls).state)
      {
        RunKeepsValid(m, calls);
      }
    } else if Prohibitive(m.feeBps) {
      forall calls
        ensures PoolValid(Run(Fresh(m), calls).state)
      {
        RunUntraded(m, calls);
      }
    } else {
      var calls := UpsetRun(m, "");
    }
  }

  /** In every run the on-chain self-check answers true, whatever the fee rate. */
  lemma VerifyInvariantHolds(m: MarketInfo, calls: seq<Call>)
    requires Run(Fresh(m), calls).state.pool.Some?
    ensures VerifyInvariant(Run(Fresh(m), calls).state.pool.value)
  {
    RunConserves(m, calls, 0);
  }

  // ---------------------------------------------------------------------------------------------
  // Burning what one does not hold
  // ---------------------------------------------------------------------------------------------

  /** A withdrawal leaves the provider a balance that is not negative exactly when it burns no more than it holds;
      the call does not ask. */
  lemma BurnIff(s: State, provider: Address, lp: int)
    requires Remove(s, provider, lp).Ok?
    ensures var t := Remove(s, provider, lp).value.state;
            && (At(t.lpBalances, provider) >= 0 <==> lp <= At(s.lpBalances, provider))
            && provider in t.lpBalances && t.lpBalances == s.lpBalances[provider := t.lpBalances[provider]]
  {
    hide Cpmm.RemoveLiquidity;
  }

  ghost predicate NoneNegative(s: State) {
    forall a :: At(s.lpBalances, a) >= 0
  }

  /** The LP tokens that a call takes from its provider: what it burns, or what a deposit credits below zero. */
  function Taken(s: State, c: Call): int {
    match Apply(s, c)
    case Err(_) => 0
    case Ok(d) =>
      if c.RemoveLiquidity? then c.lp
      else if c.AddLiquidity? && d.report.Deposited? then -d.report.lp.lpTokensMinted
      else 0
  }

  /** This call does not take more than its provider holds. */
  predicate TakesOwn(s: State, c: Call) {
    c.RemoveLiquidity? || c.AddLiquidity? ==> Taken(s, c) <= At(s.lpBalances, c.provider)
  }

  /** No call takes more LP tokens than its provider holds. */
  ghost predicate OwnTokens(m: MarketInfo, calls: seq<Call>) {
    forall k :: 0 <= k < |calls| ==> TakesOwn(Run(Fresh(m), calls[..k]).state, calls[k])
  }

  /** One balance is written: no other turns negative. */
  lemma OneWritten(s: State, t: State, who: Address)
    requires NoneNegative(s) && who in t.lpBalances && t.lpBalances == s.lpBalances[who := t.lpBalances[who]]
    ensures NoneNegative(t) <==> t.lpBalances[who] >= 0
  {
    if t.lpBalances[who] >= 0 {
      forall a
        ensures At(t.lpBalances, a) >= 0
      {
        assert At(s.lpBalances, a) >= 0;
      }
    } else {
      assert At(t.lpBalances, who) < 0;
    }
  }

  /** One call: balances stay free of negative ones exactly when it takes its provider's own. */
  lemma StepTakes(s: State, c: Call)
    requires NoneNegative(s)
    ensures NoneNegative(Step(s, c).state) <==> TakesOwn(s, c)
  {
    hide Cpmm.RemoveLiquidity, Cpmm.AddLiquidity, Cpmm.Buy, Cpmm.Sell, Cpmm.Create;
    hide SumReserves, WithinCap, NoneNegative, CreatePool, Add, Remove;
    var t := Step(s, c).state;
    if Apply(s, c).Err? || !(c.CreateLiquidityPool? || c.AddLiquidity? || c.RemoveLiquidity?) {
      SameBalances(s, t);
      NoneBelow(s, if c.AddLiquidity? || c.RemoveLiquidity? then c.provider else "");
    } else {
      var who := if c.CreateLiquidityPool? then c.creator else c.provider;
      LiquidityWrites(s, c);
      NoneBelow(s, who);
      OneWritten(s, t, who);
    }
  }

  lemma SameBalances(s: State, t: State)
    requires t.lpBalances == s.lpBalances
    ensures NoneNegative(t) <==> NoneNegative(s)
  {
  }

  lemma NoneBelow(s: State, who: Address)
    requires NoneNegative(s)
    ensures At(s.lpBalances, who) >= 0
  {
  }

  lemma LiquidityWrites(s: State, c: Call)
    requires Apply(s, c).Ok? && (c.CreateLiquidityPool? || c.AddLiquidity? || c.RemoveLiquidity?)
    ensures var who := if c.CreateLiquidityPool? then c.creator else c.provider;
            var t := Step(s, c).state;
            && who in t.lpBalances && t.lpBalances == s.lpBalances[who := t.lpBalances[who]]
            && (if c.CreateLiquidityPool? then t.lpBalances[who] >= At(s.lpBalances, who)
                else t.lpBalances[who] == At(s.lpBalances, who) - Taken(s, c))
  {
    hide Cpmm.RemoveLiquidity, Cpmm.AddLiquidity, Cpmm.Buy, Cpmm.Sell, SumReserves, WithinCap;
  }

  /** No LP balance is ever negative along a run. */
  ghost predicate NeverNegative(m: MarketInfo, calls: seq<Call>) {
    forall k :: 0 <= k <= |calls| ==> NoneNegative(Run(Fresh(m), calls[..k]).state)
  }

  /** No LP balance is ever negative along a run if and only if no call takes more LP tokens than its provider
      holds. */
  lemma {:induction false} BalancesIff(m: MarketInfo, calls: seq<Call>)
    ensures NeverNegative(m, calls) <==> OwnTokens(m, calls)
  {
    hide Step, NoneNegative, TakesOwn;
    if calls == [] {
      FreshBalances(m);
    } else {
      var n := |calls| - 1;
      var init := calls[..n];
      BalancesIff(m, init);
      assert forall k :: 0 <= k <= n ==> init[..k] == calls[..k];
      assert forall k :: 0 <= k < n ==> init[k] == calls[k];
      assert calls[..n + 1] == calls;
      if NeverNegative(m, init) {
        assert init[..n] == init;
        StepTakes(Run(Fresh(m), init).state, calls[n]);
      }
      PrefixIff(m, calls);
    }
  }

  lemma MintsPositive(p: Pool, amount: int, amounts: seq<int>)
    requires Valid(p)
    ensures Cpmm.AddLiquidity(p, amount, amounts).Ok? ==>
              Cpmm.AddLiquidity(p, amount, amounts).value.lp.lpTokensMinted >= 0
  {
    if Cpmm.AddLiquidity(p, amount, amounts).Ok? && p.lpSupply != 0 {
      hide Deposits, Seeds, AllK;
      assert amount * p.lpSupply >= 0;
      FloorBracket(amount * p.lpSupply, p.collateral);
    }
  }

  lemma DepositsTakeNothing(s: State, provider: Address, amount: int)
    requires PoolValid(s)
    ensures Taken(s, Call.AddLiquidity(provider, amount)) <= 0
  {
    hide Cpmm.AddLiquidity;
    if s.pool.Some? {
      MintsPositive(s.pool.value, amount, seq(|s.pool.value.reserves|, _ => amount));
    }
  }

  /** At a fee rate from 0 to 100% only withdrawals can take any. */
  lemma OnlyWithdrawalsTake(m: MarketInfo, calls: seq<Call>, c: Call)
    requires 0 <= m.feeBps <= BPS_DENOM && !c.RemoveLiquidity?
    ensures Taken(Run(Fresh(m), calls).state, c) <= 0
  {
    RunKeepsValid(m, calls);
    hide Run, PoolValid;
    if c.AddLiquidity? {
      DepositsTakeNothing(Run(Fresh(m), calls).state, c.provider, c.amount);
    }
  }

  lemma FreshBalances(m: MarketInfo)
    ensures NoneNegative(Fresh(m))
  {
  }

  /** Both sides split into the run without its last call, and that call. */
  lemma PrefixIff(m: MarketInfo, calls: seq<Call>)
    requires calls != []
    ensures var init := calls[..|calls| - 1];
            && (NeverNegative(m, calls) <==> NeverNegative(m, init) && NoneNegative(Run(Fresh(m), calls).state))
            && (OwnTokens(m, calls) <==>
                  OwnTokens(m, init) && TakesOwn(Run(Fresh(m), init).state, calls[|calls| - 1]))
  {
    hide Run, NoneNegative, TakesOwn;
    var n := |calls| - 1;
    var init := calls[..n];
    assert forall k :: 0 <= k <= n ==> init[..k] == calls[..k];
    assert forall k :: 0 <= k < n ==> init[k] == calls[k];
    assert calls[..n + 1] == calls;
    if NeverNegative(m, init) && NoneNegative(Run(Fresh(m), calls).state) {
      forall k | 0 <= k <= |calls|
        ensures NoneNegative(Run(Fresh(m), calls[..k]).state)
      {
        if k <= n {
          assert init[..k] == calls[..k];
        }
      }
    }
    if NeverNegative(m, calls) {
      forall k | 0 <= k <= n
        ensures NoneNegative(Run(Fresh(m), init[..k]).state)
      {
        assert init[..k] == calls[..k];
      }
    }
    if OwnTokens(m, calls) {
      forall k | 0 <= k < n
        ensures TakesOwn(Run(Fresh(m), init[..k]).state, init[k])
      {
        assert init[..k] == calls[..k];
      }
    }
    if OwnTokens(m, init) && TakesOwn(Run(Fresh(m), init).state, calls[n]) {
      forall k | 0 <= k < |calls|
        ensures TakesOwn(Run(Fresh(m), calls[..k]).state, calls[k])
      {
        if k < n {
          assert init[..k] == calls[..k];
        }
      }
    }
  }

  /** After a creates a pool, b, who holds nothing, burns half of its shares. */
  lemma BurnExample(m: MarketInfo, a: Address, b: Address)
    requires m.status == Active && m.outcomes == 2 && a != b
    ensures var calls := [CreateLiquidityPool(a, 1000), RemoveLiquidity(b, 500)];
            var s := Run(Fresh(m), calls).state;
            At(s.lpBalances, a) == 1000 && At(s.lpBalances, b) == -500 && s.lpTotalSupply == 500
  {
    var create, burn := CreateLiquidityPool(a, 1000), RemoveLiquidity(b, 500);
    RunTwo(Fresh(m), create, burn);
    CreateStep(Fresh(m), a);
    var s := Step(Fresh(m), create).state;
    assert s.lpBalances == map[a := 1000];
    HalfOf(s.pool.value);
    hide Cpmm.RemoveLiquidity, Run, CreatePool;
  }

  lemma HalfOf(p: Pool)
    requires p == NewPool(2)
    ensures Cpmm.RemoveLiquidity(p, 500).Ok?
  {
    assert Withdrawals(p, 500, 0) == Ok([]);
    assert Share(1000, 500, 1000) == Ok(500);
    assert [] + [500] == [500];
    assert Withdrawals(p, 500, 1) == Ok([500]);
    assert Withdrawals(p, 500, 2) == Ok([500] + [500]);
    assert Minus(p.reserves, [500] + [500]) == [500, 500];
    assert AllK(500, [500, 500]).Ok? by { assert FitsI128(500 * 500); }
  }
}
