/** Fees stay within the base, splits lose nothing, and the running totals are what was collected. */
module FeeLaws {
  import opened Wrappers
  import opened Checked
  import opened Host
  import opened Sums
  import opened Bounded
  import opened Fee

  // ---------------------------------------------------------------------------------------------
  // The engine
  // ---------------------------------------------------------------------------------------------

  /** The tier in force is the last one reached; no later tier is. */
  lemma {:induction false} TierIsLast(tiers: seq<Tier>, n: nat, amount: int)
    requires n <= |tiers|
    ensures var i := SelectTier(tiers, n, amount);
            && (i.Some? ==> tiers[i.value].threshold <= amount
                            && forall k :: i.value < k < n ==> amount < tiers[k].threshold)
            && (i.None? ==> forall k :: 0 <= k < n ==> amount < tiers[k].threshold)
  {
    if n > 0 && amount < tiers[n - 1].threshold {
      TierIsLast(tiers, n - 1, amount);
    }
  }

  /** The tier in force has the highest of the thresholds that an amount reaches, as intended. */
  ghost predicate Highest(tiers: seq<Tier>, amount: int) {
    var i := SelectTier(tiers, |tiers|, amount);
    i.Some? ==> forall k :: 0 <= k < |tiers| && tiers[k].threshold <= amount ==>
      tiers[k].threshold <= tiers[i.value].threshold
  }

  /** Some tier after position i has the threshold t. */
  ghost predicate Recurs(tiers: seq<Tier>, i: nat, t: int) {
    exists k :: i < k < |tiers| && tiers[k].threshold == t
  }

  /** Every threshold that stands before a lower one stands after it again. */
  ghost predicate HighestComeLast(tiers: seq<Tier>) {
    forall i, j :: 0 <= i < j < |tiers| && tiers[j].threshold < tiers[i].threshold ==>
      Recurs(tiers, j, tiers[i].threshold)
  }

  /** The scan selects as intended for every amount if and only if the thresholds are listed that way. */
  lemma TierIsHighestIff(tiers: seq<Tier>)
    ensures (forall amount: i128 :: Highest(tiers, amount)) <==> HighestComeLast(tiers)
  {
    if HighestComeLast(tiers) {
      forall amount: i128
        ensures Highest(tiers, amount)
      {
        TierIsLast(tiers, |tiers|, amount);
        var s := SelectTier(tiers, |tiers|, amount);
        if s.Some? {
          forall k | 0 <= k < |tiers| && tiers[k].threshold <= amount
            ensures tiers[k].threshold <= tiers[s.value].threshold
          {
            assert tiers[s.value].threshold < tiers[k].threshold ==> Recurs(tiers, s.value, tiers[k].threshold);
          }
        }
      }
    }
    if forall amount: i128 :: Highest(tiers, amount) {
      forall i, j | 0 <= i < j < |tiers| && tiers[j].threshold < tiers[i].threshold
        ensures Recurs(tiers, j, tiers[i].threshold)
      {
        var amount: i128 := tiers[i].threshold;
        assert Highest(tiers, amount);
        TierIsLast(tiers, |tiers|, amount);
      }
    }
  }

  /** With ascending thresholds it does. */
  lemma TierIsHighest(tiers: seq<Tier>, amount: i128)
    requires forall i, j :: 0 <= i < j < |tiers| ==> tiers[i].threshold <= tiers[j].threshold
    ensures Highest(tiers, amount)
  {
    TierIsHighestIff(tiers);
  }

  /** A structure that is accepted with tiers from 5 and from 3, in this order: an amount of 5 pays the rate of
      the lower tier. */
  lemma TierOrderExample(f: Structure, a: i128, b: i128)
    requires f.feeType == Tiered && f.cap == None && f.tiers == [Tier(5, a), Tier(3, b)]
    ensures ValidStructure(f) && !Highest(f.tiers, 5) && RawFee(f, 5) == Portion(5, b)
  {
    assert SelectTier(f.tiers, 2, 5) == Some(1);
    assert f.tiers[0].threshold == 5;
  }

  lemma ScaledDown(amount: int, bps: int)
    requires 0 <= amount && 0 <= bps <= BPS
    ensures 0 <= amount * bps <= amount * BPS
  {
  }

  lemma PortionBounds(amount: int, bps: int)
    requires 0 <= amount && 0 <= bps <= BPS && Portion(amount, bps).Ok?
    ensures 0 <= Portion(amount, bps).value <= amount
  {
    ScaledDown(amount, bps);
    var x := amount * bps;
    assert Portion(amount, bps) == Ok(x / BPS);
  }

  /** On a base that is not negative the fee is between zero and the base, and within the cap. */
  lemma FeeInRange(f: Structure, base: i128, discount: int, waived: bool)
    requires base >= 0 && 0 <= discount <= BPS && FinalFee(f, base, discount, waived).Ok?
    ensures var fee := FinalFee(f, base, discount, waived).value;
            0 <= fee <= base && (f.cap.Some? && f.cap.value >= 0 ==> fee <= f.cap.value)
  {
    hide RawFee, Portion;
    var capped := ApplyCap(Clamp(RawFee(f, base).value, base), f.cap);
    if !waived && discount > 0 {
      PortionBounds(capped, BPS - discount);
    }
  }

  /** Clamping keeps a fee between zero and the base exactly when the base is not negative; below zero it
      returns the base itself. */
  lemma ClampIff(fee: i128, base: i128)
    ensures 0 <= Clamp(fee, base) <==> base >= 0
    ensures base >= 0 ==> Clamp(fee, base) <= base
    ensures base < 0 ==> Clamp(fee, base) == base
  {
  }

  /** So a fee is never negative exactly when the base is not, or a waiver or discount applies. */
  lemma FeeSignIff(f: Structure, base: i128, discount: int, waived: bool)
    requires 0 <= discount <= BPS && FinalFee(f, base, discount, waived).Ok?
    ensures FinalFee(f, base, discount, waived).value >= 0 <==> base >= 0 || waived || discount > 0
  {
    hide RawFee, Portion;
    if base >= 0 {
      FeeInRange(f, base, discount, waived);
    } else {
      ClampIff(RawFee(f, base).value, base);
    }
  }

  // ---------------------------------------------------------------------------------------------
  // The split
  // ---------------------------------------------------------------------------------------------

  /** The share of one recipient, rounded down. */
  function FloorShare(r: Recipient, amount: int, total: nat): int
    requires total > 0
  {
    TruncDiv(r.share * amount, total)
  }

  lemma SumSnoc(ps: seq<Payout>, p: Payout)
    ensures SumPayouts(ps + [p]) == SumPayouts(ps) + p.amount
  {
    assert (ps + [p])[..|ps|] == ps;
  }

  lemma FloorShareBounds(r: Recipient, amount: int, total: nat)
    requires total > 0 && amount > 0
    ensures 0 <= FloorShare(r, amount, total)
    ensures FloorShare(r, amount, total) * total <= r.share * amount < FloorShare(r, amount, total) * total + total
  {
    assert r.share * amount >= 0;
    FloorBracket(r.share * amount, total);
  }

  /** One more rounded share f keeps the sum within one unit a recipient. */
  lemma AddShare(sum: int, f: int, total: int, shares: int, share: int, amount: int, n: nat)
    requires sum * total <= shares * amount <= sum * total + n * (total - 1)
    requires f * total <= share * amount < f * total + total
    ensures (sum + f) * total <= (shares + share) * amount <= (sum + f) * total + (n + 1) * (total - 1)
  {
    assert (sum + f) * total == sum * total + f * total;
    assert (shares + share) * amount == shares * amount + share * amount;
    assert (n + 1) * (total - 1) == n * (total - 1) + (total - 1);
  }

  lemma {:induction false} SharesAre(rs: seq<Recipient>, amount: int, total: nat)
    requires total > 0 && Shares(rs, amount, total).Ok?
    ensures var ps := Shares(rs, amount, total).value;
            && |ps| == |rs|
            && forall i :: 0 <= i < |rs| ==> ps[i] == Payout(rs[i].address, FloorShare(rs[i], amount, total))
  {
    if rs != [] {
      SharesAre(rs[..|rs| - 1], amount, total);
    }
  }

  /** The rounded shares fall short of the exact ones by less than one unit each. */
  lemma {:induction false} SharesSum(rs: seq<Recipient>, amount: int, total: nat)
    requires total > 0 && amount > 0 && Shares(rs, amount, total).Ok?
    ensures var sum := SumPayouts(Shares(rs, amount, total).value);
            sum * total <= TotalShares(rs) * amount <= sum * total + |rs| * (total - 1)
  {
    hide *;
    SharesStep(rs, amount, total);
    if rs != [] {
      var init, last := rs[..|rs| - 1], rs[|rs| - 1];
      SharesSum(init, amount, total);
      FloorShareBounds(last, amount, total);
      var ps, f := Shares(init, amount, total).value, FloorShare(last, amount, total);
      SumSnoc(ps, Payout(last.address, f));
      AddShare(SumPayouts(ps), f, total, TotalShares(init), last.share, amount, |init|);
    }
  }

  lemma SharesStep(rs: seq<Recipient>, amount: int, total: nat)
    requires total > 0 && Shares(rs, amount, total).Ok?
    ensures rs == [] ==> SumPayouts(Shares(rs, amount, total).value) == 0 && TotalShares(rs) == 0
    ensures rs != [] ==>
              var init, last := rs[..|rs| - 1], rs[|rs| - 1];
              var before, f := Shares(init, amount, total), FloorShare(last, amount, total);
              && before.Ok? && Shares(rs, amount, total).value == before.value + [Payout(last.address, f)]
              && TotalShares(rs) == TotalShares(init) + last.share
  {
    hide TruncDiv;
  }

  lemma {:induction false} SumUpdateFirst(ps: seq<Payout>, p: Payout)
    requires ps != []
    ensures SumPayouts(ps[0 := p]) == SumPayouts(ps) - ps[0].amount + p.amount
  {
    var n := |ps| - 1;
    if n == 0 {
      assert ps[..0] == [] && ps[0 := p][..0] == [];
    } else {
      SumUpdateFirst(ps[..n], p);
      assert ps[0 := p][..n] == ps[..n][0 := p];
    }
  }

  lemma RestBounds(amount: int, sum: int, total: nat, n: nat)
    requires 0 < total && sum * total <= total * amount <= sum * total + n * (total - 1) && n > 0
    ensures 0 <= amount - sum < n
  {
    assert total * amount == amount * total;
    MulCancel(sum, amount, total);
    assert (amount - sum) * total == amount * total - sum * total;
    assert n * (total - 1) == n * total - n && (n - 1) * total == n * total - total;
    MulCancel(amount - sum, n - 1, total);
  }

  /**
   A positive amount split over positive shares is paid out exactly; every recipient gets the floor of
   its share, and the first one also the rest, which is less than the number of recipients.
   */
  lemma SplitConserves(rs: seq<Recipient>, amount: int)
    requires amount > 0 && TotalShares(rs) > 0 && Split(rs, amount).Ok?
    ensures var ps := Split(rs, amount).value;
            var total := TotalShares(rs);
            && SumPayouts(ps) == amount && |ps| == |rs| > 0
            && (forall i :: 0 < i < |rs| ==> ps[i] == Payout(rs[i].address, FloorShare(rs[i], amount, total)))
            && ps[0].address == rs[0].address
            && 0 <= ps[0].amount - FloorShare(rs[0], amount, total) < |rs|
  {
    hide Shares, FloorShare;
    var total := TotalShares(rs);
    assert rs != [];
    SharesAre(rs, amount, total);
    SharesSum(rs, amount, total);
    var ps := Shares(rs, amount, total).value;
    RestBounds(amount, SumPayouts(ps), total, |rs|);
    SumUpdateFirst(ps, ps[0].(amount := ps[0].amount + (amount - SumPayouts(ps))));
  }

  /** Nothing is paid when there is nothing to pay or nobody to pay. */
  lemma SplitNothing(rs: seq<Recipient>, amount: int)
    requires amount <= 0 || TotalShares(rs) == 0
    ensures Split(rs, amount) == Ok([])
  {
  }

  // ---------------------------------------------------------------------------------------------
  // Running totals
  // ---------------------------------------------------------------------------------------------

  /** Which records a total is about. */
  datatype Scope = All | OfCategory(c: Category) | OfPortfolio(p: Symbol)

  predicate InScope(r: Record, k: Scope) {
    match k
    case All => true
    case OfCategory(c) => r.category == c
    case OfPortfolio(p) => r.portfolio == p
  }

  function SumFees(rs: seq<Record>, k: Scope): int {
    if rs == [] then 0 else SumFees(rs[..|rs| - 1], k) + if InScope(rs[|rs| - 1], k) then rs[|rs| - 1].fee else 0
  }

  /** The stored totals are those of everything ever collected, wrapped; the history holds its newest records. */
  ghost predicate Balanced(b: Books) {
    && b.state.totalCollected == WrapI128(SumFees(b.collected, All))
    && WrapI128(Total(b.state.categoryTotals)) == WrapI128(Total(b.state.portfolioTotals)) == b.state.totalCollected
    && (forall c :: At(b.state.categoryTotals, c) == WrapI128(SumFees(b.collected, OfCategory(c))))
    && (forall p :: At(b.state.portfolioTotals, p) == WrapI128(SumFees(b.collected, OfPortfolio(p))))
    && b.state.history == Last(b.collected, MAX_HISTORY)
  }

  /** The stored totals are exactly those of everything ever collected. */
  ghost predicate Exact(b: Books) {
    && b.state.totalCollected == SumFees(b.collected, All)
    && b.state.totalCollected == Total(b.state.categoryTotals) == Total(b.state.portfolioTotals)
    && (forall c :: At(b.state.categoryTotals, c) == SumFees(b.collected, OfCategory(c)))
    && (forall p :: At(b.state.portfolioTotals, p) == SumFees(b.collected, OfPortfolio(p)))
  }

  ghost predicate WaiversValid(s: State) {
    forall i :: 0 <= i < |s.waivers| ==> 0 <= s.waivers[i].discount <= BPS
  }

  lemma {:induction false} PutWaiverValid(ws: seq<Waiver>, w: Waiver)
    requires 0 <= w.discount <= BPS && forall i :: 0 <= i < |ws| ==> 0 <= ws[i].discount <= BPS
    ensures forall i :: 0 <= i < |PutWaiver(ws, w)| ==> 0 <= PutWaiver(ws, w)[i].discount <= BPS
  {
    if ws != [] && !SameTarget(ws[0], w) {
      PutWaiverValid(ws[1..], w);
    }
  }

  lemma {:induction false} DropWaiversValid(ws: seq<Waiver>, address: Option<Address>, portfolio: Option<Symbol>)
    requires forall i :: 0 <= i < |ws| ==> 0 <= ws[i].discount <= BPS
    ensures forall w :: w in DropWaivers(ws, address, portfolio) ==> 0 <= w.discount <= BPS
  {
    if ws != [] {
      DropWaiversValid(ws[..|ws| - 1], address, portfolio);
    }
  }

  lemma {:induction false} ResolvedValid(ws: seq<Waiver>, now: u64, who: Address, portfolio: Symbol)
    requires forall i :: 0 <= i < |ws| ==> 0 <= ws[i].discount <= BPS
    ensures 0 <= ResolveWaiver(ws, now, who, portfolio).0 <= BPS
  {
    if ws != [] && !Covers(ws[0], now, who, portfolio) {
      ResolvedValid(ws[1..], now, who, portfolio);
    }
  }

  lemma FeesSnoc(rs: seq<Record>, r: Record, k: Scope)
    ensures SumFees(rs + [r], k) == SumFees(rs, k) + if InScope(r, k) then r.fee else 0
  {
    assert (rs + [r])[..|rs|] == rs;
  }

  lemma CollectParts(s: State, now: u64, caller: Address, feeId: Symbol, portfolio: Symbol, base: i128)
    requires Collect(s, now, caller, feeId, portfolio, base).Ok?
    ensures var (t, r) := Collect(s, now, caller, feeId, portfolio, base).value;
            && t.history == Append(s.history, r, MAX_HISTORY) && t.waivers == s.waivers && r.portfolio == portfolio
            && t.totalCollected == WrapI128(s.totalCollected + r.fee)
            && t.categoryTotals == Raise(s.categoryTotals, r.category, r.fee)
            && t.portfolioTotals == Raise(s.portfolioTotals, portfolio, r.fee)
  {
    hide FinalFee, Split, ResolveWaiver, At, Append, Raise;
  }

  lemma RaiseAt<K>(totals: map<K, int>, k: K, amount: int, j: K)
    ensures At(Raise(totals, k, amount), j) == if j == k then WrapI128(At(totals, k) + amount) else At(totals, j)
  {
  }

  /** Raising one total raises their sum, up to multiples of 2^128, and exactly when it fits. */
  lemma RaiseTotal<K>(totals: map<K, int>, k: K, amount: int)
    ensures WrapI128(Total(Raise(totals, k, amount))) == WrapI128(Total(totals) + amount)
    ensures FitsI128(At(totals, k) + amount) ==> Total(Raise(totals, k, amount)) == Total(totals) + amount
  {
    hide Total;
    var x := At(totals, k) + amount;
    TotalUpdate(totals, k, WrapI128(x));
    var n := WrapShift(x);
    WrapMultiple(Total(totals) + amount, -n);
  }

  /** A stored sum that is the wrapped one stays it. */
  lemma WrappedStep(rs: seq<Record>, r: Record, k: Scope, total: int)
    requires total == WrapI128(SumFees(rs, k))
    ensures SumFees(rs + [r], k) == SumFees(rs, k) + if InScope(r, k) then r.fee else 0
    ensures InScope(r, k) ==> WrapI128(total + r.fee) == WrapI128(SumFees(rs + [r], k))
    ensures !InScope(r, k) ==> total == WrapI128(SumFees(rs + [r], k))
  {
    hide WrapI128;
    FeesSnoc(rs, r, k);
    WrapSum(SumFees(rs, k), r.fee);
  }

  lemma CollectBalanced(b: Books, now: u64, caller: Address, feeId: Symbol, portfolio: Symbol, base: i128)
    requires Balanced(b) && Collect(b.state, now, caller, feeId, portfolio, base).Ok?
    ensures var (s, r) := Collect(b.state, now, caller, feeId, portfolio, base).value;
            Balanced(Books(s, b.collected + [r]))
  {
    hide Collect, Total, Append, Last, WrapI128, SumFees, Raise, At;
    CollectParts(b.state, now, caller, feeId, portfolio, base);
    var (s, r) := Collect(b.state, now, caller, feeId, portfolio, base).value;
    RaiseTotal(b.state.categoryTotals, r.category, r.fee);
    RaiseTotal(b.state.portfolioTotals, portfolio, r.fee);
    WrapSum(Total(b.state.categoryTotals), r.fee);
    WrapSum(Total(b.state.portfolioTotals), r.fee);
    AppendLast(b.collected, r, MAX_HISTORY);
    WrappedStep(b.collected, r, All, b.state.totalCollected);
    forall c ensures At(s.categoryTotals, c) == WrapI128(SumFees(b.collected + [r], OfCategory(c))) {
      RaiseAt(b.state.categoryTotals, r.category, r.fee, c);
      WrappedStep(b.collected, r, OfCategory(c), At(b.state.categoryTotals, c));
    }
    forall p ensures At(s.portfolioTotals, p) == WrapI128(SumFees(b.collected + [r], OfPortfolio(p))) {
      RaiseAt(b.state.portfolioTotals, portfolio, r.fee, p);
      WrappedStep(b.collected, r, OfPortfolio(p), At(b.state.portfolioTotals, p));
    }
  }

  ghost predicate NonNegative(rs: seq<Record>) {
    forall i :: 0 <= i < |rs| ==> rs[i].fee >= 0
  }

  lemma {:induction false} ScopeBelow(rs: seq<Record>, k: Scope)
    requires NonNegative(rs)
    ensures 0 <= SumFees(rs, k) <= SumFees(rs, All)
  {
    if rs != [] {
      ScopeBelow(rs[..|rs| - 1], k);
    }
  }

  /** What is collected in a scope fits when everything does. */
  lemma ScopeFits(rs: seq<Record>, r: Record, k: Scope)
    requires NonNegative(rs) && r.fee >= 0 && SumFees(rs, All) + r.fee <= I128_MAX
    ensures FitsI128(SumFees(rs, k) + r.fee)
    ensures SumFees(rs + [r], k) == SumFees(rs, k) + if InScope(r, k) then r.fee else 0
  {
    FeesSnoc(rs, r, k);
    ScopeBelow(rs, k);
  }

  lemma CollectExact(b: Books, now: u64, caller: Address, feeId: Symbol, portfolio: Symbol, base: i128)
    requires Exact(b) && NonNegative(b.collected) && Collect(b.state, now, caller, feeId, portfolio, base).Ok?
    ensures var (s, r) := Collect(b.state, now, caller, feeId, portfolio, base).value;
            r.fee >= 0 && SumFees(b.collected, All) + r.fee <= I128_MAX ==> Exact(Books(s, b.collected + [r]))
  {
    hide Collect, Total, Append, Last, WrapI128, SumFees, Raise, At;
    CollectParts(b.state, now, caller, feeId, portfolio, base);
    var (s, r) := Collect(b.state, now, caller, feeId, portfolio, base).value;
    if r.fee >= 0 && SumFees(b.collected, All) + r.fee <= I128_MAX {
      ScopeFits(b.collected, r, All);
      ScopeFits(b.collected, r, OfCategory(r.category));
      ScopeFits(b.collected, r, OfPortfolio(portfolio));
      RaiseTotal(b.state.categoryTotals, r.category, r.fee);
      RaiseTotal(b.state.portfolioTotals, portfolio, r.fee);
      forall c ensures At(s.categoryTotals, c) == SumFees(b.collected + [r], OfCategory(c)) {
        RaiseAt(b.state.categoryTotals, r.category, r.fee, c);
        ScopeFits(b.collected, r, OfCategory(c));
      }
      forall p ensures At(s.portfolioTotals, p) == SumFees(b.collected + [r], OfPortfolio(p)) {
        RaiseAt(b.state.portfolioTotals, portfolio, r.fee, p);
        ScopeFits(b.collected, r, OfPortfolio(p));
      }
    }
  }

  lemma AdministerKeeps(s: State, c: Call)
    requires !c.CollectFee? && Administer(s, c).Ok? && WaiversValid(s)
    ensures var t := Administer(s, c).value;
            && WaiversValid(t) && t.history == s.history && t.totalCollected == s.totalCollected
            && t.categoryTotals == s.categoryTotals && t.portfolioTotals == s.portfolioTotals
  {
    hide PutWaiver, DropWaivers;
    if c.SetWaiver? {
      PutWaiverValid(s.waivers, c.waiver);
    } else if c.RemoveWaiver? {
      DropWaiversValid(s.waivers, c.address, c.target);
    }
  }

  lemma StepBalanced(b: Books, c: Call)
    requires Balanced(b) && WaiversValid(b.state)
    ensures var (s, rs) := Step(b.state, c); Balanced(Books(s, b.collected + rs)) && WaiversValid(s)
  {
    hide Collect, Administer, Balanced;
    if c.CollectFee? {
      if Collect(b.state, c.now, c.caller, c.feeId, c.portfolio, c.base).Ok? {
        CollectBalanced(b, c.now, c.caller, c.feeId, c.portfolio, c.base);
        CollectParts(b.state, c.now, c.caller, c.feeId, c.portfolio, c.base);
      } else {
        assert b.collected + [] == b.collected;
      }
    } else {
      assert b.collected + [] == b.collected;
      if Administer(b.state, c).Ok? {
        AdministerKeeps(b.state, c);
        BalancedFrame(b, Administer(b.state, c).value);
      }
    }
  }

  lemma BalancedFrame(b: Books, t: State)
    requires Balanced(b) && t.history == b.state.history && t.totalCollected == b.state.totalCollected
    requires t.categoryTotals == b.state.categoryTotals && t.portfolioTotals == b.state.portfolioTotals
    ensures Balanced(Books(t, b.collected))
  {
  }

  /**
   In every run, up to multiples of 2^128: TotalCollected is the sum over all collections, and equally the
   sum of the category totals and of the portfolio totals; each of those is the sum of its own collections.
   The history holds the newest two hundred records.
   */
  lemma {:induction false} RunBalanced(admin: Address, calls: seq<Call>)
    ensures Balanced(Run(Initialized(admin), calls)) && WaiversValid(Run(Initialized(admin), calls).state)
  {
    hide Step, Balanced, WaiversValid;
    if calls == [] {
      EmptyBalanced(admin);
    } else {
      RunBalanced(admin, calls[..|calls| - 1]);
      StepBalanced(Run(Initialized(admin), calls[..|calls| - 1]), calls[|calls| - 1]);
    }
  }

  lemma StepExact(b: Books, c: Call)
    requires Exact(b) && WaiversValid(b.state)
    ensures var (s, rs) := Step(b.state, c);
            var all := b.collected + rs;
            && NonNegative(b.collected + rs) && SumFees(b.collected + rs, All) <= I128_MAX ==>
              Exact(Books(s, b.collected + rs))
  {
    hide Collect, Administer, Exact, Balanced;
    var (s, rs) := Step(b.state, c);
    if c.CollectFee? && Collect(b.state, c.now, c.caller, c.feeId, c.portfolio, c.base).Ok? {
      var r := rs[0];
      assert rs == [r];
      FeesSnoc(b.collected, r, All);
      if NonNegative(b.collected + rs) {
        assert (b.collected + rs)[|b.collected|] == r;
        assert forall i :: 0 <= i < |b.collected| ==> (b.collected + rs)[i] == b.collected[i];
        CollectExact(b, c.now, c.caller, c.feeId, c.portfolio, c.base);
      }
    } else {
      assert b.collected + [] == b.collected;
      if !c.CollectFee? && Administer(b.state, c).Ok? {
        AdministerKeeps(b.state, c);
        ExactFrame(b, s);
      }
    }
  }

  lemma ExactFrame(b: Books, t: State)
    requires Exact(b) && t.totalCollected == b.state.totalCollected
    requires t.categoryTotals == b.state.categoryTotals && t.portfolioTotals == b.state.portfolioTotals
    ensures Exact(Books(t, b.collected))
  {
  }

  lemma EarlierFits(before: seq<Record>, rs: seq<Record>)
    requires |rs| <= 1 && NonNegative(before + rs) && SumFees(before + rs, All) <= I128_MAX
    ensures NonNegative(before) && SumFees(before, All) <= I128_MAX
  {
    assert forall i :: 0 <= i < |before| ==> (before + rs)[i] == before[i];
    if rs == [] {
      assert before + rs == before;
    } else {
      assert rs == [rs[0]] && (before + rs)[|before|] == rs[0];
      FeesSnoc(before, rs[0], All);
    }
  }

  lemma {:induction false} RunExact(admin: Address, calls: seq<Call>)
    requires var b := Run(Initialized(admin), calls);
             NonNegative(b.collected) && SumFees(b.collected, All) <= I128_MAX
    ensures Exact(Run(Initialized(admin), calls))
  {
    hide Step, WaiversValid, Balanced, Exact;
    if calls == [] {
      EmptyBalanced(admin);
    } else {
      var before, b := Run(Initialized(admin), calls[..|calls| - 1]), Run(Initialized(admin), calls);
      var rs := Step(before.state, calls[|calls| - 1]).1;
      assert b.collected == before.collected + rs;
      OneRecord(before.state, calls[|calls| - 1]);
      EarlierFits(before.collected, rs);
      hide SumFees, NonNegative;
      RunExact(admin, calls[..|calls| - 1]);
      RunBalanced(admin, calls[..|calls| - 1]);
      StepExact(before, calls[|calls| - 1]);
    }
  }

  lemma OneRecord(s: State, c: Call)
    ensures |Step(s, c).1| <= 1
  {
    hide Collect, Administer;
  }

  /** As long as no collected fee is negative, all totals are exact if and only if everything collected fits. */
  lemma TotalsExactIff(admin: Address, calls: seq<Call>)
    requires NonNegative(Run(Initialized(admin), calls).collected)
    ensures var b := Run(Initialized(admin), calls);
            Exact(b) <==> SumFees(b.collected, All) <= I128_MAX
  {
    hide Run, SumFees;
    RunBalanced(admin, calls);
    if SumFees(Run(Initialized(admin), calls).collected, All) <= I128_MAX {
      RunExact(admin, calls);
    }
  }

  lemma EmptyBalanced(admin: Address)
    ensures Balanced(Books(Initialized(admin), [])) && WaiversValid(Initialized(admin))
    ensures Exact(Books(Initialized(admin), []))
  {
  }

  /** Every collection on a base that is not negative charges between zero and that base. */
  ghost predicate Fair(r: Record) {
    r.base >= 0 ==> 0 <= r.fee <= r.base
  }

  lemma {:induction false} RunFair(admin: Address, calls: seq<Call>)
    ensures forall r :: r in Run(Initialized(admin), calls).collected ==> Fair(r)
  {
    if calls != [] {
      hide Administer, FinalFee, Split, ResolveWaiver;
      var before := Run(Initialized(admin), calls[..|calls| - 1]);
      var c := calls[|calls| - 1];
      RunFair(admin, calls[..|calls| - 1]);
      RunBalanced(admin, calls[..|calls| - 1]);
      if c.CollectFee? && Collect(before.state, c.now, c.caller, c.feeId, c.portfolio, c.base).Ok? && c.base >= 0 {
        ResolvedValid(before.state.waivers, c.now, c.caller, c.portfolio);
        var (discount, waived) := ResolveWaiver(before.state.waivers, c.now, c.caller, c.portfolio);
        FeeInRange(before.state.structures[c.feeId], c.base, discount, waived);
      }
    }
  }

  // ---------------------------------------------------------------------------------------------
  // Reports
  // ---------------------------------------------------------------------------------------------

  function SumLines(lines: seq<Line>): int {
    if lines == [] then 0 else lines[0].amount + SumLines(lines[1..])
  }

  /** What the lines say of a portfolio. */
  function AmountOf(lines: seq<Line>, p: Symbol): int {
    if lines == [] then 0 else (if lines[0].portfolio == p then lines[0].amount else 0) + AmountOf(lines[1..], p)
  }

  ghost predicate Distinct(lines: seq<Line>) {
    forall i, j :: 0 <= i < j < |lines| ==> lines[i].portfolio != lines[j].portfolio
  }

  ghost predicate HasLine(lines: seq<Line>, p: Symbol) {
    exists i :: 0 <= i < |lines| && lines[i].portfolio == p
  }

  lemma AddToFirst(lines: seq<Line>, p: Symbol, amount: i128, q: Symbol)
    requires lines != [] && lines[0].portfolio == p
    ensures WrapI128(SumLines(AddTo(lines, p, amount))) == WrapI128(SumLines(lines) + amount)
    ensures WrapI128(AmountOf(AddTo(lines, p, amount), q))
            == WrapI128(AmountOf(lines, q) + if p == q then amount else 0)
  {
    hide WrapI128;
    var x := lines[0].amount + amount;
    var after := [Line(p, WrapI128(x))] + lines[1..];
    assert AddTo(lines, p, amount) == after && after[1..] == lines[1..];
    assert SumLines(after) == WrapI128(x) + SumLines(lines[1..]);
    AddBoth(WrapI128(x), x, SumLines(lines[1..]));
    AddBoth(WrapI128(x), x, AmountOf(lines[1..], q));
  }

  lemma {:induction false} AddToSums(lines: seq<Line>, p: Symbol, amount: i128, q: Symbol)
    ensures WrapI128(SumLines(AddTo(lines, p, amount))) == WrapI128(SumLines(lines) + amount)
    ensures WrapI128(AmountOf(AddTo(lines, p, amount), q))
            == WrapI128(AmountOf(lines, q) + if p == q then amount else 0)
  {
    hide WrapI128;
    if lines == [] {
      assert AddTo(lines, p, amount) == [Line(p, amount)];
      assert SumLines([Line(p, amount)]) == amount;
    } else if lines[0].portfolio == p {
      AddToFirst(lines, p, amount, q);
    } else {
      AddToSums(lines[1..], p, amount, q);
      var after := AddTo(lines[1..], p, amount);
      var x, y := lines[0].amount, if lines[0].portfolio == q then lines[0].amount else 0;
      assert AddTo(lines, p, amount) == [lines[0]] + after && ([lines[0]] + after)[1..] == after;
      AddBoth(SumLines(after), SumLines(lines[1..]) + amount, x);
      AddBoth(AmountOf(after, q), AmountOf(lines[1..], q) + if p == q then amount else 0, y);
    }
  }

  /** Numbers that wrap to the same still do when the same is added. */
  lemma AddBoth(a: int, b: int, x: int)
    requires WrapI128(a) == WrapI128(b)
    ensures WrapI128(x + a) == WrapI128(x + b)
  {
    WrapSum(x, a);
    WrapSum(x, b);
  }

  lemma {:induction false} AddToKeys(lines: seq<Line>, p: Symbol, amount: i128)
    ensures forall q :: HasLine(AddTo(lines, p, amount), q) <==> HasLine(lines, q) || q == p
    ensures Distinct(lines) ==> Distinct(AddTo(lines, p, amount))
  {
    var after := AddTo(lines, p, amount);
    if lines == [] {
      assert after[0].portfolio == p;
    } else if lines[0].portfolio == p {
      assert after[0].portfolio == p;
      assert forall i :: 0 <= i < |lines| ==> after[i].portfolio == lines[i].portfolio;
    } else {
      AddToKeys(lines[1..], p, amount);
      var rest := AddTo(lines[1..], p, amount);
      assert after == [lines[0]] + rest;
      forall q ensures HasLine(after, q) <==> HasLine(lines, q) || q == p {
        HeadLine(lines, q);
        HeadLine(after, q);
      }
      if Distinct(lines) {
        assert forall i :: 0 <= i < |rest| ==> HasLine(rest, rest[i].portfolio);
        assert !HasLine(lines[1..], lines[0].portfolio);
      }
    }
  }

  lemma HeadLine(lines: seq<Line>, q: Symbol)
    requires lines != []
    ensures HasLine(lines, q) <==> lines[0].portfolio == q || HasLine(lines[1..], q)
  {
    if HasLine(lines[1..], q) {
      var i :| 0 <= i < |lines| - 1 && lines[1..][i].portfolio == q;
      assert lines[i + 1].portfolio == q;
    }
    if HasLine(lines, q) && lines[0].portfolio != q {
      var i :| 0 <= i < |lines| && lines[i].portfolio == q;
      assert lines[1..][i - 1].portfolio == q;
    }
  }

  ghost predicate HasRecord(records: seq<Record>, p: Symbol) {
    exists i :: 0 <= i < |records| && records[i].portfolio == p
  }

  lemma RecordSnoc(records: seq<Record>, r: Record, p: Symbol)
    ensures HasRecord(records + [r], p) <==> HasRecord(records, p) || r.portfolio == p
  {
    var all := records + [r];
    assert all[|records|] == r && forall i :: 0 <= i < |records| ==> all[i] == records[i];
    if HasRecord(records, p) {
      var i :| 0 <= i < |records| && records[i].portfolio == p;
      assert all[i].portfolio == p;
    }
  }

  lemma BreakdownStep(records: seq<Record>, p: Symbol)
    ensures records == [] ==>
              var lines := Breakdown(records);
              && Distinct(lines) && SumLines(lines) == SumFees(records, All)
              && AmountOf(lines, p) == SumFees(records, OfPortfolio(p))
              && !HasLine(lines, p) && !HasRecord(records, p)
    ensures records != [] ==>
              var init, last := records[..|records| - 1], records[|records| - 1];
              Breakdown(records) == AddTo(Breakdown(init), last.portfolio, last.fee)
  {
    hide AddTo;
  }

  /** The breakdown has one line for each portfolio with a record, and no more; each line is the sum of its
      fees and their sum that of all, up to multiples of 2^128. */
  lemma {:induction false} BreakdownExact(records: seq<Record>, p: Symbol)
    ensures var lines := Breakdown(records);
            && Distinct(lines) && WrapI128(SumLines(lines)) == WrapI128(SumFees(records, All))
            && WrapI128(AmountOf(lines, p)) == WrapI128(SumFees(records, OfPortfolio(p)))
            && (HasLine(lines, p) <==> HasRecord(records, p))
  {
    hide Breakdown, AddTo, AmountOf, SumLines, SumFees, WrapI128, HasRecord, HasLine, Distinct;
    BreakdownStep(records, p);
    if records != [] {
      var init, last := records[..|records| - 1], records[|records| - 1];
      assert records == init + [last];
      BreakdownExact(init, p);
      AddToSums(Breakdown(init), last.portfolio, last.fee, p);
      AddToKeys(Breakdown(init), last.portfolio, last.fee);
      BreakdownSums(init, last, p);
      RecordSnoc(init, last, p);
    }
  }

  lemma BreakdownSums(init: seq<Record>, last: Record, p: Symbol)
    requires WrapI128(SumLines(Breakdown(init))) == WrapI128(SumFees(init, All))
    requires WrapI128(AmountOf(Breakdown(init), p)) == WrapI128(SumFees(init, OfPortfolio(p)))
    ensures WrapI128(SumLines(Breakdown(init)) + last.fee) == WrapI128(SumFees(init + [last], All))
    ensures WrapI128(AmountOf(Breakdown(init), p) + if last.portfolio == p then last.fee else 0)
            == WrapI128(SumFees(init + [last], OfPortfolio(p)))
  {
    hide Breakdown, AmountOf, SumLines, SumFees, WrapI128;
    FeesSnoc(init, last, All);
    FeesSnoc(init, last, OfPortfolio(p));
    AddBoth(SumLines(Breakdown(init)), SumFees(init, All), last.fee);
    AddBoth(AmountOf(Breakdown(init), p), SumFees(init, OfPortfolio(p)), if last.portfolio == p then last.fee else 0);
  }

  /** The six category sums of a report add up to its total. */
  lemma {:induction false} CategoriesAddUp(records: seq<Record>)
    ensures SumFees(records, All)
            == SumFees(records, OfCategory(Rebalancing)) + SumFees(records, OfCategory(Yield))
             + SumFees(records, OfCategory(Management)) + SumFees(records, OfCategory(Trading))
             + SumFees(records, OfCategory(Protocol)) + SumFees(records, OfCategory(Custom))
  {
    if records != [] {
      CategoriesAddUp(records[..|records| - 1]);
    }
  }
}
