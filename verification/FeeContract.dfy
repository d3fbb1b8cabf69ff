/** The fee contract's stored entries, its entry points, and the report builders. */
module FeeContract {
  import opened Wrappers
  import opened Checked
  import opened Host
  import opened Sums
  import opened Bounded
  import opened Fee
  import opened FeeLaws

  /** Scan the tiers from the last one down. */
  method CalculateTieredFee(tiers: seq<Tier>, amount: int) returns (r: Result<i128, Error>)
    ensures var i := SelectTier(tiers, |tiers|, amount);
            r == if i.None? then Ok(0) else Portion(amount, tiers[i.value].bps)
  {
    var i := |tiers|;
    while i > 0
      invariant 0 <= i <= |tiers| && SelectTier(tiers, |tiers|, amount) == SelectTier(tiers, i, amount)
    {
      i := i - 1;
      if amount >= tiers[i].threshold {
        var product :- CheckedMul(amount, tiers[i].bps, ArithmeticOverflow);
        return Ok(TruncDiv(product, BPS));
      }
    }
    return Ok(0);
  }

  method ComputeRawFee(f: Structure, base: i128) returns (r: Result<i128, Error>)
    ensures r == RawFee(f, base)
  {
    match f.feeType
    case Flat => return Ok(f.amount);
    case Percentage =>
      var product :- CheckedMul(base, f.amount, ArithmeticOverflow);
      return Ok(TruncDiv(product, BPS));
    case Tiered =>
      r := CalculateTieredFee(f.tiers, base);
  }

  class FeeManagement {
    var admin: Address
    var structures: map<Symbol, Structure>
    var waivers: seq<Waiver>
    var recipients: seq<Recipient>
    var history: seq<Record>
    var totalCollected: int
    var categoryTotals: map<Category, int>
    var portfolioTotals: map<Symbol, int>

    function View(): State
      reads this
    {
      State(admin, structures, waivers, recipients, history, totalCollected, categoryTotals, portfolioTotals)
    }

    constructor (admin: Address)
      ensures View() == Initialized(admin)
    {
      this.admin, structures, waivers, recipients := admin, map[], [], [];
      history, totalCollected, categoryTotals, portfolioTotals := [], 0, map[], map[];
    }

    method SumShares() returns (total: nat)
      ensures total == TotalShares(recipients)
    {
      total := 0;
      for i := 0 to |recipients|
        invariant total == TotalShares(recipients[..i])
      {
        assert recipients[..i + 1][..i] == recipients[..i];
        total := total + recipients[i].share;
      }
      assert recipients[..|recipients|] == recipients;
    }

    method RoundedShares(amount: int, total: nat) returns (r: Result<(seq<Payout>, int), Error>)
      requires total > 0
      ensures r == Shares(recipients, amount, total).Map((ps: seq<Payout>) => (ps, SumPayouts(ps)))
    {
      var out, distributed := [], 0;
      for i := 0 to |recipients|
        invariant Shares(recipients[..i], amount, total) == Ok(out) && distributed == SumPayouts(out)
      {
        assert recipients[..i + 1][..i] == recipients[..i];
        if !FitsI128(recipients[i].share * amount) {
          SharesStop(recipients, i + 1, amount, total);
        }
        var product :- CheckedMul(recipients[i].share, amount, ArithmeticOverflow);
        var share := TruncDiv(product, total);
        SumSnoc(out, Payout(recipients[i].address, share));
        distributed := distributed + share;
        out := out + [Payout(recipients[i].address, share)];
      }
      assert recipients[..|recipients|] == recipients;
      return Ok((out, distributed));
    }

    method DistributeRevenue(amount: int) returns (r: Result<seq<Payout>, Error>)
      ensures r == Split(recipients, amount)
    {
      hide Shares, SumPayouts;
      if recipients == [] || amount <= 0 {
        return Ok([]);
      }
      var total := SumShares();
      if total == 0 {
        return Ok([]);
      }
      var rounded :- RoundedShares(amount, total);
      var shares: seq<Payout> := rounded.0;
      var distributed := rounded.1;
      var remainder := amount - distributed;
      if remainder > 0 && shares != [] {
        shares := shares[0 := shares[0].(amount := shares[0].amount + remainder)];
      }
      return Ok(shares);
    }

    method FindWaiver(now: u64, who: Address, portfolio: Symbol) returns (discount: int, waived: bool)
      ensures (discount, waived) == ResolveWaiver(waivers, now, who, portfolio)
    {
      for i := 0 to |waivers|
        invariant ResolveWaiver(waivers, now, who, portfolio) == ResolveWaiver(waivers[i..], now, who, portfolio)
      {
        var w := waivers[i];
        assert waivers[i..][1..] == waivers[i + 1..];
        if !WaiverActive(w, now) {
          continue;
        }
        if w.address == Some(who) {
          return w.discount, w.waived;
        }
        if w.portfolio == Some(portfolio) {
          return w.discount, w.waived;
        }
      }
      return 0, false;
    }

    method AppendFeeRecord(r: Record)
      modifies this`history
      ensures history == Append(old(history), r, MAX_HISTORY)
    {
      var h := history;
      if |h| >= MAX_HISTORY {
        h := h[1..];
      }
      history := h + [r];
    }

    method AddToTotals(category: Category, portfolio: Symbol, fee: i128)
      modifies this`totalCollected, this`categoryTotals, this`portfolioTotals
      ensures totalCollected == WrapI128(old(totalCollected) + fee)
      ensures categoryTotals == Raise(old(categoryTotals), category, fee)
      ensures portfolioTotals == Raise(old(portfolioTotals), portfolio, fee)
    {
      totalCollected := WrapI128(totalCollected + fee);
      categoryTotals := categoryTotals[category := WrapI128(At(categoryTotals, category) + fee)];
      portfolioTotals := portfolioTotals[portfolio := WrapI128(At(portfolioTotals, portfolio) + fee)];
    }

    method CollectFee(now: u64, caller: Address, feeId: Symbol, portfolio: Symbol, base: i128)
      returns (r: Result<int, Error>)
      modifies this`history, this`totalCollected, this`categoryTotals, this`portfolioTotals
      ensures r == Collect(old(View()), now, caller, feeId, portfolio, base).Map((p: (State, Record)) => p.1.fee)
      ensures View() == Step(old(View()), Call.CollectFee(now, caller, feeId, portfolio, base)).0
    {
      hide Split, ResolveWaiver, Append, RawFee, Clamp, ApplyCap, ApplyDiscount, At, Raise, WrapI128;
      if feeId !in structures {
        return Err(FeeNotFound);
      }
      var f := structures[feeId];
      if !f.active {
        return Err(FeeInactive);
      }
      var raw :- ComputeRawFee(f, base);
      var capped := ApplyCap(Clamp(raw, base), f.cap);
      var discount, waived := FindWaiver(now, caller, portfolio);
      var fee :- ApplyDiscount(capped, discount, waived);
      var _ :- DistributeRevenue(fee);
      AppendFeeRecord(Record(feeId, f.category, portfolio, base, fee, discount, waived, now, caller));
      AddToTotals(f.category, portfolio, fee);
      return Ok(fee);
    }

    method SetFeeStructure(caller: Address, feeId: Symbol, f: Structure) returns (r: Result<(), Error>)
      modifies this`structures
      ensures r == Administer(old(View()), SetStructure(caller, feeId, f)).Map((_: State) => ())
      ensures View() == Step(old(View()), SetStructure(caller, feeId, f)).0
    {
      if caller != admin {
        return Err(NotAuthorizedByHost);
      }
      if !ValidStructure(f) {
        return Err(InvalidFeeConfiguration);
      }
      structures := structures[feeId := f];
      return Ok(());
    }

    method SetFeeWaiver(caller: Address, w: Waiver) returns (r: Result<(), Error>)
      modifies this`waivers
      ensures r == Administer(old(View()), SetWaiver(caller, w)).Map((_: State) => ())
      ensures View() == Step(old(View()), SetWaiver(caller, w)).0
    {
      if caller != admin {
        return Err(NotAuthorizedByHost);
      }
      if !(0 <= w.discount <= BPS) {
        return Err(InvalidFeeConfiguration);
      }
      hide PutWaiver;
      var i := 0;
      while i < |waivers| && !SameTarget(waivers[i], w)
        invariant i <= |waivers| && forall k :: 0 <= k < i ==> !SameTarget(waivers[k], w)
      {
        i := i + 1;
      }
      PutWaiverAt(waivers, w, i);
      if i < |waivers| {
        waivers := waivers[i := w];
      } else {
        waivers := waivers + [w];
      }
      return Ok(());
    }

    method RemoveFeeWaiver(caller: Address, address: Option<Address>, portfolio: Option<Symbol>)
      returns (r: Result<(), Error>)
      modifies this`waivers
      ensures r == Administer(old(View()), RemoveWaiver(caller, address, portfolio)).Map((_: State) => ())
      ensures View() == Step(old(View()), RemoveWaiver(caller, address, portfolio)).0
    {
      if caller != admin {
        return Err(NotAuthorizedByHost);
      }
      var left := [];
      for i := 0 to |waivers|
        invariant left == DropWaivers(waivers[..i], address, portfolio)
      {
        assert waivers[..i + 1][..i] == waivers[..i];
        if !(waivers[i].address == address && waivers[i].portfolio == portfolio) {
          left := left + [waivers[i]];
        }
      }
      assert waivers[..|waivers|] == waivers;
      waivers := left;
      return Ok(());
    }
  }

  /** Position i is the first waiver of the target, or the end. */
  lemma {:induction false} PutWaiverAt(ws: seq<Waiver>, w: Waiver, i: nat)
    requires i <= |ws| && (forall k :: 0 <= k < i ==> !SameTarget(ws[k], w)) && (i < |ws| ==> SameTarget(ws[i], w))
    ensures PutWaiver(ws, w) == if i < |ws| then ws[i := w] else ws + [w]
  {
    if i > 0 {
      PutWaiverAt(ws[1..], w, i - 1);
      assert ws == [ws[0]] + ws[1..];
    }
  }

  /** A share that overflows fails the whole split. */
  lemma {:induction false} SharesStop(rs: seq<Recipient>, k: nat, amount: int, total: nat)
    requires k <= |rs| && total > 0 && Shares(rs[..k], amount, total) == Err(ArithmeticOverflow)
    ensures Shares(rs, amount, total) == Err(ArithmeticOverflow)
  {
    if k == |rs| {
      assert rs[..k] == rs;
    } else {
      assert rs[..|rs| - 1][..k] == rs[..k];
      SharesStop(rs[..|rs| - 1], k, amount, total);
    }
  }

  /** Position i is the first line of a portfolio, or the end. */
  lemma {:induction false} AddToAt(lines: seq<Line>, p: Symbol, amount: i128, i: nat)
    requires i <= |lines| && (forall k :: 0 <= k < i ==> lines[k].portfolio != p)
    requires i < |lines| ==> lines[i].portfolio == p
    ensures AddTo(lines, p, amount)
            == if i < |lines| then lines[i := Line(p, WrapI128(lines[i].amount + amount))]
               else lines + [Line(p, amount)]
  {
    if i > 0 {
      AddToAt(lines[1..], p, amount, i - 1);
      assert lines == [lines[0]] + lines[1..];
    }
  }

  method BuildPortfolioBreakdown(records: seq<Record>) returns (lines: seq<Line>)
    ensures lines == Breakdown(records)
  {
    lines := [];
    for n := 0 to |records|
      invariant lines == Breakdown(records[..n])
    {
      assert records[..n + 1][..n] == records[..n];
      var p, fee := records[n].portfolio, records[n].fee;
      var i := 0;
      while i < |lines| && lines[i].portfolio != p
        invariant i <= |lines| && forall k :: 0 <= k < i ==> lines[k].portfolio != p
      {
        i := i + 1;
      }
      AddToAt(lines, p, fee, i);
      if i < |lines| {
        lines := lines[i := Line(p, WrapI128(lines[i].amount + fee))];
      } else {
        lines := lines + [Line(p, fee)];
      }
    }
    assert records[..|records|] == records;
  }

  datatype Summary = Summary(total: int, events: nat, byCategory: seq<(Category, int)>, discounts: int, waived: nat)

  /** What the payers saved on some records: all of a waived base, else the base less the fee. */
  function Saved(records: seq<Record>): i128 {
    if records == [] then 0
    else
      var before, r := Saved(records[..|records| - 1]), records[|records| - 1];
      WrapI128(before + Max(0, if r.waived then r.base else WrapI128(r.base - r.fee)))
  }

  function CountWaived(records: seq<Record>): nat {
    if records == [] then 0
    else CountWaived(records[..|records| - 1]) + if records[|records| - 1].waived then 1 else 0
  }

  /** The sum of the fees of each category. */
  function CategorySums(records: seq<Record>): map<Category, int> {
    if records == [] then map[]
    else
      var r := records[|records| - 1];
      Raise(CategorySums(records[..|records| - 1]), r.category, r.fee)
  }

  /** Each is the sum over its records, wrapped. */
  lemma {:induction false} CategorySumsExact(records: seq<Record>, c: Category)
    ensures At(CategorySums(records), c) == WrapI128(SumFees(records, OfCategory(c)))
  {
    if records != [] {
      var init, last := records[..|records| - 1], records[|records| - 1];
      CategorySumsExact(init, c);
      RaiseAt(CategorySums(init), last.category, last.fee, c);
      WrappedStep(init, last, OfCategory(c), At(CategorySums(init), c));
      assert records == init + [last];
    }
  }

  /** The categories with a positive sum among the first n, in their declared order. */
  function Positive(sums: map<Category, int>, order: seq<Category>): seq<(Category, int)> {
    if order == [] then []
    else
      var c := order[|order| - 1];
      Positive(sums, order[..|order| - 1]) + if At(sums, c) > 0 then [(c, At(sums, c))] else []
  }

  const ORDER: seq<Category> := [Rebalancing, Yield, Management, Trading, Protocol, Custom]

  method ListPositive(sums: map<Category, int>) returns (listed: seq<(Category, int)>)
    ensures listed == Positive(sums, ORDER)
  {
    listed := [];
    var order := ORDER;
    for i := 0 to |order|
      invariant listed == Positive(sums, order[..i])
    {
      assert order[..i + 1][..i] == order[..i];
      if At(sums, order[i]) > 0 {
        listed := listed + [(order[i], At(sums, order[i]))];
      }
    }
    assert order[..|order|] == order;
  }

  method BuildFeeSummary(records: seq<Record>) returns (s: Summary)
    ensures s.total == WrapI128(SumFees(records, All)) && s.events == |records|
    ensures s.discounts == Saved(records) && s.waived == CountWaived(records)
    ensures s.byCategory == Positive(CategorySums(records), ORDER)
  {
    hide WrapI128, At, Positive, Raise;
    var total, discounts: i128, waived := 0, 0, 0;
    var sums: map<Category, int> := map[];
    for n := 0 to |records|
      invariant total == WrapI128(SumFees(records[..n], All))
      invariant discounts == Saved(records[..n]) && waived == CountWaived(records[..n])
      invariant sums == CategorySums(records[..n])
    {
      assert records[..n + 1][..n] == records[..n];
      var r := records[n];
      WrapSum(SumFees(records[..n], All), r.fee);
      total := WrapI128(total + r.fee);
      if r.waived {
        waived := waived + 1;
      }
      var discount: int := if r.waived then r.base else WrapI128(r.base - r.fee);
      if discount > 0 {
        discounts := WrapI128(discounts + discount);
      }
      sums := Raise(sums, r.category, r.fee);
    }
    assert records[..|records|] == records;
    var byCategory := ListPositive(sums);
    s := Summary(total, |records|, byCategory, discounts, waived);
  }
}
