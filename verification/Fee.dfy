/** Fee calculation, collection with running totals, and the split of revenue among recipients. */
module Fee {
  import opened Wrappers
  import opened Checked
  import opened Host
  import opened Sums
  import opened Bounded

  const BPS := 10000
  const MAX_HISTORY := 200
  const MAX_RECIPIENTS := 20

  datatype Error =
    FeeNotFound | FeeInactive | InvalidFeeConfiguration | ArithmeticOverflow | TooManyRecipients | NotAuthorizedByHost

  datatype FeeType = Flat | Percentage | Tiered
  datatype Category = Rebalancing | Yield | Management | Trading | Protocol | Custom
  datatype Tier = Tier(threshold: i128, bps: i128)
  datatype Structure = Structure(
    feeType: FeeType, amount: i128, tiers: seq<Tier>, category: Category, active: bool, cap: Option<i128>)

  datatype Recipient = Recipient(address: Address, share: nat)
  datatype Waiver =
    Waiver(address: Option<Address>, portfolio: Option<Symbol>, discount: int, waived: bool, expiresAt: u64)

  datatype Record = Record(
    feeId: Symbol,
    category: Category,
    portfolio: Symbol,
    base: i128,
    fee: i128,
    discount: int,
    waived: bool,
    timestamp: u64,
    collector: Address)

  // ---------------------------------------------------------------------------------------------
  // The engine
  // ---------------------------------------------------------------------------------------------

  /** The last of the first n tiers whose threshold the amount reaches. */
  function SelectTier(tiers: seq<Tier>, n: nat, amount: int): (r: Option<nat>)
    requires n <= |tiers|
    ensures r.Some? ==> r.value < n
  {
    if n == 0 then None
    else if amount >= tiers[n - 1].threshold then Some(n - 1)
    else SelectTier(tiers, n - 1, amount)
  }

  function Portion(amount: int, bps: int): Result<i128, Error> {
    var product :- CheckedMul(amount, bps, ArithmeticOverflow);
    Ok(TruncDiv(product, BPS))
  }

  function RawFee(f: Structure, base: i128): Result<i128, Error> {
    match f.feeType
    case Flat => Ok(f.amount)
    case Percentage => Portion(base, f.amount)
    case Tiered =>
      var i := SelectTier(f.tiers, |f.tiers|, base);
      if i.None? then Ok(0) else Portion(base, f.tiers[i.value].bps)
  }

  function Clamp(fee: i128, base: i128): i128 {
    Min(if fee < 0 then 0 else fee, base)
  }

  function ApplyCap(fee: i128, cap: Option<i128>): i128 {
    if cap.Some? && 0 <= cap.value < fee then cap.value else fee
  }

  function ApplyDiscount(fee: i128, discount: int, waived: bool): Result<i128, Error> {
    if waived then Ok(0)
    else if discount <= 0 then Ok(fee)
    else
      var left :- Portion(fee, BPS - discount);
      Ok(Max(0, left))
  }

  /** The fee on a base amount: raw, clamped to the base, capped, discounted. */
  function FinalFee(f: Structure, base: i128, discount: int, waived: bool): Result<i128, Error> {
    var raw :- RawFee(f, base);
    ApplyDiscount(ApplyCap(Clamp(raw, base), f.cap), discount, waived)
  }

  predicate ValidStructure(f: Structure) {
    && (match f.feeType
        case Percentage => 0 <= f.amount <= BPS
        case Flat => f.amount >= 0
        case Tiered => f.tiers != [])
    && (f.cap.Some? ==> f.cap.value >= 0)
  }

  // ---------------------------------------------------------------------------------------------
  // Revenue
  // ---------------------------------------------------------------------------------------------

  function TotalShares(rs: seq<Recipient>): nat {
    if rs == [] then 0 else TotalShares(rs[..|rs| - 1]) + rs[|rs| - 1].share
  }

  datatype Payout = Payout(address: Address, amount: int)

  /** Everybody's share, rounded down. */
  function Shares(rs: seq<Recipient>, amount: int, total: nat): Result<seq<Payout>, Error>
    requires total > 0
  {
    if rs == [] then Ok([])
    else
      var before :- Shares(rs[..|rs| - 1], amount, total);
      var product :- CheckedMul(rs[|rs| - 1].share, amount, ArithmeticOverflow);
      Ok(before + [Payout(rs[|rs| - 1].address, TruncDiv(product, total))])
  }

  function SumPayouts(ps: seq<Payout>): int {
    if ps == [] then 0 else SumPayouts(ps[..|ps| - 1]) + ps[|ps| - 1].amount
  }

  /** The remainder of the rounding goes to the first recipient. */
  function Split(rs: seq<Recipient>, amount: int): Result<seq<Payout>, Error> {
    if rs == [] || amount <= 0 || TotalShares(rs) == 0 then Ok([])
    else
      var ps :- Shares(rs, amount, TotalShares(rs));
      var rest := amount - SumPayouts(ps);
      Ok(if rest > 0 && ps != [] then ps[0 := ps[0].(amount := ps[0].amount + rest)] else ps)
  }

  // ---------------------------------------------------------------------------------------------
  // Collection
  // ---------------------------------------------------------------------------------------------

  datatype State = State(
    admin: Address,
    structures: map<Symbol, Structure>,
    waivers: seq<Waiver>,
    recipients: seq<Recipient>,
    history: seq<Record>,
    totalCollected: int,
    categoryTotals: map<Category, int>,
    portfolioTotals: map<Symbol, int>)

  function Initialized(admin: Address): State {
    State(admin, map[], [], [], [], 0, map[], map[])
  }

  predicate WaiverActive(w: Waiver, now: u64) {
    w.expiresAt == 0 || now < w.expiresAt
  }

  predicate Covers(w: Waiver, now: u64, who: Address, portfolio: Symbol) {
    WaiverActive(w, now) && (w.address == Some(who) || w.portfolio == Some(portfolio))
  }

  /** The first active waiver for the payer or the portfolio. */
  function ResolveWaiver(ws: seq<Waiver>, now: u64, who: Address, portfolio: Symbol): (int, bool) {
    if ws == [] then (0, false)
    else if Covers(ws[0], now, who, portfolio) then (ws[0].discount, ws[0].waived)
    else ResolveWaiver(ws[1..], now, who, portfolio)
  }

  predicate SameTarget(a: Waiver, b: Waiver) {
    a.address == b.address && a.portfolio == b.portfolio
  }

  /** A new waiver replaces the first one for the same target. */
  function PutWaiver(ws: seq<Waiver>, w: Waiver): seq<Waiver> {
    if ws == [] then [w]
    else if SameTarget(ws[0], w) then [w] + ws[1..]
    else [ws[0]] + PutWaiver(ws[1..], w)
  }

  /** All waivers but those for a target. */
  function DropWaivers(ws: seq<Waiver>, address: Option<Address>, portfolio: Option<Symbol>): seq<Waiver> {
    if ws == [] then []
    else
      var last := ws[|ws| - 1];
      DropWaivers(ws[..|ws| - 1], address, portfolio)
      + if last.address == address && last.portfolio == portfolio then [] else [last]
  }

  /** Add to one entry of a map of totals; the sum wraps around. */
  function Raise<K>(totals: map<K, int>, k: K, amount: int): map<K, int> {
    totals[k := WrapI128(At(totals, k) + amount)]
  }

  function Collect(s: State, now: u64, caller: Address, feeId: Symbol, portfolio: Symbol, base: i128)
    : Result<(State, Record), Error>
  {
    if feeId !in s.structures then Err(FeeNotFound)
    else
      var f := s.structures[feeId];
      if !f.active then Err(FeeInactive)
      else
        var (discount, waived) := ResolveWaiver(s.waivers, now, caller, portfolio);
        var fee :- FinalFee(f, base, discount, waived);
        var _ :- Split(s.recipients, fee);
        var r := Record(feeId, f.category, portfolio, base, fee, discount, waived, now, caller);
        Ok((s.(history := Append(s.history, r, MAX_HISTORY),
               totalCollected := WrapI128(s.totalCollected + fee),
               categoryTotals := Raise(s.categoryTotals, f.category, fee),
               portfolioTotals := Raise(s.portfolioTotals, portfolio, fee)),
            r))
  }

  datatype Call =
    | SetStructure(caller: Address, feeId: Symbol, structure: Structure)
    | SetActive(caller: Address, feeId: Symbol, active: bool)
    | SetFeeCap(caller: Address, feeId: Symbol, cap: Option<i128>)
    | SetWaiver(caller: Address, waiver: Waiver)
    | RemoveWaiver(caller: Address, address: Option<Address>, target: Option<Symbol>)
    | SetRecipients(caller: Address, recipients: seq<Recipient>)
    | CollectFee(now: u64, caller: Address, feeId: Symbol, portfolio: Symbol, base: i128)

  function Administer(s: State, c: Call): Result<State, Error>
    requires !c.CollectFee?
  {
    if c.caller != s.admin then Err(NotAuthorizedByHost)
    else
      match c
      case SetStructure(_, feeId, f) =>
        if ValidStructure(f) then Ok(s.(structures := s.structures[feeId := f])) else Err(InvalidFeeConfiguration)
      case SetActive(_, feeId, active) =>
        if feeId !in s.structures then Err(FeeNotFound)
        else Ok(s.(structures := s.structures[feeId := s.structures[feeId].(active := active)]))
      case SetFeeCap(_, feeId, cap) =>
        if feeId !in s.structures then Err(FeeNotFound)
        else Ok(s.(structures := s.structures[feeId := s.structures[feeId].(cap := cap)]))
      case SetWaiver(_, w) =>
        if 0 <= w.discount <= BPS then Ok(s.(waivers := PutWaiver(s.waivers, w))) else Err(InvalidFeeConfiguration)
      case RemoveWaiver(_, address, portfolio) => Ok(s.(waivers := DropWaivers(s.waivers, address, portfolio)))
      case SetRecipients(_, rs) =>
        if |rs| > MAX_RECIPIENTS then Err(TooManyRecipients) else Ok(s.(recipients := rs))
  }

  /** The state after a call, and the record of what it collected, if anything. */
  function Step(s: State, c: Call): (State, seq<Record>) {
    match c
    case CollectFee(now, caller, feeId, portfolio, base) =>
      var r := Collect(s, now, caller, feeId, portfolio, base);
      if r.Ok? then (r.value.0, [r.value.1]) else (s, [])
    case _ =>
      var r := Administer(s, c);
      (if r.Ok? then r.value else s, [])
  }

  datatype Books = Books(state: State, collected: seq<Record>)

  /** A run, with the records of everything it collected. */
  function Run(s: State, calls: seq<Call>): Books {
    if calls == [] then Books(s, [])
    else
      var before := Run(s, calls[..|calls| - 1]);
      var (after, records) := Step(before.state, calls[|calls| - 1]);
      Books(after, before.collected + records)
  }

  // ---------------------------------------------------------------------------------------------
  // Reports
  // ---------------------------------------------------------------------------------------------

  datatype Line = Line(portfolio: Symbol, amount: int)

  /** Add an amount to the line of a portfolio, a sum that wraps around, or open one. */
  function AddTo(lines: seq<Line>, portfolio: Symbol, amount: i128): seq<Line> {
    if lines == [] then [Line(portfolio, amount)]
    else if lines[0].portfolio == portfolio then [Line(portfolio, WrapI128(lines[0].amount + amount))] + lines[1..]
    else [lines[0]] + AddTo(lines[1..], portfolio, amount)
  }

  function Breakdown(records: seq<Record>): seq<Line> {
    if records == [] then []
    else
      var last := records[|records| - 1];
      AddTo(Breakdown(records[..|records| - 1]), last.portfolio, last.fee)
  }
}
