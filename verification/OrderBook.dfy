/**
 The order book of one market: a list of resting orders in arrival order, and a store that keeps
 every order ever placed by id. Matching walks the list once, in arrival order.
 */
module OrderBook {
  import opened Wrappers
  import opened Checked
  import opened Host
  import opened Cpmm

  const MAX_BOOK_DEPTH := 256

  datatype OrderSide = BuySide | SellSide
  datatype OrderStatus = Active | PartiallyFilled | Filled | Cancelled

  datatype Order = Order(
    id: nat,
    owner: Address,
    outcome: nat,
    side: OrderSide,
    price: int,
    amount: int,
    remaining: int,
    status: OrderStatus,
    createdAt: u64)

  datatype TradeFill = TradeFill(
    orderId: nat,
    taker: Address,
    maker: Address,
    outcome: nat,
    side: OrderSide,
    price: int,
    amount: int,
    fee: int)

  datatype State = State(nextId: nat, book: seq<Order>, store: map<nat, Order>)

  /** An incoming order: who, for which outcome and side, how much, at what limit, and the fee rate. */
  datatype Taker = Taker(who: Address, outcome: nat, side: OrderSide, amount: int, limit: int, feeBps: int)

  const EMPTY := State(1, [], map[])

  predicate Live(o: Order) {
    o.status == Active || o.status == PartiallyFilled
  }

  // ---------------------------------------------------------------------------------------------
  // Placing and cancelling
  // ---------------------------------------------------------------------------------------------

  function Place(s: State, owner: Address, outcome: nat, side: OrderSide, price: int, amount: int, now: u64)
    : Result<(State, nat), PredictionError>
  {
    if amount <= 0 || price <= 0 then Err(InvalidOrderAmount)
    else if |s.book| >= MAX_BOOK_DEPTH then Err(ArithmeticOverflow)
    else
      var o := Order(s.nextId, owner, outcome, side, price, amount, amount, Active, now);
      Ok((State(s.nextId + 1, s.book + [o], s.store[s.nextId := o]), s.nextId))
  }

  /** The list without its first order of the given id. */
  function RemoveFirst(book: seq<Order>, id: nat): seq<Order> {
    if book == [] then []
    else if book[0].id == id then book[1..]
    else [book[0]] + RemoveFirst(book[1..], id)
  }

  function Cancel(s: State, id: nat, caller: Address, isAdmin: bool): Result<State, PredictionError> {
    if id !in s.store || !Live(s.store[id]) then Err(OrderNotFound)
    else if !isAdmin && s.store[id].owner != caller then Err(NotOrderOwner)
    else Ok(s.(store := s.store[id := s.store[id].(status := Cancelled, remaining := 0)],
               book := RemoveFirst(s.book, id)))
  }

  // ---------------------------------------------------------------------------------------------
  // Matching, order by order
  // ---------------------------------------------------------------------------------------------

  /** Whether the taker may trade with a resting order at all: opposite side, same outcome, price in limit. */
  predicate Eligible(o: Order, t: Taker) {
    && o.outcome == t.outcome && Live(o)
    && (match t.side
        case BuySide => o.side == SellSide && o.price <= t.limit
        case SellSide => o.side == BuySide && o.price >= t.limit)
  }

  /** The eligible quantity among the first n orders of the list. */
  function Available(book: seq<Order>, n: nat, t: Taker): int
    requires n <= |book|
  {
    if n == 0 then 0
    else Available(book, n - 1, t) + if Eligible(book[n - 1], t) then book[n - 1].remaining else 0
  }

  /** What the first n orders fill together. */
  function FilledBy(book: seq<Order>, n: nat, t: Taker): int
    requires n <= |book|
  {
    Max(0, Min(t.amount, Available(book, n, t)))
  }

  /** What the k-th order fills: its own part of the greedy total. */
  function FillAt(book: seq<Order>, k: nat, t: Taker): int
    requires k < |book|
  {
    FilledBy(book, k + 1, t) - FilledBy(book, k, t)
  }

  function FillFee(qty: int, price: int, feeBps: int): int {
    if feeBps <= 0 then 0
    else
      var notional := CheckedMul(qty, price, ()).Map((x: int) => x);
      var base := if notional.Ok? then notional.value else I128_MAX;
      var scaled := if FitsI128(base * feeBps) then base * feeBps else I128_MAX;
      TruncDiv(scaled, BPS_DENOM)
  }

  function FillOf(o: Order, qty: int, t: Taker): TradeFill {
    TradeFill(o.id, t.who, o.owner, t.outcome, t.side, o.price, qty, FillFee(qty, o.price, t.feeBps))
  }

  /** A maker order after filling qty of it. */
  function AfterFill(o: Order, qty: int): Order {
    o.(remaining := o.remaining - qty, status := if o.remaining == qty then Filled else PartiallyFilled)
  }

  function Updated(book: seq<Order>, k: nat, t: Taker): Order
    requires k < |book|
  {
    if FillAt(book, k, t) > 0 then AfterFill(book[k], FillAt(book, k, t)) else book[k]
  }

  function Fills(book: seq<Order>, n: nat, t: Taker): seq<TradeFill>
    requires n <= |book|
  {
    if n == 0 then []
    else
      Fills(book, n - 1, t)
      + if FillAt(book, n - 1, t) > 0 then [FillOf(book[n - 1], FillAt(book, n - 1, t), t)] else []
  }

  /** The list left behind by the first n orders: filled orders leave it, the rest stay in place. */
  function Rest(book: seq<Order>, n: nat, t: Taker): seq<Order>
    requires n <= |book|
  {
    if n == 0 then []
    else Rest(book, n - 1, t) + if Updated(book, n - 1, t).status == Filled then [] else [Updated(book, n - 1, t)]
  }

  function Stored(store: map<nat, Order>, book: seq<Order>, n: nat, t: Taker): map<nat, Order>
    requires n <= |book|
  {
    if n == 0 then store
    else
      var before := Stored(store, book, n - 1, t);
      if FillAt(book, n - 1, t) > 0 then before[book[n - 1].id := Updated(book, n - 1, t)] else before
  }

  function Match(s: State, t: Taker): State {
    s.(book := Rest(s.book, |s.book|, t), store := Stored(s.store, s.book, |s.book|, t))
  }

  // ---------------------------------------------------------------------------------------------
  // Runs
  // ---------------------------------------------------------------------------------------------

  datatype Call =
    | PlaceOrder(owner: Address, outcome: nat, side: OrderSide, price: int, amount: int, now: u64)
    | CancelOrder(id: nat, caller: Address, isAdmin: bool)
    | MatchOrder(taker: Taker)

  function Step(s: State, c: Call): State {
    match c
    case PlaceOrder(owner, outcome, side, price, amount, now) =>
      var r := Place(s, owner, outcome, side, price, amount, now);
      if r.Ok? then r.value.0 else s
    case CancelOrder(id, caller, isAdmin) =>
      var r := Cancel(s, id, caller, isAdmin);
      if r.Ok? then r.value else s
    case MatchOrder(taker) => Match(s, taker)
  }

  function Run(s: State, calls: seq<Call>): State {
    if calls == [] then s else Step(Run(s, calls[..|calls| - 1]), calls[|calls| - 1])
  }
}

/** Agreement of list and store over every run, and what greedy matching conserves. */
module OrderBookLaws {
  import opened Wrappers
  import opened Host
  import opened Cpmm
  import opened OrderBook

  /** A resting order: live, with a positive part of its amount left. */
  predicate Resting(o: Order) {
    Live(o) && 0 < o.remaining <= o.amount && 0 < o.price
  }

  ghost predicate WellFormed(book: seq<Order>) {
    && (forall i :: 0 <= i < |book| ==> Resting(book[i]))
    && (forall i, j :: 0 <= i < j < |book| ==> book[i].id < book[j].id)
  }

  /** The list holds exactly the live orders of the store, each once and with the same fields. */
  ghost predicate Agrees(s: State) {
    && WellFormed(s.book)
    && (forall i :: 0 <= i < |s.book| ==> s.book[i].id in s.store && s.store[s.book[i].id] == s.book[i])
    && (forall id :: id in s.store ==> s.store[id].id == id < s.nextId)
    && (forall id :: id in s.store && Live(s.store[id]) ==> s.store[id] in s.book)
    && (forall id :: id in s.store && !Live(s.store[id]) ==> s.store[id].remaining == 0)
  }

  // ---------------------------------------------------------------------------------------------
  // The greedy fill
  // ---------------------------------------------------------------------------------------------

  lemma {:induction false} AvailableMonotone(book: seq<Order>, j: nat, k: nat, t: Taker)
    requires WellFormed(book) && j <= k <= |book|
    ensures 0 <= Available(book, j, t) <= Available(book, k, t)
    decreases k
  {
    if j < k {
      AvailableMonotone(book, j, k - 1, t);
    } else if k > 0 {
      AvailableMonotone(book, k - 1, k - 1, t);
    }
  }

  /** One fill: positive only on an eligible order, never above what rests there, and all of it unless
      the taker is done. */
  lemma FillAtBounds(book: seq<Order>, k: nat, t: Taker)
    requires WellFormed(book) && k < |book|
    ensures 0 <= FillAt(book, k, t) <= book[k].remaining
    ensures FillAt(book, k, t) > 0 <==> Eligible(book[k], t) && Available(book, k, t) < t.amount
    ensures Eligible(book[k], t) && FillAt(book, k, t) < book[k].remaining ==>
              FilledBy(book, k + 1, t) == Max(0, t.amount)
  {
    AvailableMonotone(book, k, k, t);
  }

  function SumFills(fs: seq<TradeFill>): int {
    if fs == [] then 0 else SumFills(fs[..|fs| - 1]) + fs[|fs| - 1].amount
  }

  function SumRemaining(book: seq<Order>): int {
    if book == [] then 0 else SumRemaining(book[..|book| - 1]) + book[|book| - 1].remaining
  }

  lemma {:induction false} FillsAddUp(book: seq<Order>, n: nat, t: Taker)
    requires WellFormed(book) && n <= |book|
    ensures SumFills(Fills(book, n, t)) == FilledBy(book, n, t)
  {
    if n > 0 {
      FillsAddUp(book, n - 1, t);
      FillAtBounds(book, n - 1, t);
      var before, qty := Fills(book, n - 1, t), FillAt(book, n - 1, t);
      if qty > 0 {
        assert (before + [FillOf(book[n - 1], qty, t)])[..|before|] == before;
      } else {
        assert Fills(book, n, t) == before;
      }
    }
  }

  /** The k-th order after matching: same id, and out of the list exactly when nothing of it is left. */
  lemma UpdatedShape(book: seq<Order>, k: nat, t: Taker)
    requires WellFormed(book) && k < |book|
    ensures var u := Updated(book, k, t);
            && u.id == book[k].id && u.amount == book[k].amount
            && u.remaining == book[k].remaining - FillAt(book, k, t)
            && (Live(u) <==> u.status != Filled)
            && (u.status == Filled ==> u.remaining == 0)
  {
    FillAtBounds(book, k, t);
  }

  lemma SumRemainingSnoc(book: seq<Order>, o: Order)
    ensures SumRemaining(book + [o]) == SumRemaining(book) + o.remaining
  {
    assert (book + [o])[..|book|] == book;
  }

  lemma RestStep(book: seq<Order>, n: nat, t: Taker)
    requires WellFormed(book) && n < |book|
    ensures SumRemaining(Rest(book, n + 1, t))
            == SumRemaining(Rest(book, n, t)) + book[n].remaining - FillAt(book, n, t)
  {
    UpdatedShape(book, n, t);
    SumRemainingSnoc(Rest(book, n, t), Updated(book, n, t));
    assert Rest(book, n, t) + [] == Rest(book, n, t);
  }

  lemma RestNone(book: seq<Order>, t: Taker)
    ensures SumRemaining(Rest(book, 0, t)) == SumRemaining(book[..0]) == FilledBy(book, 0, t) == 0
  {
  }

  /** The list loses exactly what was filled. */
  lemma {:induction false} RestAddsUp(book: seq<Order>, n: nat, t: Taker)
    requires WellFormed(book) && n <= |book|
    ensures SumRemaining(Rest(book, n, t)) == SumRemaining(book[..n]) - FilledBy(book, n, t)
  {
    hide Rest, SumRemaining, FilledBy, WellFormed;
    if n == 0 {
      RestNone(book, t);
    } else {
      RestAddsUp(book, n - 1, t);
      RestStep(book, n - 1, t);
      SumRemainingSnoc(book[..n - 1], book[n - 1]);
      assert book[..n] == book[..n - 1] + [book[n - 1]];
    }
  }

  /** Every fill takes a positive quantity from an eligible order of the list, at that order's price. */
  lemma {:induction false} FillOrigin(book: seq<Order>, n: nat, t: Taker, f: TradeFill) returns (k: nat)
    requires WellFormed(book) && n <= |book| && f in Fills(book, n, t)
    ensures k < n && f == FillOf(book[k], FillAt(book, k, t), t)
    ensures Eligible(book[k], t) && 0 < f.amount <= book[k].remaining
  {
    FillAtBounds(book, n - 1, t);
    if FillAt(book, n - 1, t) > 0 && f == FillOf(book[n - 1], FillAt(book, n - 1, t), t) {
      k := n - 1;
    } else {
      k := FillOrigin(book, n - 1, t, f);
    }
  }

  /** `match_order` fills as much as the limit allows: min(amount, total eligible remaining). */
  lemma MatchTotal(s: State, t: Taker)
    requires Agrees(s) && 0 <= t.amount
    ensures SumFills(Fills(s.book, |s.book|, t)) == Min(t.amount, Available(s.book, |s.book|, t))
    ensures SumRemaining(Match(s, t).book)
            == SumRemaining(s.book) - Min(t.amount, Available(s.book, |s.book|, t))
  {
    AvailableMonotone(s.book, 0, |s.book|, t);
    FillsAddUp(s.book, |s.book|, t);
    RestAddsUp(s.book, |s.book|, t);
    assert s.book[..|s.book|] == s.book;
  }

  // ---------------------------------------------------------------------------------------------
  // Agreement
  // ---------------------------------------------------------------------------------------------

  lemma {:induction false} RestWellFormed(book: seq<Order>, n: nat, t: Taker)
    requires WellFormed(book) && n <= |book|
    ensures WellFormed(Rest(book, n, t))
    ensures n < |book| ==> forall i :: 0 <= i < |Rest(book, n, t)| ==> Rest(book, n, t)[i].id < book[n].id
  {
    if n > 0 {
      RestWellFormed(book, n - 1, t);
      FillAtBounds(book, n - 1, t);
    }
  }

  /** Every order left in the list is the updated form of one that was there. */
  lemma {:induction false} RestOrigin(book: seq<Order>, n: nat, t: Taker, o: Order) returns (k: nat)
    requires n <= |book| && o in Rest(book, n, t)
    ensures k < n && o == Updated(book, k, t)
  {
    if o == Updated(book, n - 1, t) {
      k := n - 1;
    } else {
      k := RestOrigin(book, n - 1, t, o);
    }
  }

  /** Every order that is not filled stays. */
  lemma {:induction false} RestKeeps(book: seq<Order>, n: nat, t: Taker, k: nat)
    requires k < n <= |book| && Updated(book, k, t).status != Filled
    ensures Updated(book, k, t) in Rest(book, n, t)
  {
    if k < n - 1 {
      RestKeeps(book, n - 1, t, k);
    }
  }

  /** What matching does to the stored order of one id: the list's k-th is updated, any other kept. */
  lemma {:induction false} StoredAt(store: map<nat, Order>, book: seq<Order>, n: nat, t: Taker, id: nat)
    requires WellFormed(book) && n <= |book|
    requires forall i :: 0 <= i < |book| ==> book[i].id in store && store[book[i].id] == book[i]
    requires id in store
    ensures id in Stored(store, book, n, t)
    ensures forall k :: 0 <= k < n && book[k].id == id ==> Stored(store, book, n, t)[id] == Updated(book, k, t)
    ensures (forall k :: 0 <= k < n ==> book[k].id != id) ==> Stored(store, book, n, t)[id] == store[id]
  {
    if n > 0 {
      StoredAt(store, book, n - 1, t, id);
    }
  }

  lemma {:induction false} StoredKeys(store: map<nat, Order>, book: seq<Order>, n: nat, t: Taker)
    requires n <= |book|
    requires forall i :: 0 <= i < |book| ==> book[i].id in store
    ensures Stored(store, book, n, t).Keys == store.Keys
  {
    if n > 0 {
      StoredKeys(store, book, n - 1, t);
    }
  }

  lemma MatchStoreAt(s: State, t: Taker, id: nat)
    requires Agrees(s) && id in s.store
    ensures var m := Match(s, t);
            && id in m.store && m.store[id].id == id
            && (Live(m.store[id]) ==> m.store[id] in m.book)
            && (!Live(m.store[id]) ==> m.store[id].remaining == 0)
  {
    StoredAt(s.store, s.book, |s.book|, t, id);
    if k :| 0 <= k < |s.book| && s.book[k].id == id {
      UpdatedShape(s.book, k, t);
      if Updated(s.book, k, t).status != Filled {
        RestKeeps(s.book, |s.book|, t, k);
      }
    }
  }

  lemma MatchAgrees(s: State, t: Taker)
    requires Agrees(s)
    ensures Agrees(Match(s, t))
  {
    var m := Match(s, t);
    RestWellFormed(s.book, |s.book|, t);
    StoredKeys(s.store, s.book, |s.book|, t);
    forall id | id in m.store
      ensures m.store[id].id == id
      ensures Live(m.store[id]) ==> m.store[id] in m.book
      ensures !Live(m.store[id]) ==> m.store[id].remaining == 0
    {
      MatchStoreAt(s, t, id);
    }
    forall i | 0 <= i < |m.book|
      ensures m.book[i].id in m.store && m.store[m.book[i].id] == m.book[i]
    {
      var k := RestOrigin(s.book, |s.book|, t, m.book[i]);
      UpdatedShape(s.book, k, t);
      StoredAt(s.store, s.book, |s.book|, t, s.book[k].id);
    }
  }

  lemma {:induction false} RemoveFirstContents(book: seq<Order>, id: nat)
    requires WellFormed(book)
    ensures WellFormed(RemoveFirst(book, id))
    ensures forall o :: o in RemoveFirst(book, id) <==> o in book && o.id != id
  {
    if book != [] {
      var first, rest := book[0], book[1..];
      assert book == [first] + rest;
      assert WellFormed(rest);
      assert forall o :: o in rest ==> first.id < o.id;
      if first.id != id {
        RemoveFirstContents(rest, id);
        WellFormedCons(first, RemoveFirst(rest, id));
      }
    }
  }

  lemma WellFormedCons(o: Order, rest: seq<Order>)
    requires WellFormed(rest) && Resting(o) && forall p :: p in rest ==> o.id < p.id
    ensures WellFormed([o] + rest)
  {
    assert forall i :: 0 <= i < |rest| ==> rest[i] in rest;
  }

  lemma CancelAgrees(s: State, id: nat, caller: Address, isAdmin: bool)
    requires Agrees(s) && Cancel(s, id, caller, isAdmin).Ok?
    ensures Agrees(Cancel(s, id, caller, isAdmin).value)
    ensures forall o :: o in Cancel(s, id, caller, isAdmin).value.book <==> o in s.book && o.id != id
  {
    RemoveFirstContents(s.book, id);
    var c := Cancel(s, id, caller, isAdmin).value;
    forall i | 0 <= i < |c.book|
      ensures c.book[i].id in c.store && c.store[c.book[i].id] == c.book[i]
    {
      assert c.book[i] in s.book;
    }
  }

  lemma PlaceAgrees(s: State, owner: Address, outcome: nat, side: OrderSide, price: int, amount: int, now: u64)
    requires Agrees(s) && Place(s, owner, outcome, side, price, amount, now).Ok?
    ensures Agrees(Place(s, owner, outcome, side, price, amount, now).value.0)
  {
    var p := Place(s, owner, outcome, side, price, amount, now).value.0;
    forall i | 0 <= i < |s.book|
      ensures s.book[i].id < s.nextId
    {
      assert s.store[s.book[i].id] == s.book[i];
    }
    assert p.book[|s.book|] == p.store[s.nextId];
  }

  /** In every reachable state the list and the store agree. */
  lemma {:induction false} RunAgrees(calls: seq<Call>)
    ensures Agrees(Run(EMPTY, calls))
  {
    if calls != [] {
      RunAgrees(calls[..|calls| - 1]);
      var s := Run(EMPTY, calls[..|calls| - 1]);
      match calls[|calls| - 1]
      case PlaceOrder(owner, outcome, side, price, amount, now) =>
        if Place(s, owner, outcome, side, price, amount, now).Ok? {
          PlaceAgrees(s, owner, outcome, side, price, amount, now);
        }
      case CancelOrder(id, caller, isAdmin) =>
        if Cancel(s, id, caller, isAdmin).Ok? {
          CancelAgrees(s, id, caller, isAdmin);
        }
      case MatchOrder(taker) => MatchAgrees(s, taker);
    }
  }

  // ---------------------------------------------------------------------------------------------
  // Price priority
  // ---------------------------------------------------------------------------------------------

  /** A strictly better price for the taker. */
  predicate Better(p: int, q: int, t: Taker) {
    match t.side
    case BuySide => p < q
    case SellSide => p > q
  }

  /** No order is touched while a better-priced eligible one keeps some of its quantity. */
  ghost predicate BestPriceFirst(book: seq<Order>, t: Taker) {
    forall j, k :: 0 <= j < |book| && 0 <= k < |book| && Eligible(book[j], t)
                   && FillAt(book, k, t) > 0 && Better(book[j].price, book[k].price, t)
                   ==> FillAt(book, j, t) == book[j].remaining
  }

  /** Every eligible order the taker reaches is followed only by better ones that it exhausts. */
  ghost predicate PricedInReach(book: seq<Order>, t: Taker) {
    forall j, k :: 0 <= k < j < |book| && Eligible(book[k], t) && Eligible(book[j], t)
                   && Available(book, k, t) < t.amount && Better(book[j].price, book[k].price, t)
                   ==> Available(book, j + 1, t) <= t.amount
  }

  /** For two eligible orders, the later one better: it is exhausted exactly when it is within reach. */
  lemma LaterBetter(book: seq<Order>, t: Taker, k: nat, j: nat)
    requires WellFormed(book) && k < j < |book|
    requires Eligible(book[k], t) && Eligible(book[j], t) && Available(book, k, t) < t.amount
    ensures FillAt(book, k, t) > 0
    ensures FillAt(book, j, t) == book[j].remaining <==> Available(book, j + 1, t) <= t.amount
  {
    FillAtBounds(book, k, t);
    FillAtBounds(book, j, t);
    AvailableMonotone(book, 0, j, t);
  }

  /** An eligible order before one that is touched is exhausted. */
  lemma EarlierExhausted(book: seq<Order>, t: Taker, j: nat, k: nat)
    requires WellFormed(book) && j < k < |book|
    requires Eligible(book[j], t) && FillAt(book, k, t) > 0
    ensures FillAt(book, j, t) == book[j].remaining
  {
    FillAtBounds(book, k, t);
    AvailableMonotone(book, 0, j, t);
    AvailableMonotone(book, j + 1, k, t);
  }

  /** Matching goes in arrival order; that is price order exactly when the list is priced so in reach. */
  lemma BestPriceFirstIff(book: seq<Order>, t: Taker)
    requires WellFormed(book)
    ensures BestPriceFirst(book, t) <==> PricedInReach(book, t)
  {
    hide FillAt, Available, Eligible, WellFormed;
    if BestPriceFirst(book, t) {
      forall j, k | 0 <= k < j < |book| && Eligible(book[k], t) && Eligible(book[j], t)
                    && Available(book, k, t) < t.amount && Better(book[j].price, book[k].price, t)
        ensures Available(book, j + 1, t) <= t.amount
      {
        LaterBetter(book, t, k, j);
      }
    }
    if PricedInReach(book, t) {
      forall j, k | 0 <= j < |book| && 0 <= k < |book| && Eligible(book[j], t)
                    && FillAt(book, k, t) > 0 && Better(book[j].price, book[k].price, t)
        ensures FillAt(book, j, t) == book[j].remaining
      {
        FillAtBounds(book, k, t);
        if k < j {
          LaterBetter(book, t, k, j);
        } else {
          EarlierExhausted(book, t, j, k);
        }
      }
    }
  }

  lemma DearerFirst(dear: Order, cheap: Order, t: Taker)
    requires t.side == BuySide && t.amount == 1
    requires Eligible(dear, t) && Eligible(cheap, t) && WellFormed([dear, cheap])
    requires dear.remaining == cheap.remaining == 1 && cheap.price < dear.price
    ensures FillAt([dear, cheap], 0, t) == 1 && FillAt([dear, cheap], 1, t) == 0
    ensures !BestPriceFirst([dear, cheap], t) && Rest([dear, cheap], 2, t) == [cheap]
  {
    var asks := [dear, cheap];
    assert Available(asks, 0, t) == 0;
    assert Available(asks, 1, t) == Available(asks, 0, t) + asks[0].remaining;
    assert Available(asks, 2, t) == Available(asks, 1, t) + asks[1].remaining;
    assert FillAt(asks, 0, t) == 1 && FillAt(asks, 1, t) == 0;
    assert Better(asks[1].price, asks[0].price, t);
    assert Rest(asks, 1, t) == [];
  }

  /** A seller places two asks for one token each, the dearer one first: a buyer of one token gets the dearer, and the
      cheaper one is left. */
  lemma ArrivalOrderExample(seller: Address, t: Taker, dear: int, cheap: int, now: u64)
    requires 0 < cheap < dear <= t.limit && t.side == BuySide && t.amount == 1
    ensures var s := Run(EMPTY, [PlaceOrder(seller, t.outcome, SellSide, dear, 1, now),
                                 PlaceOrder(seller, t.outcome, SellSide, cheap, 1, now)]);
            && |s.book| == 2 && s.book[0].price == dear && s.book[1].price == cheap
            && FillAt(s.book, 0, t) == 1 && FillAt(s.book, 1, t) == 0 && !BestPriceFirst(s.book, t)
            && Match(s, t).book == [s.book[1]]
  {
    var first, second := PlaceOrder(seller, t.outcome, SellSide, dear, 1, now),
                         PlaceOrder(seller, t.outcome, SellSide, cheap, 1, now);
    var calls := [first, second];
    assert calls[..1] == [first] && [first][..0] == [];
    var o := Order(1, seller, t.outcome, SellSide, dear, 1, 1, Active, now);
    var p := Order(2, seller, t.outcome, SellSide, cheap, 1, 1, Active, now);
    assert Step(EMPTY, first) == State(2, [] + [o], map[1 := o]) && [] + [o] == [o];
    assert Run(EMPTY, [first]) == Step(Run(EMPTY, []), first) == Step(EMPTY, first);
    assert Step(Step(EMPTY, first), second).book == [o] + [p] == [o, p];
    assert Run(EMPTY, calls) == Step(Run(EMPTY, [first]), second);
    hide Run, Step;
    DearerFirst(o, p, t);
  }
}
