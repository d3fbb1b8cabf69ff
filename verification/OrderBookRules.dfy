/** Which orders a taker trades with and on what terms, and who may cancel an order, in the fields of orders. */
module OrderBookRules {
  import opened Wrappers
  import opened Checked
  import opened Host
  import opened Cpmm
  import opened OrderBook
  import opened OrderBookLaws

  /** An order of the other side, for the same outcome, that still rests, at a price within the taker's limit. */
  predicate Crosses(o: Order, t: Taker) {
    && o.outcome == t.outcome && o.side != t.side && (o.status == Active || o.status == PartiallyFilled)
    && if t.side == BuySide then o.price <= t.limit else t.limit <= o.price
  }

  lemma EligibleMeans(o: Order, t: Taker)
    ensures Eligible(o, t) <==> Crosses(o, t)
  {
  }

  /** Every fill names a crossing order of the list and its owner, at its price, for no more than it has left. */
  lemma FillMeans(book: seq<Order>, t: Taker, f: TradeFill) returns (k: nat)
    requires WellFormed(book) && f in Fills(book, |book|, t)
    ensures k < |book| && Crosses(book[k], t) && 0 < f.amount <= book[k].remaining
    ensures f.orderId == book[k].id && f.maker == book[k].owner && f.taker == t.who && f.price == book[k].price
    ensures f.outcome == t.outcome && f.side == t.side
    ensures t.feeBps <= 0 ==> f.fee == 0
    ensures t.feeBps > 0 && FitsI128(f.amount * f.price * t.feeBps) ==>
              f.fee * 10000 <= f.amount * f.price * t.feeBps < (f.fee + 1) * 10000
  {
    k := FillOrigin(book, |book|, t, f);
    EligibleMeans(book[k], t);
    FillFeeMeans(f.amount, f.price, t.feeBps, book[k]);
  }

  lemma FillFeeMeans(qty: int, price: int, feeBps: int, o: Order)
    requires 0 < qty && 0 < price
    ensures feeBps <= 0 ==> FillFee(qty, price, feeBps) == 0
    ensures feeBps > 0 && FitsI128(qty * price * feeBps) ==>
              var fee := FillFee(qty, price, feeBps);
              fee * 10000 <= qty * price * feeBps < (fee + 1) * 10000
  {
    if feeBps > 0 && FitsI128(qty * price * feeBps) {
      MulMono(1, price, qty);
      var notional := qty * price;
      MulMono(1, feeBps, notional);
      FloorBracket(notional * feeBps, 10000);
    }
  }

  /** When a taker is not served in full, nothing is left in the list that crosses. */
  lemma MatchExhausts(book: seq<Order>, t: Taker, k: nat)
    requires WellFormed(book) && k < |book| && Crosses(book[k], t)
    requires SumFills(Fills(book, |book|, t)) < t.amount
    ensures FillAt(book, k, t) == book[k].remaining && Updated(book, k, t).status == Filled
  {
    FillsAddUp(book, |book|, t);
    EligibleMeans(book[k], t);
    FillAtBounds(book, k, t);
    AvailableMonotone(book, k + 1, |book|, t);
    AvailableMonotone(book, 0, k, t);
  }

  /** An order is placed if and only if amount and price are positive and the list has room for it. */
  lemma PlaceIff(s: State, owner: Address, outcome: nat, side: OrderSide, price: int, amount: int, now: u64)
    ensures var r := Place(s, owner, outcome, side, price, amount, now);
            && (r.Ok? <==> amount > 0 && price > 0 && |s.book| < 256)
            && (r.Ok? ==>
                  var o := Order(s.nextId, owner, outcome, side, price, amount, amount, Active, now);
                  r.value == (State(s.nextId + 1, s.book + [o], s.store[s.nextId := o]), s.nextId))
  {
  }

  /** A resting order is cancelled by its owner or the administrator, and leaves the list. */
  lemma CancelIff(s: State, id: nat, caller: Address, isAdmin: bool)
    requires Agrees(s)
    ensures var r := Cancel(s, id, caller, isAdmin);
            && (r.Ok? <==> && id in s.store && (s.store[id].status == Active || s.store[id].status == PartiallyFilled)
                           && (isAdmin || s.store[id].owner == caller))
            && (r.Ok? ==>
                  && r.value.store == s.store[id := s.store[id].(status := Cancelled, remaining := 0)]
                  && r.value.nextId == s.nextId
                  && forall o :: o in r.value.book <==> o in s.book && o.id != id)
  {
    hide RemoveFirst, Agrees;
    if Cancel(s, id, caller, isAdmin).Ok? {
      CancelAgrees(s, id, caller, isAdmin);
    }
  }
}
