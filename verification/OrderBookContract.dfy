/** The stored order book of one market and the operations that update it in place. */
module OrderBookContract {
  import opened Wrappers
  import opened Checked
  import opened Host
  import opened Cpmm
  import opened OrderBook
  import opened OrderBookLaws

  datatype Snapshot = Snapshot(bidCount: nat, askCount: nat, bestBid: int, bestAsk: int, spread: int)

  /** A live order that quotes one side of one outcome. */
  predicate Quotes(o: Order, outcome: nat, side: OrderSide) {
    o.outcome == outcome && Live(o) && o.side == side
  }

  function CountQuotes(book: seq<Order>, n: nat, outcome: nat, side: OrderSide): nat
    requires n <= |book|
  {
    if n == 0 then 0
    else CountQuotes(book, n - 1, outcome, side) + if Quotes(book[n - 1], outcome, side) then 1 else 0
  }

  function HighestBid(book: seq<Order>, n: nat, outcome: nat): int
    requires n <= |book|
  {
    if n == 0 then 0
    else
      var before := HighestBid(book, n - 1, outcome);
      if Quotes(book[n - 1], outcome, BuySide) then Max(before, book[n - 1].price) else before
  }

  function LowestAsk(book: seq<Order>, n: nat, outcome: nat): int
    requires n <= |book|
  {
    if n == 0 then I128_MAX
    else
      var before := LowestAsk(book, n - 1, outcome);
      if Quotes(book[n - 1], outcome, SellSide) then Min(before, book[n - 1].price) else before
  }

  lemma {:induction false} BestQuotes(book: seq<Order>, n: nat, outcome: nat)
    requires n <= |book|
    ensures forall k :: 0 <= k < n && Quotes(book[k], outcome, BuySide) ==>
              book[k].price <= HighestBid(book, n, outcome)
    ensures forall k :: 0 <= k < n && Quotes(book[k], outcome, SellSide) ==>
              LowestAsk(book, n, outcome) <= book[k].price
    ensures HighestBid(book, n, outcome) == 0
            || exists k :: 0 <= k < n && Quotes(book[k], outcome, BuySide)
                           && book[k].price == HighestBid(book, n, outcome)
    ensures LowestAsk(book, n, outcome) == I128_MAX
            || exists k :: 0 <= k < n && Quotes(book[k], outcome, SellSide)
                           && book[k].price == LowestAsk(book, n, outcome)
  {
    if n > 0 {
      BestQuotes(book, n - 1, outcome);
      assert Quotes(book[n - 1], outcome, book[n - 1].side) || !Quotes(book[n - 1], outcome, book[n - 1].side);
    }
  }

  /** The quantity the loop computes for the i-th order, from what is left of the taker's amount. */
  lemma GreedyStep(book: seq<Order>, i: nat, t: Taker)
    requires WellFormed(book) && i < |book|
    ensures var left := t.amount - FilledBy(book, i, t);
            && (FillAt(book, i, t) > 0 <==> Eligible(book[i], t) && left > 0)
            && (FillAt(book, i, t) > 0 ==> FillAt(book, i, t) == Min(left, book[i].remaining))
            && FillAt(book, i, t) >= 0
            && left - FillAt(book, i, t) == t.amount - FilledBy(book, i + 1, t)
  {
    FillAtBounds(book, i, t);
    AvailableMonotone(book, 0, i, t);
  }

  /** The lists after one more order, by whether it trades. */
  lemma MatchUnfold(store: map<nat, Order>, book: seq<Order>, i: nat, t: Taker)
    requires WellFormed(book) && i < |book|
    ensures var f := FillAt(book, i, t);
            if f > 0 then
              && Fills(book, i + 1, t) == Fills(book, i, t) + [FillOf(book[i], f, t)]
              && Rest(book, i + 1, t)
                 == Rest(book, i, t) + (if book[i].remaining == f then [] else [AfterFill(book[i], f)])
              && Stored(store, book, i + 1, t) == Stored(store, book, i, t)[book[i].id := AfterFill(book[i], f)]
            else
              && Fills(book, i + 1, t) == Fills(book, i, t)
              && Rest(book, i + 1, t) == Rest(book, i, t) + [book[i]]
              && Stored(store, book, i + 1, t) == Stored(store, book, i, t)
  {
  }

  /** Removing the first order of an id, once its position is known. */
  lemma {:induction false} RemoveFirstAt(book: seq<Order>, id: nat, i: nat)
    requires i <= |book| && forall k :: 0 <= k < i ==> book[k].id != id
    requires i < |book| ==> book[i].id == id
    ensures RemoveFirst(book, id) == if i < |book| then book[..i] + book[i + 1..] else book
  {
    if i > 0 {
      RemoveFirstAt(book[1..], id, i - 1);
      assert book == [book[0]] + book[1..];
      if i < |book| {
        assert [book[0]] + book[1..][..i - 1] == book[..i];
        assert book[1..][i..] == book[i + 1..];
      }
    }
  }

  class Book {
    var nextId: nat
    var orders: seq<Order>
    var store: map<nat, Order>

    function View(): State
      reads this
    {
      State(nextId, orders, store)
    }

    ghost predicate Valid()
      reads this
    {
      Agrees(View())
    }

    constructor ()
      ensures Valid() && View() == EMPTY
    {
      nextId, orders, store := 1, [], map[];
    }

    method PlaceOrder(owner: Address, outcome: nat, side: OrderSide, price: int, amount: int, now: u64)
      returns (r: Result<nat, PredictionError>)
      requires Valid()
      modifies this
      ensures Valid()
      ensures r == Place(old(View()), owner, outcome, side, price, amount, now).Map((p: (State, nat)) => p.1)
      ensures View() == Step(old(View()), Call.PlaceOrder(owner, outcome, side, price, amount, now))
    {
      hide Agrees;
      if amount <= 0 || price <= 0 {
        return Err(InvalidOrderAmount);
      }
      if |orders| >= MAX_BOOK_DEPTH {
        return Err(ArithmeticOverflow);
      }
      PlaceAgrees(View(), owner, outcome, side, price, amount, now);
      var id := nextId;
      nextId := nextId + 1;
      var order := Order(id, owner, outcome, side, price, amount, amount, Active, now);
      store := store[id := order];
      orders := orders + [order];
      return Ok(id);
    }

    method CancelOrder(id: nat, caller: Address, isAdmin: bool) returns (r: Result<(), PredictionError>)
      requires Valid()
      modifies this
      ensures Valid()
      ensures r == Cancel(old(View()), id, caller, isAdmin).Map((_: State) => ())
      ensures View() == Step(old(View()), Call.CancelOrder(id, caller, isAdmin))
    {
      hide RemoveFirst, Agrees;
      if id !in store {
        return Err(OrderNotFound);
      }
      var order := store[id];
      if order.status != Active && order.status != PartiallyFilled {
        return Err(OrderNotFound);
      }
      if !isAdmin && order.owner != caller {
        return Err(NotOrderOwner);
      }
      CancelAgrees(View(), id, caller, isAdmin);
      store := store[id := order.(status := Cancelled, remaining := 0)];
      RemoveOrderFromList(id);
      return Ok(());
    }

    method RemoveOrderFromList(id: nat)
      modifies this`orders
      ensures orders == RemoveFirst(old(orders), id)
    {
      var i := 0;
      while i < |orders| && orders[i].id != id
        invariant 0 <= i <= |orders|
        invariant forall k :: 0 <= k < i ==> orders[k].id != id
      {
        i := i + 1;
      }
      RemoveFirstAt(orders, id, i);
      if i < |orders| {
        orders := orders[..i] + orders[i + 1..];
      }
    }

    /** One pass over the list: the fills, the list left behind, the store, and what is left to fill. */
    method Walk(t: Taker)
      returns (fills: seq<TradeFill>, kept: seq<Order>, after: map<nat, Order>, remaining: int)
      requires WellFormed(orders)
      ensures fills == Fills(orders, |orders|, t) && kept == Rest(orders, |orders|, t)
      ensures after == Stored(store, orders, |orders|, t)
      ensures remaining == t.amount - FilledBy(orders, |orders|, t)
    {
      hide FillAt, FillFee;
      fills, kept, after, remaining := [], [], store, t.amount;
      for i := 0 to |orders|
        invariant fills == Fills(orders, i, t) && kept == Rest(orders, i, t)
        invariant after == Stored(store, orders, i, t)
        invariant remaining == t.amount - FilledBy(orders, i, t)
      {
        GreedyStep(orders, i, t);
        MatchUnfold(store, orders, i, t);
        var order := orders[i];
        if Eligible(order, t) && remaining > 0 {
          var qty := Min(remaining, order.remaining);
          fills := fills + [FillOf(order, qty, t)];
          order := order.(remaining := order.remaining - qty);
          if order.remaining == 0 {
            order := order.(status := Filled);
          } else {
            order := order.(status := PartiallyFilled);
            kept := kept + [order];
          }
          after := after[order.id := order];
          remaining := remaining - qty;
        } else {
          kept := kept + [order];
        }
      }
    }

    method MatchOrder(t: Taker) returns (fills: seq<TradeFill>, filled: int)
      requires Valid()
      modifies this
      ensures Valid()
      ensures fills == Fills(old(orders), |old(orders)|, t)
      ensures filled == SumFills(fills)
      ensures View() == Match(old(View()), t)
    {
      hide Fills, Rest, Stored;
      MatchAgrees(View(), t);
      FillsAddUp(orders, |orders|, t);
      var remaining;
      fills, orders, store, remaining := Walk(t);
      filled := t.amount - remaining;
    }

    method GetBookSnapshot(outcome: nat) returns (r: Snapshot)
      requires Valid()
      ensures r.bidCount == CountQuotes(orders, |orders|, outcome, BuySide)
      ensures r.askCount == CountQuotes(orders, |orders|, outcome, SellSide)
      ensures forall k :: 0 <= k < |orders| && Quotes(orders[k], outcome, BuySide) ==> orders[k].price <= r.bestBid
      ensures r.bestBid == 0
              || exists k :: 0 <= k < |orders| && Quotes(orders[k], outcome, BuySide) && orders[k].price == r.bestBid
      ensures r.bestAsk != 0 ==>
                && (forall k :: 0 <= k < |orders| && Quotes(orders[k], outcome, SellSide) ==>
                      r.bestAsk <= orders[k].price)
                && exists k :: 0 <= k < |orders| && Quotes(orders[k], outcome, SellSide) && orders[k].price == r.bestAsk
      ensures r.bestAsk == 0 ==>
                forall k :: 0 <= k < |orders| && Quotes(orders[k], outcome, SellSide) ==> I128_MAX <= orders[k].price
      ensures r.spread == if r.bestBid > 0 && r.bestAsk > 0 then r.bestAsk - r.bestBid else 0
    {
      var bestBid, bestAsk, bids, asks := 0, I128_MAX, 0, 0;
      for i := 0 to |orders|
        invariant bids == CountQuotes(orders, i, outcome, BuySide)
        invariant asks == CountQuotes(orders, i, outcome, SellSide)
        invariant bestBid == HighestBid(orders, i, outcome)
        invariant bestAsk == LowestAsk(orders, i, outcome)
        invariant bestAsk > 0
      {
        var order := orders[i];
        if order.outcome != outcome || !Live(order) {
          continue;
        }
        match order.side
        case BuySide =>
          bids := bids + 1;
          if order.price > bestBid {
            bestBid := order.price;
          }
        case SellSide =>
          asks := asks + 1;
          if order.price < bestAsk {
            bestAsk := order.price;
          }
      }
      BestQuotes(orders, |orders|, outcome);
      if bestAsk == I128_MAX {
        bestAsk := 0;
      }
      var spread := if bestBid > 0 && bestAsk > 0 then bestAsk - bestBid else 0;
      return Snapshot(bids, asks, bestBid, bestAsk, spread);
    }
  }
}
