/** The event contract's stored subscriptions, delivery records and metrics, and its entry points. */
module DeliveryContract {
  import opened Wrappers
  import opened Host
  import opened Bytes
  import opened Delivery
  import opened DeliveryLaws

  /** A detail written as the sixteen big-endian bytes of a number. */
  method NumericDetailBytes(value: int) returns (b: seq<byte>)
    requires -TWO_127 <= value < TWO_127
    ensures b == EncodeI128(value) && DecodeI128(b) == value
  {
    var n: nat := if value < 0 then value + 2 * TWO_127 else value;
    b := [];
    var rest, left: nat := n, 16;
    while left > 0
      invariant left <= 16 && |b| == 16 - left
      invariant BigEndian(n, 16) == BigEndian(rest, left) + b
    {
      b := [rest % 256] + b;
      assert BigEndian(rest, left) == BigEndian(rest / 256, left - 1) + [rest % 256];
      rest, left := rest / 256, left - 1;
    }
    I128RoundTrip(value, b);
  }

  method ComputeBackoff(attempt: nat) returns (delay: nat)
    ensures delay == BackoffDelay(attempt)
  {
    delay := RETRY_INITIAL;
    var shifts := Min(attempt, 31);
    var i := 0;
    while i < shifts
      invariant 0 <= i <= shifts
      invariant delay == BackoffDelay(i) < RETRY_MAX
    {
      BackoffShape(i);
      i := i + 1;
      delay := Min(delay * 2, RETRY_MAX);
      if delay >= RETRY_MAX {
        break;
      }
    }
    BackoffShape(i);
    BackoffShape(attempt);
  }

  method FilterMatches(f: Filter, t: EventType, severity: nat, details: Details) returns (ok: bool)
    ensures ok == Matches(f, t, severity, details)
  {
    if f.minSeverity > severity {
      return false;
    }
    if f.eventTypes != [] {
      var contains := false;
      for i := 0 to |f.eventTypes|
        invariant contains <==> t in f.eventTypes[..i]
      {
        contains := contains || f.eventTypes[i] == t;
      }
      assert f.eventTypes[..|f.eventTypes|] == f.eventTypes;
      if !contains {
        return false;
      }
    }
    for i := 0 to |f.conditions|
      invariant forall j :: 0 <= j < i ==> Satisfies(f.conditions[j], details)
    {
      if !Satisfies(f.conditions[i], details) {
        return false;
      }
    }
    return true;
  }

  class EventContract {
    var subs: map<nat, Sub>
    var subCounter: nat
    var lists: map<Symbol, seq<nat>>
    var eventCounter: nat
    var records: map<Address, seq<Record>>
    var batches: map<Address, seq<nat>>
    var metrics: Metrics

    function View(): State
      reads this
    {
      State(subs, subCounter, lists, eventCounter, records, batches, metrics)
    }

    constructor ()
      ensures View() == EMPTY
    {
      subs, subCounter, lists, eventCounter := map[], 0, map[], 0;
      records, batches, metrics := map[], map[], Metrics(0, 0, 0, 0, 0, 0);
    }

    method CreateSubscription(now: u64, portfolio: Symbol, who: Address, f: Filter, p: Prefs) returns (id: nat)
      modifies this`subs, this`subCounter, this`lists
      ensures View() == Subscribe(old(View()), now, portfolio, who, f, p) && id == subCounter
    {
      id := subCounter + 1;
      subCounter := id;
      var list := if portfolio in lists then lists[portfolio] else [];
      lists := lists[portfolio := list + [id]];
      subs := subs[id := Sub(who, portfolio, f, p, now, None, Active, 0, 0)];
    }

    method UpdateSubscriptionPrefs(caller: Address, id: nat, p: Prefs) returns (r: Result<(), Error>)
      modifies this`subs
      ensures r == UpdatePrefs(old(View()), caller, id, p).Map((_: State) => ())
      ensures View() == if r.Ok? then UpdatePrefs(old(View()), caller, id, p).value else old(View())
    {
      if id !in subs {
        return Err(NotFound);
      }
      var sub := subs[id];
      if caller != sub.subscriber {
        return Err(NotAuthorizedByHost);
      }
      if sub.status == Cancelled {
        return Err(InvalidState);
      }
      subs := subs[id := sub.(prefs := p)];
      return Ok(());
    }

    method SetSubscriptionStatus(caller: Address, id: nat, status: SubStatus) returns (r: Result<(), Error>)
      modifies this`subs
      ensures r == SetStatus(old(View()), caller, id, status).Map((_: State) => ())
      ensures View() == if r.Ok? then SetStatus(old(View()), caller, id, status).value else old(View())
    {
      if id !in subs {
        return Err(NotFound);
      }
      var sub := subs[id];
      if caller != sub.subscriber {
        return Err(NotAuthorizedByHost);
      }
      if sub.status == Cancelled && status != Cancelled {
        return Err(InvalidState);
      }
      subs := subs[id := sub.(status := status)];
      return Ok(());
    }

    method EnqueueDelivery(r: Record)
      modifies this`records
      ensures records == old(records)[r.subscriber := RecordsOf(old(View()), r.subscriber) + [r]]
    {
      var mine := if r.subscriber in records then records[r.subscriber] else [];
      records := records[r.subscriber := mine + [r]];
    }

    /** Count a delivery on its subscription, if there is one. */
    method CreditSubscription(id: nat)
      modifies this`subs
      ensures subs == Credit(old(subs), id)
    {
      if id in subs {
        subs := subs[id := subs[id].(totalDelivered := subs[id].totalDelivered + 1)];
      }
    }

    /** The loop of a pass: the records after it, the events delivered, and how many were retries. */
    method AttemptAll(now: u64, mine: seq<Record>) returns (updated: seq<Record>, delivered: seq<nat>, retries: nat)
      modifies this`subs
      ensures Sweep(updated, delivered, retries, subs) == Swept(old(subs), mine, now)
    {
      hide Credit;
      updated, delivered, retries := [], [], 0;
      for i := 0 to |mine|
        invariant Sweep(updated, delivered, retries, subs) == Swept(old(subs), mine[..i], now)
      {
        assert mine[..i + 1][..i] == mine[..i];
        var rec := mine[i];
        if rec.status == Pending && rec.nextRetryAt <= now {
          if rec.attempts > 0 {
            retries := retries + 1;
          }
          rec := rec.(attempts := rec.attempts + 1, status := Delivered, deliveredAt := Some(now));
          delivered := delivered + [rec.event];
          CreditSubscription(rec.sub);
        }
        updated := updated + [rec];
      }
      assert mine[..|mine|] == mine;
    }

    method DeliverPending(now: u64, who: Address) returns (delivered: seq<nat>)
      modifies this`records, this`subs, this`metrics
      ensures (View(), delivered) == Deliver(old(View()), now, who)
    {
      hide Swept;
      var mine := if who in records then records[who] else [];
      SweptCounts(subs, mine, now);
      RetriesBelow(mine, now);
      var updated, retries;
      updated, delivered, retries := AttemptAll(now, mine);
      if delivered != [] {
        metrics := metrics.(delivered := metrics.delivered + |delivered|, retries := metrics.retries + retries);
      }
      records := records[who := updated];
    }

    /** Count a failure on its subscription, if there is one. */
    method ChargeSubscription(id: nat)
      modifies this`subs
      ensures subs == Charge(old(subs), id)
    {
      if id in subs {
        subs := subs[id := subs[id].(totalFailed := subs[id].totalFailed + 1)];
      }
    }

    method MarkDeliveryFailed(now: u64, who: Address, event: nat) returns (r: Result<(), Error>)
      modifies this`records, this`subs, this`metrics
      ensures r == MarkFailed(old(View()), now, who, event).Map((_: State) => ())
      ensures View() == if r.Ok? then MarkFailed(old(View()), now, who, event).value else old(View())
    {
      hide BackoffDelay, Find, WrappingAdd, Charge;
      if who !in records {
        NothingFound(event, Pending, Some(who));
        return Err(NotFound);
      }
      var mine := records[who];
      var found := FindFirst(mine, event, Pending, Some(who));
      if found.None? {
        return Err(NotFound);
      }
      var rec := mine[found.value];
      var delay := ComputeBackoff(rec.attempts);
      rec := rec.(attempts := rec.attempts + 1, nextRetryAt := WrappingAdd(now, delay));
      metrics := metrics.(failed := metrics.failed + 1);
      ChargeSubscription(rec.sub);
      records := records[who := mine[found.value := rec]];
      return Ok(());
    }

    method AcknowledgeDelivery(now: u64, who: Address, event: nat) returns (r: Result<(), Error>)
      modifies this`records, this`metrics
      ensures r == Acknowledge(old(View()), now, who, event).Map((_: State) => ())
      ensures View() == if r.Ok? then Acknowledge(old(View()), now, who, event).value else old(View())
    {
      if who !in records {
        return Err(NotFound);
      }
      var mine := records[who];
      var found := FindFirst(mine, event, Delivered, None);
      if found.None? {
        return Err(InvalidState);
      }
      var rec := mine[found.value];
      var since := if rec.deliveredAt.Some? then rec.deliveredAt.value else now;
      var latency := WrapU64(metrics.latency + now - since);
      metrics := metrics.(acknowledged := metrics.acknowledged + 1, latency := latency);
      rec := rec.(status := Acknowledged, ackedAt := Some(now));
      records := records[who := mine[found.value := rec]];
      return Ok(());
    }

    method FlushBatch(now: u64, who: Address) returns (flushed: seq<nat>)
      modifies this`records, this`subs, this`metrics, this`batches
      ensures (View(), flushed) == Flush(old(View()), now, who)
    {
      var batch := if who in batches then batches[who] else [];
      if batch == [] {
        return [];
      }
      flushed := DeliverPending(now, who);
      batches := batches - {who};
    }

    /** One subscription's part of a dispatch. */
    method NotifySubscription(now: u64, id: nat, v: Notice)
      modifies this`records, this`subs, this`metrics, this`batches
      ensures View() == Notify(old(View()), now, id, v)
    {
      hide Matches, Flush;
      if id !in subs {
        return;
      }
      var sub := subs[id];
      if sub.status != Active {
        return;
      }
      var matched := FilterMatches(sub.filter, v.eventType, v.severity, v.details);
      if !matched {
        return;
      }
      subs := subs[id := sub.(lastEventAt := Some(now))];
      var delay := ComputeBackoff(0);
      EnqueueDelivery(Record(v.event, id, sub.subscriber, Pending, 0, WrappingAdd(now, delay), None, None));
      if sub.prefs.mode == Batch {
        var batch := if sub.subscriber in batches then batches[sub.subscriber] else [];
        batch := batch + [v.event];
        batches := batches[sub.subscriber := batch];
        if |batch| >= sub.prefs.batchSize {
          var _ := FlushBatch(now, sub.subscriber);
        }
      }
    }

    method DispatchEvent(now: u64, portfolio: Symbol, t: EventType, severity: nat, details: Details)
      returns (event: nat)
      modifies this`eventCounter, this`records, this`subs, this`metrics, this`batches
      ensures View() == Dispatch(old(View()), now, portfolio, t, severity, details) && event == old(eventCounter) + 1
    {
      hide Notify;
      event := eventCounter + 1;
      eventCounter := event;
      var v := Notice(event, t, severity, details);
      var ids := if portfolio in lists then lists[portfolio] else [];
      ghost var start := View();
      for i := 0 to |ids|
        invariant View() == NotifyAll(start, now, ids[..i], v)
      {
        assert ids[..i + 1][..i] == ids[..i];
        NotifySubscription(now, ids[i], v);
      }
      assert ids[..|ids|] == ids;
      metrics := metrics.(dispatched := metrics.dispatched + 1);
    }
  }

  /** The loop that looks for the first record of an event in a status. */
  method FindFirst(rs: seq<Record>, event: nat, status: DeliveryStatus, of: Option<Address>) returns (r: Option<nat>)
    ensures r == Find(rs, |rs|, event, status, of)
  {
    r := None;
    for i := 0 to |rs|
      invariant r == Find(rs, i, event, status, of)
    {
      if r.None? && rs[i].event == event && (of.None? || rs[i].subscriber == of.value) && rs[i].status == status {
        r := Some(i);
      }
    }
  }

  lemma NothingFound(event: nat, status: DeliveryStatus, of: Option<Address>)
    ensures Find([], 0, event, status, of) == None
  {
  }

  lemma {:induction false} RetriesBelow(rs: seq<Record>, now: u64)
    ensures PassChange(rs, now, Retries, Everyone) <= PassChange(rs, now, Deliveries, Everyone)
  {
    if rs != [] {
      RetriesBelow(rs[..|rs| - 1], now);
    }
  }
}
