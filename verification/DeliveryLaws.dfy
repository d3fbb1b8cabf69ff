/** The delivery counters agree with the records in every run; dispatch reaches exactly whom it should. */
module DeliveryLaws {
  import opened Wrappers
  import opened Host
  import opened Bytes
  import opened Sums
  import opened Delivery

  // ---------------------------------------------------------------------------------------------
  // Counting over records
  // ---------------------------------------------------------------------------------------------

  /** What can be counted on a record. */
  datatype Kind = Records | Deliveries | Failures | Retries | Acknowledgments | Latency

  /** Whose records count: everybody's, those of one subscription, those of one event for one subscription. */
  datatype Scope = Everyone | OneSub(sub: nat) | OneDelivery(event: nat, sub: nat)

  predicate WasDelivered(r: Record) {
    r.status == Delivered || r.status == Acknowledged
  }

  function Value(r: Record, k: Kind): int {
    match k
    case Records => 1
    case Deliveries => if WasDelivered(r) then 1 else 0
    case Failures => if WasDelivered(r) then r.attempts - 1 else r.attempts
    case Retries => if WasDelivered(r) && r.attempts >= 2 then 1 else 0
    case Acknowledgments => if r.status == Acknowledged then 1 else 0
    case Latency =>
      if r.status == Acknowledged && r.ackedAt.Some? && r.deliveredAt.Some?
      then r.ackedAt.value - r.deliveredAt.value else 0
  }

  predicate InScope(r: Record, c: Scope) {
    match c
    case Everyone => true
    case OneSub(sub) => r.sub == sub
    case OneDelivery(event, sub) => r.event == event && r.sub == sub
  }

  function Weight(r: Record, k: Kind, c: Scope): int {
    if InScope(r, c) then Value(r, k) else 0
  }

  function Sum(rs: seq<Record>, k: Kind, c: Scope): int {
    if rs == [] then 0 else Sum(rs[..|rs| - 1], k, c) + Weight(rs[|rs| - 1], k, c)
  }

  ghost function PerSubscriber(records: map<Address, seq<Record>>, k: Kind, c: Scope): map<Address, int> {
    map a | a in records :: Sum(records[a], k, c)
  }

  /** The count over all stored records. */
  ghost function Grand(records: map<Address, seq<Record>>, k: Kind, c: Scope): int {
    Total(PerSubscriber(records, k, c))
  }

  lemma SumSnoc(rs: seq<Record>, r: Record, k: Kind, c: Scope)
    ensures Sum(rs + [r], k, c) == Sum(rs, k, c) + Weight(r, k, c)
  {
    assert (rs + [r])[..|rs|] == rs;
  }

  lemma {:induction false} SumUpdate(rs: seq<Record>, i: nat, r: Record, k: Kind, c: Scope)
    requires i < |rs|
    ensures Sum(rs[i := r], k, c) == Sum(rs, k, c) + Weight(r, k, c) - Weight(rs[i], k, c)
  {
    hide Weight;
    if i < |rs| - 1 {
      assert rs[i := r][..|rs| - 1] == rs[..|rs| - 1][i := r];
      SumUpdate(rs[..|rs| - 1], i, r, k, c);
    } else {
      assert rs[i := r][..|rs| - 1] == rs[..|rs| - 1];
    }
  }

  /** Replacing one subscriber's records changes the grand count by the difference of the sums. */
  lemma GrandPut(records: map<Address, seq<Record>>, a: Address, rs: seq<Record>, k: Kind, c: Scope)
    ensures Grand(records[a := rs], k, c)
            == Grand(records, k, c) + Sum(rs, k, c) - if a in records then Sum(records[a], k, c) else 0
  {
    hide Total, Sum;
    var sums := PerSubscriber(records, k, c);
    assert PerSubscriber(records[a := rs], k, c) == sums[a := Sum(rs, k, c)];
    TotalUpdate(sums, a, Sum(rs, k, c));
  }

  lemma {:induction false} SumZero(rs: seq<Record>, k: Kind, c: Scope)
    requires forall r :: r in rs ==> Weight(r, k, c) == 0
    ensures Sum(rs, k, c) == 0
  {
    if rs != [] {
      SumZero(rs[..|rs| - 1], k, c);
    }
  }

  lemma {:induction false} TotalZero(m: map<Address, int>)
    requires forall a :: a in m ==> m[a] == 0
    ensures Total(m) == 0
    decreases |m|
  {
    if m != map[] {
      var a :| a in m;
      TotalRemove(m, a);
      TotalZero(m - {a});
    }
  }

  lemma GrandZero(records: map<Address, seq<Record>>, k: Kind, c: Scope)
    requires forall a, r :: a in records && r in records[a] ==> Weight(r, k, c) == 0
    ensures Grand(records, k, c) == 0
  {
    forall a | a in records ensures Sum(records[a], k, c) == 0 {
      SumZero(records[a], k, c);
    }
    TotalZero(PerSubscriber(records, k, c));
  }

  // ---------------------------------------------------------------------------------------------
  // The invariants
  // ---------------------------------------------------------------------------------------------

  /** A record stored under a subscriber belongs to one of its subscriptions and has a consistent history:
      it was delivered, if at all, when it was due. */
  ghost predicate RecordValid(s: State, a: Address, r: Record) {
    && r.subscriber == a && r.sub in s.subs && s.subs[r.sub].subscriber == a && r.event <= s.eventCounter
    && r.status != Failed
    && (r.deliveredAt.Some? <==> WasDelivered(r)) && (r.ackedAt.Some? <==> r.status == Acknowledged)
    && (WasDelivered(r) ==> r.attempts >= 1 && r.nextRetryAt <= r.deliveredAt.value)
  }

  ghost predicate Shaped(s: State) {
    && (forall id :: id in s.subs ==> id <= s.subCounter)
    && (forall a, r :: a in s.records && r in s.records[a] ==> RecordValid(s, a, r))
  }

  ghost function DeliveredBySub(subs: map<nat, Sub>): map<nat, int> {
    map id | id in subs :: subs[id].totalDelivered
  }

  ghost function FailedBySub(subs: map<nat, Sub>): map<nat, int> {
    map id | id in subs :: subs[id].totalFailed
  }

  ghost predicate SubBooks(s: State, id: nat)
    requires id in s.subs
  {
    && s.subs[id].totalDelivered == Grand(s.records, Deliveries, OneSub(id))
    && s.subs[id].totalFailed == Grand(s.records, Failures, OneSub(id))
  }

  /** The metrics agree with the records. */
  ghost predicate MetricBooks(s: State) {
    && s.metrics.delivered == Grand(s.records, Deliveries, Everyone)
    && s.metrics.failed == Grand(s.records, Failures, Everyone)
    && s.metrics.retries == Grand(s.records, Retries, Everyone)
    && s.metrics.acknowledged == Grand(s.records, Acknowledgments, Everyone)
    && s.metrics.latency == WrapU64(Grand(s.records, Latency, Everyone))
  }

  /** The metrics agree with the subscriptions' own counters. */
  ghost predicate SubTotals(s: State) {
    && s.metrics.delivered == Total(DeliveredBySub(s.subs))
    && s.metrics.failed == Total(FailedBySub(s.subs))
  }

  /** The three views of what was delivered and what failed agree. */
  ghost predicate Books(s: State) {
    MetricBooks(s) && SubTotals(s) && forall id :: id in s.subs ==> SubBooks(s, id)
  }

  // ---------------------------------------------------------------------------------------------
  // A delivery pass
  // ---------------------------------------------------------------------------------------------

  /** How an attempt changes each count of a record. */
  function PassWeight(r: Record, now: u64, k: Kind, c: Scope): int {
    if !Due(r, now) || !InScope(r, c) then 0
    else if k == Deliveries || (k == Retries && r.attempts > 0) then 1
    else 0
  }

  /** How a pass changes each count. */
  function PassChange(rs: seq<Record>, now: u64, k: Kind, c: Scope): int {
    if rs == [] then 0 else PassChange(rs[..|rs| - 1], now, k, c) + PassWeight(rs[|rs| - 1], now, k, c)
  }

  lemma AttemptedWeight(r: Record, now: u64, k: Kind, c: Scope)
    ensures Weight(Attempted(r, now), k, c) == Weight(r, k, c) + PassWeight(r, now, k, c)
  {
  }

  /** A pass delivers and retries, nothing else. */
  lemma {:induction false} PassOnly(rs: seq<Record>, now: u64, k: Kind, c: Scope)
    requires k != Deliveries && k != Retries
    ensures PassChange(rs, now, k, c) == 0
  {
    if rs != [] {
      PassOnly(rs[..|rs| - 1], now, k, c);
    }
  }

  lemma {:induction false} SweptSum(subs: map<nat, Sub>, rs: seq<Record>, now: u64, k: Kind, c: Scope)
    ensures Sum(Swept(subs, rs, now).records, k, c) == Sum(rs, k, c) + PassChange(rs, now, k, c)
  {
    hide Weight, PassWeight, Attempted;
    if rs != [] {
      var init, last := rs[..|rs| - 1], rs[|rs| - 1];
      SweptSum(subs, init, now, k, c);
      AttemptedWeight(last, now, k, c);
      SumSnoc(Swept(subs, init, now).records, Attempted(last, now), k, c);
    }
  }

  lemma {:induction false} SweptCounts(subs: map<nat, Sub>, rs: seq<Record>, now: u64)
    ensures |Swept(subs, rs, now).delivered| == PassChange(rs, now, Deliveries, Everyone)
    ensures Swept(subs, rs, now).retries == PassChange(rs, now, Retries, Everyone)
  {
    if rs != [] {
      SweptCounts(subs, rs[..|rs| - 1], now);
    }
  }

  /** Two stores that differ in the delivered counters at most. */
  ghost predicate SameButDelivered(a: map<nat, Sub>, b: map<nat, Sub>) {
    && a.Keys == b.Keys
    && forall id :: id in a ==> b[id] == a[id].(totalDelivered := b[id].totalDelivered)
  }

  lemma {:induction false} SweptSubs(subs: map<nat, Sub>, rs: seq<Record>, now: u64)
    ensures SameButDelivered(subs, Swept(subs, rs, now).subs)
    ensures forall id :: id in subs ==>
              Swept(subs, rs, now).subs[id].totalDelivered
              == subs[id].totalDelivered + PassChange(rs, now, Deliveries, OneSub(id))
  {
    if rs != [] {
      SweptSubs(subs, rs[..|rs| - 1], now);
    }
  }

  lemma CreditTotal(subs: map<nat, Sub>, id: nat)
    requires id in subs
    ensures Total(DeliveredBySub(Credit(subs, id))) == Total(DeliveredBySub(subs)) + 1
    ensures Total(FailedBySub(Charge(subs, id))) == Total(FailedBySub(subs)) + 1
  {
    hide Total;
    assert DeliveredBySub(Credit(subs, id)) == DeliveredBySub(subs)[id := subs[id].totalDelivered + 1];
    TotalUpdate(DeliveredBySub(subs), id, subs[id].totalDelivered + 1);
    assert FailedBySub(Charge(subs, id)) == FailedBySub(subs)[id := subs[id].totalFailed + 1];
    TotalUpdate(FailedBySub(subs), id, subs[id].totalFailed + 1);
  }

  lemma {:induction false} SweptTotals(subs: map<nat, Sub>, rs: seq<Record>, now: u64)
    requires forall r :: r in rs ==> r.sub in subs
    ensures Total(DeliveredBySub(Swept(subs, rs, now).subs))
            == Total(DeliveredBySub(subs)) + |Swept(subs, rs, now).delivered|
  {
    hide Total, DeliveredBySub, Credit;
    if rs != [] {
      var init, last := rs[..|rs| - 1], rs[|rs| - 1];
      SweptTotals(subs, init, now);
      SweptSubs(subs, init, now);
      CreditTotal(Swept(subs, init, now).subs, last.sub);
    }
  }

  lemma SameFailed(a: map<nat, Sub>, b: map<nat, Sub>)
    requires SameButDelivered(a, b)
    ensures FailedBySub(a) == FailedBySub(b)
  {
  }

  lemma DeliverMetrics(s: State, now: u64, who: Address)
    requires MetricBooks(s)
    ensures MetricBooks(Deliver(s, now, who).0)
  {
    hide Grand, Swept, Sum;
    var rs := RecordsOf(s, who);
    var w := Swept(s.subs, rs, now);
    SweptCounts(s.subs, rs, now);
    PassOnly(rs, now, Failures, Everyone);
    PassOnly(rs, now, Acknowledgments, Everyone);
    PassOnly(rs, now, Latency, Everyone);
    forall k: Kind
      ensures Grand(s.records[who := w.records], k, Everyone)
              == Grand(s.records, k, Everyone) + PassChange(rs, now, k, Everyone)
    {
      DeliverGrand(s, now, who, k, Everyone);
    }
  }

  lemma DeliverGrand(s: State, now: u64, who: Address, k: Kind, c: Scope)
    ensures Grand(Deliver(s, now, who).0.records, k, c)
            == Grand(s.records, k, c) + PassChange(RecordsOf(s, who), now, k, c)
  {
    hide Grand, Swept;
    SweptSum(s.subs, RecordsOf(s, who), now, k, c);
    GrandPut(s.records, who, Swept(s.subs, RecordsOf(s, who), now).records, k, c);
  }

  lemma DeliverBooks(s: State, now: u64, who: Address)
    requires Books(s) && Shaped(s)
    ensures Books(Deliver(s, now, who).0)
  {
    hide Grand, Swept, Total, FailedBySub, DeliveredBySub;
    var t, rs := Deliver(s, now, who).0, RecordsOf(s, who);
    DeliverMetrics(s, now, who);
    SweptSubs(s.subs, rs, now);
    SweptTotals(s.subs, rs, now);
    SameFailed(s.subs, t.subs);
    forall id | id in t.subs
      ensures SubBooks(t, id)
    {
      assert SubBooks(s, id);
      DeliverGrand(s, now, who, Deliveries, OneSub(id));
      DeliverGrand(s, now, who, Failures, OneSub(id));
      PassOnly(rs, now, Failures, OneSub(id));
    }
  }

  lemma {:induction false} SweptRecords(subs: map<nat, Sub>, rs: seq<Record>, now: u64)
    ensures var out := Swept(subs, rs, now).records;
            |out| == |rs| && forall i :: 0 <= i < |rs| ==> out[i] == Attempted(rs[i], now)
  {
    if rs != [] {
      SweptRecords(subs, rs[..|rs| - 1], now);
    }
  }

  lemma AttemptedValid(s: State, now: u64, a: Address, r: Record)
    requires RecordValid(s, a, r)
    ensures RecordValid(s, a, Attempted(r, now))
  {
  }

  lemma DeliverShaped(s: State, now: u64, who: Address)
    requires Shaped(s)
    ensures Shaped(Deliver(s, now, who).0)
  {
    hide Swept;
    var t, rs := Deliver(s, now, who).0, RecordsOf(s, who);
    SweptSubs(s.subs, rs, now);
    SweptRecords(s.subs, rs, now);
    forall a, r | a in t.records && r in t.records[a]
      ensures RecordValid(t, a, r)
    {
      if a == who {
        var i :| 0 <= i < |rs| && r == Attempted(rs[i], now);
        AttemptedValid(s, now, a, rs[i]);
      } else {
        assert RecordValid(s, a, r);
      }
    }
  }

  // ---------------------------------------------------------------------------------------------
  // The other steps
  // ---------------------------------------------------------------------------------------------

  lemma FailWeights(r: Record, next: u64, k: Kind, c: Scope)
    requires r.status == Pending
    ensures Weight(r.(attempts := r.attempts + 1, nextRetryAt := next), k, c)
            == Weight(r, k, c) + if k == Failures && InScope(r, c) then 1 else 0
  {
  }

  lemma MarkFailedGrand(s: State, now: u64, who: Address, event: nat, i: nat, k: Kind, c: Scope)
    requires MarkFailed(s, now, who, event).Ok?
    requires Find(RecordsOf(s, who), |RecordsOf(s, who)|, event, Pending, Some(who)) == Some(i)
    ensures Grand(MarkFailed(s, now, who, event).value.records, k, c)
            == Grand(s.records, k, c) + if k == Failures && InScope(RecordsOf(s, who)[i], c) then 1 else 0
  {
    hide Grand, Weight, Sum, Find;
    var rs := RecordsOf(s, who);
    var next := WrappingAdd(now, BackoffDelay(rs[i].attempts));
    var q := rs[i].(attempts := rs[i].attempts + 1, nextRetryAt := next);
    FailWeights(rs[i], next, k, c);
    SumUpdate(rs, i, q, k, c);
    GrandPut(s.records, who, rs[i := q], k, c);
  }

  lemma MarkFailedBooks(s: State, now: u64, who: Address, event: nat)
    requires Books(s) && Shaped(s) && MarkFailed(s, now, who, event).Ok?
    ensures Books(MarkFailed(s, now, who, event).value)
  {
    hide Grand, Find, Total, DeliveredBySub, FailedBySub;
    var t, rs := MarkFailed(s, now, who, event).value, RecordsOf(s, who);
    var i := Find(rs, |rs|, event, Pending, Some(who)).value;
    assert RecordValid(s, who, rs[i]);
    forall k: Kind, c: Scope
      ensures Grand(t.records, k, c) == Grand(s.records, k, c) + if k == Failures && InScope(rs[i], c) then 1 else 0
    {
      MarkFailedGrand(s, now, who, event, i, k, c);
    }
    CreditTotal(s.subs, rs[i].sub);
    ChargeKeepsDelivered(s.subs, rs[i].sub);
    forall id | id in t.subs ensures SubBooks(t, id) {
      assert SubBooks(s, id);
    }
  }

  lemma ChargeKeepsDelivered(subs: map<nat, Sub>, id: nat)
    ensures DeliveredBySub(Charge(subs, id)) == DeliveredBySub(subs)
  {
  }

  lemma MarkFailedShaped(s: State, now: u64, who: Address, event: nat)
    requires Shaped(s) && MarkFailed(s, now, who, event).Ok?
    ensures Shaped(MarkFailed(s, now, who, event).value)
  {
    hide Find, BackoffDelay;
    var t, rs := MarkFailed(s, now, who, event).value, RecordsOf(s, who);
    var i := Find(rs, |rs|, event, Pending, Some(who)).value;
    assert RecordValid(s, who, rs[i]);
    forall a, r | a in t.records && r in t.records[a]
      ensures RecordValid(t, a, r)
    {
      assert (a in s.records && r in s.records[a]) || (a == who && r == t.records[who][i]);
      if a in s.records && r in s.records[a] {
        assert RecordValid(s, a, r);
      }
    }
  }

  lemma AckWeights(r: Record, now: u64, k: Kind, c: Scope)
    requires r.status == Delivered && r.deliveredAt.Some?
    ensures Weight(Acked(r, now), k, c)
            == Weight(r, k, c) + if !InScope(r, c) then 0
                                 else if k == Acknowledgments then 1
                                 else if k == Latency then now - r.deliveredAt.value else 0
  {
  }

  lemma AckBooks(s: State, now: u64, who: Address, event: nat)
    requires Books(s) && Shaped(s) && Acknowledge(s, now, who, event).Ok?
    ensures Books(Acknowledge(s, now, who, event).value)
  {
    hide Grand, Find, Total, Weight, Sum;
    var t, rs := Acknowledge(s, now, who, event).value, s.records[who];
    var i := Find(rs, |rs|, event, Delivered, None).value;
    assert RecordValid(s, who, rs[i]);
    forall k: Kind, c: Scope
      ensures Grand(t.records, k, c)
              == Grand(s.records, k, c) + if !InScope(rs[i], c) then 0
                                          else if k == Acknowledgments then 1
                                          else if k == Latency then now - rs[i].deliveredAt.value else 0
    {
      AckWeights(rs[i], now, k, c);
      SumUpdate(rs, i, Acked(rs[i], now), k, c);
      GrandPut(s.records, who, rs[i := Acked(rs[i], now)], k, c);
    }
    forall id | id in t.subs ensures SubBooks(t, id) {
      assert SubBooks(s, id);
    }
  }

  lemma AckShaped(s: State, now: u64, who: Address, event: nat)
    requires Shaped(s) && Acknowledge(s, now, who, event).Ok?
    ensures Shaped(Acknowledge(s, now, who, event).value)
  {
    hide Find;
    var t, rs := Acknowledge(s, now, who, event).value, s.records[who];
    var i := Find(rs, |rs|, event, Delivered, None).value;
    assert RecordValid(s, who, rs[i]);
    forall a, r | a in t.records && r in t.records[a]
      ensures RecordValid(t, a, r)
    {
      assert (a in s.records && r in s.records[a]) || (a == who && r == t.records[who][i]);
      if a in s.records && r in s.records[a] {
        assert RecordValid(s, a, r);
      }
    }
  }

  /** A queued record counts as one record and nothing else. */
  lemma EnqueueGrand(s: State, now: u64, id: nat, event: nat, k: Kind, c: Scope)
    requires id in s.subs
    ensures Grand(Enqueue(s, now, id, event).records, k, c)
            == Grand(s.records, k, c) + if k == Records && InScope(NewRecord(s, now, id, event), c) then 1 else 0
  {
    hide Grand, Sum;
    var r := NewRecord(s, now, id, event);
    SumSnoc(RecordsOf(s, r.subscriber), r, k, c);
    SumEmpty(k, c);
    GrandPut(s.records, r.subscriber, RecordsOf(s, r.subscriber) + [r], k, c);
  }

  lemma SumEmpty(k: Kind, c: Scope)
    ensures Sum([], k, c) == 0
  {
  }

  lemma EnqueueBooks(s: State, now: u64, id: nat, event: nat)
    requires Books(s) && id in s.subs
    ensures Books(Enqueue(s, now, id, event))
  {
    hide Grand, Total, InScope;
    var t := Enqueue(s, now, id, event);
    assert DeliveredBySub(t.subs) == DeliveredBySub(s.subs) && FailedBySub(t.subs) == FailedBySub(s.subs);
    forall k: Kind, c: Scope | k != Records
      ensures Grand(t.records, k, c) == Grand(s.records, k, c)
    {
      EnqueueGrand(s, now, id, event, k, c);
    }
    forall j | j in t.subs ensures SubBooks(t, j) {
      assert SubBooks(s, j);
    }
  }

  lemma EnqueueShaped(s: State, now: u64, id: nat, event: nat)
    requires Shaped(s) && id in s.subs && event <= s.eventCounter
    ensures Shaped(Enqueue(s, now, id, event))
  {
    var t := Enqueue(s, now, id, event);
    forall a, r | a in t.records && r in t.records[a]
      ensures RecordValid(t, a, r)
    {
      if a in s.records && r in s.records[a] {
        assert RecordValid(s, a, r);
      }
    }
  }

  /** Flushing is a delivery pass or nothing; the batches do not matter to the books. */
  lemma FlushBooks(s: State, now: u64, who: Address)
    requires Books(s) && Shaped(s)
    ensures Books(Flush(s, now, who).0) && Shaped(Flush(s, now, who).0)
  {
    hide Deliver, Grand, Total;
    if BatchOf(s, who) != [] {
      DeliverBooks(s, now, who);
      DeliverShaped(s, now, who);
      var t := Deliver(s, now, who).0;
      BooksFrame(t, t.(batches := t.batches - {who}));
    }
  }

  lemma BooksFrame(s: State, t: State)
    requires s.records == t.records && s.subs == t.subs && s.subCounter == t.subCounter
    requires t.eventCounter >= s.eventCounter && t.metrics == s.metrics.(dispatched := t.metrics.dispatched)
    ensures Books(s) ==> Books(t)
    ensures Shaped(s) ==> Shaped(t)
  {
    hide Grand, Total;
    if Books(s) {
      forall id | id in t.subs ensures SubBooks(t, id) {
        assert SubBooks(s, id);
      }
    }
    if Shaped(s) {
      forall a, r | a in t.records && r in t.records[a] ensures RecordValid(t, a, r) {
        assert RecordValid(s, a, r);
      }
    }
  }

  /** Notifying changes the subscriptions' delivered counters and last event times at most. */
  ghost predicate SameTerms(a: map<nat, Sub>, b: map<nat, Sub>) {
    && a.Keys == b.Keys
    && forall id :: id in a ==>
         b[id] == a[id].(totalDelivered := b[id].totalDelivered, lastEventAt := b[id].lastEventAt)
  }

  ghost predicate SameFrame(s: State, t: State) {
    t.subCounter == s.subCounter && t.lists == s.lists && t.eventCounter == s.eventCounter && SameTerms(s.subs, t.subs)
  }

  lemma DeliverFrame(s: State, now: u64, who: Address)
    ensures SameFrame(s, Deliver(s, now, who).0)
  {
    hide Swept;
    SweptSubs(s.subs, RecordsOf(s, who), now);
  }

  lemma NotifyFrame(s: State, now: u64, id: nat, v: Notice)
    ensures SameFrame(s, Notify(s, now, id, v))
  {
    hide Deliver, Matches, RecordsOf;
    if Receives(s, id, v) {
      var t := Enqueue(s, now, id, v.event);
      assert SameFrame(s, t);
      var who := t.subs[id].subscriber;
      DeliverFrame(t.(batches := t.batches[who := BatchOf(t, who) + [v.event]]), now, who);
    }
  }

  lemma NotifyBooks(s: State, now: u64, id: nat, v: Notice)
    requires Books(s) && Shaped(s) && v.event <= s.eventCounter
    ensures Books(Notify(s, now, id, v)) && Shaped(Notify(s, now, id, v))
  {
    hide Flush, Books, Shaped, Matches;
    if Receives(s, id, v) {
      EnqueueBooks(s, now, id, v.event);
      EnqueueShaped(s, now, id, v.event);
      var t := Enqueue(s, now, id, v.event);
      var who := t.subs[id].subscriber;
      var u := t.(batches := t.batches[who := BatchOf(t, who) + [v.event]]);
      BooksFrame(t, u);
      FlushBooks(u, now, who);
    }
  }

  lemma {:induction false} NotifyAllBooks(s: State, now: u64, ids: seq<nat>, v: Notice)
    requires Books(s) && Shaped(s) && v.event <= s.eventCounter
    ensures var t := NotifyAll(s, now, ids, v); Books(t) && Shaped(t) && t.eventCounter == s.eventCounter
  {
    hide Books, Shaped, Notify;
    if ids != [] {
      var init := ids[..|ids| - 1];
      NotifyAllBooks(s, now, init, v);
      NotifyBooks(NotifyAll(s, now, init, v), now, ids[|ids| - 1], v);
      NotifyFrame(NotifyAll(s, now, init, v), now, ids[|ids| - 1], v);
    }
  }

  lemma DispatchBooks(s: State, now: u64, portfolio: Symbol, t: EventType, severity: nat, details: Details)
    requires Books(s) && Shaped(s)
    ensures var u := Dispatch(s, now, portfolio, t, severity, details); Books(u) && Shaped(u)
  {
    hide Books, Shaped, NotifyAll;
    var s1 := s.(eventCounter := s.eventCounter + 1);
    BooksFrame(s, s1);
    var v := Notice(s1.eventCounter, t, severity, details);
    NotifyAllBooks(s1, now, ListOf(s, portfolio), v);
    var u := NotifyAll(s1, now, ListOf(s, portfolio), v);
    BooksFrame(u, u.(metrics := u.metrics.(dispatched := u.metrics.dispatched + 1)));
  }

  lemma SubscribeBooks(s: State, now: u64, portfolio: Symbol, who: Address, f: Filter, p: Prefs)
    requires Books(s) && Shaped(s)
    ensures var t := Subscribe(s, now, portfolio, who, f, p); Books(t) && Shaped(t)
  {
    hide Total, Grand, Weight, Value, InScope;
    var t := Subscribe(s, now, portfolio, who, f, p);
    var id := t.subCounter;
    assert DeliveredBySub(t.subs) == DeliveredBySub(s.subs)[id := 0];
    assert FailedBySub(t.subs) == FailedBySub(s.subs)[id := 0];
    TotalUpdate(DeliveredBySub(s.subs), id, 0);
    TotalUpdate(FailedBySub(s.subs), id, 0);
    NobodyYet(s, id, Deliveries);
    NobodyYet(s, id, Failures);
    forall j | j in t.subs ensures SubBooks(t, j) {
      assert j in s.subs ==> SubBooks(s, j);
    }
    forall a, r | a in t.records && r in t.records[a] ensures RecordValid(t, a, r) {
      assert RecordValid(s, a, r);
    }
  }

  /** No record belongs to a subscription that does not exist. */
  lemma NobodyYet(s: State, id: nat, k: Kind)
    requires Shaped(s) && id !in s.subs
    ensures Grand(s.records, k, OneSub(id)) == 0
  {
    hide Grand;
    forall a, r | a in s.records && r in s.records[a] ensures Weight(r, k, OneSub(id)) == 0 {
      assert RecordValid(s, a, r);
    }
    GrandZero(s.records, k, OneSub(id));
  }

  /** Changing preferences or status of a subscription does not touch the books. */
  lemma EditBooks(s: State, id: nat, sub: Sub)
    requires Books(s) && Shaped(s) && id in s.subs
    requires sub == s.subs[id].(prefs := sub.prefs, status := sub.status)
    ensures var t := s.(subs := s.subs[id := sub]); Books(t) && Shaped(t)
  {
    hide Total, Grand;
    var t := s.(subs := s.subs[id := sub]);
    assert DeliveredBySub(t.subs) == DeliveredBySub(s.subs) && FailedBySub(t.subs) == FailedBySub(s.subs);
    forall j | j in t.subs ensures SubBooks(t, j) {
      assert SubBooks(s, j);
    }
    forall a, r | a in t.records && r in t.records[a] ensures RecordValid(t, a, r) {
      assert RecordValid(s, a, r);
    }
  }

  lemma StepBooks(s: State, c: Call)
    requires Books(s) && Shaped(s)
    ensures Books(Step(s, c)) && Shaped(Step(s, c))
  {
    hide Books, Shaped, Dispatch, Deliver, Flush, MarkFailed, Acknowledge, Subscribe;
    if Apply(s, c).Ok? {
      match c.op
      case ToSubscribe(portfolio, who, f, p) => SubscribeBooks(s, c.now, portfolio, who, f, p);
      case ToUpdatePrefs(caller, id, p) => EditBooks(s, id, s.subs[id].(prefs := p));
      case ToSetStatus(caller, id, status) => EditBooks(s, id, s.subs[id].(status := status));
      case ToDispatch(portfolio, t, severity, details) => DispatchBooks(s, c.now, portfolio, t, severity, details);
      case ToEmit => BooksFrame(s, s.(eventCounter := s.eventCounter + 1));
      case ToDeliver(who) =>
        DeliverBooks(s, c.now, who);
        DeliverShaped(s, c.now, who);
      case ToMarkFailed(who, event) =>
        MarkFailedBooks(s, c.now, who, event);
        MarkFailedShaped(s, c.now, who, event);
      case ToAcknowledge(who, event) =>
        AckBooks(s, c.now, who, event);
        AckShaped(s, c.now, who, event);
      case ToFlush(who) => FlushBooks(s, c.now, who);
    }
  }

  /**
   In every run three views agree. The delivered metric is the sum over subscriptions and the number
   of delivered or acknowledged records; the failed metric is the sum over subscriptions and the
   attempts of all records less their delivering one; each subscription's counters are those of its
   own records; retries count the records delivered after a failure; and the latency sum is the
   waiting time between delivery and acknowledgment of every acknowledged record, up to multiples
   of 2^64.
   */
  lemma {:induction false} RunBooks(calls: seq<Call>)
    ensures Books(Run(EMPTY, calls)) && Shaped(Run(EMPTY, calls))
  {
    hide Step, Books, Shaped;
    if calls == [] {
      EmptyBooks();
    } else {
      RunBooks(calls[..|calls| - 1]);
      StepBooks(Run(EMPTY, calls[..|calls| - 1]), calls[|calls| - 1]);
    }
  }

  lemma NoRecords(k: Kind, c: Scope)
    ensures Grand(map[], k, c) == 0
  {
    hide Grand;
    GrandZero(map[], k, c);
  }

  lemma EmptyBooks()
    ensures Books(EMPTY) && Shaped(EMPTY)
  {
    hide Grand;
    NoRecords(Deliveries, Everyone);
    NoRecords(Failures, Everyone);
    NoRecords(Retries, Everyone);
    NoRecords(Acknowledgments, Everyone);
    NoRecords(Latency, Everyone);
    assert DeliveredBySub(map[]) == map[] && FailedBySub(map[]) == map[];
  }

  // ---------------------------------------------------------------------------------------------
  // Whom a dispatch reaches
  // ---------------------------------------------------------------------------------------------

  /** Subscription ids are listed in ascending order, so each once. */
  ghost predicate ListsSorted(s: State) {
    forall p :: p in s.lists ==>
      && (forall i, j :: 0 <= i < j < |s.lists[p]| ==> s.lists[p][i] < s.lists[p][j])
      && (forall i :: 0 <= i < |s.lists[p]| ==> s.lists[p][i] <= s.subCounter)
  }

  lemma {:induction false} NotifyAllFrame(s: State, now: u64, ids: seq<nat>, v: Notice)
    ensures SameFrame(s, NotifyAll(s, now, ids, v))
  {
    hide Notify;
    if ids != [] {
      NotifyAllFrame(s, now, ids[..|ids| - 1], v);
      NotifyFrame(NotifyAll(s, now, ids[..|ids| - 1], v), now, ids[|ids| - 1], v);
    }
  }

  lemma FlushGrand(s: State, now: u64, who: Address, c: Scope)
    ensures Grand(Flush(s, now, who).0.records, Records, c) == Grand(s.records, Records, c)
  {
    hide Deliver, Grand;
    DeliverGrand(s, now, who, Records, c);
    PassOnly(RecordsOf(s, who), now, Records, c);
  }

  /** A notification adds one record, for that event and that subscription, if it receives. */
  lemma NotifyGrand(s: State, now: u64, id: nat, v: Notice, c: Scope)
    ensures Grand(Notify(s, now, id, v).records, Records, c)
            == Grand(s.records, Records, c)
               + if Receives(s, id, v) && InScope(NewRecord(s, now, id, v.event), c) then 1 else 0
  {
    hide Flush, Grand, Matches, Enqueue, InScope;
    if Receives(s, id, v) {
      EnqueueGrand(s, now, id, v.event, Records, c);
      var t := Enqueue(s, now, id, v.event);
      AccumulateGrand(t, now, id, v.event, c) by { EnqueueKeeps(s, now, id, v.event); }
    }
  }

  lemma EnqueueKeeps(s: State, now: u64, id: nat, event: nat)
    requires id in s.subs
    ensures id in Enqueue(s, now, id, event).subs
  {
  }

  lemma AccumulateGrand(s: State, now: u64, id: nat, event: nat, c: Scope)
    requires id in s.subs
    ensures Grand(Accumulate(s, now, id, event).records, Records, c) == Grand(s.records, Records, c)
  {
    hide Flush, Grand;
    var who := s.subs[id].subscriber;
    FlushGrand(s.(batches := s.batches[who := BatchOf(s, who) + [event]]), now, who, c);
  }

  lemma {:induction false} NotifyAllGrand(s: State, now: u64, ids: seq<nat>, v: Notice, id: nat)
    requires forall i, j :: 0 <= i < j < |ids| ==> ids[i] < ids[j]
    ensures Grand(NotifyAll(s, now, ids, v).records, Records, OneDelivery(v.event, id))
            == Grand(s.records, Records, OneDelivery(v.event, id)) + if id in ids && Receives(s, id, v) then 1 else 0
  {
    hide Notify, Grand, Matches;
    if ids != [] {
      var init, last := ids[..|ids| - 1], ids[|ids| - 1];
      NotifyAllGrand(s, now, init, v, id);
      NotifyAllFrame(s, now, init, v);
      var mid := NotifyAll(s, now, init, v);
      NotifyGrand(mid, now, last, v, OneDelivery(v.event, id));
      assert ids == init + [last];
    }
  }

  /** Delivery records of one event for one subscription. */
  ghost function RecordsFor(s: State, event: nat, id: nat): int {
    Grand(s.records, Records, OneDelivery(event, id))
  }

  /**
   A dispatched event gets exactly one delivery record for every active subscription of its portfolio
   whose filter it matches, and none for any other.
   */
  lemma DispatchExact(s: State, now: u64, portfolio: Symbol, t: EventType, severity: nat, details: Details, id: nat)
    requires Shaped(s) && ListsSorted(s)
    ensures var v := Notice(s.eventCounter + 1, t, severity, details);
            RecordsFor(Dispatch(s, now, portfolio, t, severity, details), v.event, id)
            == if id in ListOf(s, portfolio) && Receives(s, id, v) then 1 else 0
  {
    hide NotifyAll, Grand, Matches;
    var v := Notice(s.eventCounter + 1, t, severity, details);
    forall a, r | a in s.records && r in s.records[a]
      ensures Weight(r, Records, OneDelivery(v.event, id)) == 0
    {
      assert RecordValid(s, a, r);
    }
    GrandZero(s.records, Records, OneDelivery(v.event, id));
    NotifyAllGrand(s.(eventCounter := v.event), now, ListOf(s, portfolio), v, id);
  }

  lemma StepLists(s: State, c: Call)
    requires ListsSorted(s)
    ensures ListsSorted(Step(s, c))
  {
    hide NotifyAll, Deliver, MarkFailed, Acknowledge, Matches, RecordsOf, BatchOf;
    match c.op
    case ToSubscribe(_, _, _, _) =>
    case ToUpdatePrefs(_, _, _) =>
    case ToSetStatus(_, _, _) =>
    case ToDispatch(portfolio, t, severity, details) =>
      hide ListsSorted;
      NotifyAllFrame(s.(eventCounter := s.eventCounter + 1), c.now, ListOf(s, portfolio),
                     Notice(s.eventCounter + 1, t, severity, details));
    case ToEmit =>
    case ToDeliver(who) => DeliverFrame(s, c.now, who);
    case ToMarkFailed(who, event) => MarkFailedFrame(s, c.now, who, event);
    case ToAcknowledge(who, event) => MarkFailedFrame(s, c.now, who, event);
    case ToFlush(who) => DeliverFrame(s, c.now, who);
  }

  lemma MarkFailedFrame(s: State, now: u64, who: Address, event: nat)
    ensures MarkFailed(s, now, who, event).Ok? ==>
              var t := MarkFailed(s, now, who, event).value; t.lists == s.lists && t.subCounter == s.subCounter
    ensures Acknowledge(s, now, who, event).Ok? ==>
              var t := Acknowledge(s, now, who, event).value; t.lists == s.lists && t.subCounter == s.subCounter
  {
    hide Find;
  }

  lemma {:induction false} RunLists(calls: seq<Call>)
    ensures ListsSorted(Run(EMPTY, calls))
  {
    hide Step;
    if calls != [] {
      RunLists(calls[..|calls| - 1]);
      StepLists(Run(EMPTY, calls[..|calls| - 1]), calls[|calls| - 1]);
    }
  }

  // ---------------------------------------------------------------------------------------------
  // When records are delivered
  // ---------------------------------------------------------------------------------------------

  /** Every record of an event still waits for its first attempt, one second after the dispatch. */
  ghost predicate Waiting(s: State, event: nat, now: u64) {
    forall a, r :: a in s.records && r in s.records[a] && r.event == event ==>
      r.status == Pending && r.attempts == 0 && r.nextRetryAt == now + 1
  }

  lemma DeliverWaiting(s: State, event: nat, now: u64, who: Address)
    requires Waiting(s, event, now)
    ensures Waiting(Deliver(s, now, who).0, event, now)
  {
    hide Swept;
    SweptRecords(s.subs, RecordsOf(s, who), now);
  }

  lemma NotifyWaiting(s: State, now: u64, id: nat, v: Notice)
    requires Waiting(s, v.event, now) && now < U64_MAX
    ensures Waiting(Notify(s, now, id, v), v.event, now)
  {
    hide Deliver, Matches;
    if Receives(s, id, v) {
      var t := Enqueue(s, now, id, v.event);
      assert Pow2(0) == 1;
      assert Waiting(t, v.event, now);
      var who := t.subs[id].subscriber;
      DeliverWaiting(t.(batches := t.batches[who := BatchOf(t, who) + [v.event]]), v.event, now, who);
    }
  }

  lemma {:induction false} NotifyAllWaiting(s: State, now: u64, ids: seq<nat>, v: Notice)
    requires Waiting(s, v.event, now) && now < U64_MAX
    ensures Waiting(NotifyAll(s, now, ids, v), v.event, now)
  {
    hide Notify, Waiting;
    if ids != [] {
      NotifyAllWaiting(s, now, ids[..|ids| - 1], v);
      NotifyWaiting(NotifyAll(s, now, ids[..|ids| - 1], v), now, ids[|ids| - 1], v);
    }
  }

  /** A batch that a dispatch fills is flushed at once, yet none of the dispatch's own records can be
      delivered by it: they are due a second later. */
  lemma DispatchDefers(s: State, now: u64, portfolio: Symbol, t: EventType, severity: nat, details: Details)
    requires Shaped(s) && now < U64_MAX
    ensures Waiting(Dispatch(s, now, portfolio, t, severity, details), s.eventCounter + 1, now)
  {
    hide NotifyAll;
    forall a, r | a in s.records && r in s.records[a] ensures r.event != s.eventCounter + 1 {
      assert RecordValid(s, a, r);
    }
    NotifyAllWaiting(s.(eventCounter := s.eventCounter + 1), now, ListOf(s, portfolio),
                     Notice(s.eventCounter + 1, t, severity, details));
  }

  /** No record of an event was delivered. */
  ghost predicate Unsent(s: State, event: nat) {
    forall a, r :: a in s.records && r in s.records[a] && r.event == event ==> r.status == Pending
  }

  /** The one subscription of `LastSecond`: everything, in batches of one. */
  function Subscribing(portfolio: Symbol, who: Address): seq<Call> {
    [Call(U64_MAX, ToSubscribe(portfolio, who, Filter([], 0, []), Prefs(Batch, 1, 0)))]
  }

  /** At the last second the time of the first attempt wraps to zero, so a dispatch that fills a batch delivers its
      own record. */
  lemma LastSecond(portfolio: Symbol, who: Address, t: EventType, severity: nat, details: Details)
    ensures var s := Dispatch(Run(EMPTY, Subscribing(portfolio, who)), U64_MAX, portfolio, t, severity, details);
            !Unsent(s, 1)
  {
    var calls := Subscribing(portfolio, who);
    assert calls[..0] == [];
    var s0 := Run(EMPTY, calls);
    assert s0 == Step(Run(EMPTY, calls[..0]), calls[0]) == Step(EMPTY, calls[0]);
    var v := Notice(1, t, severity, details);
    var s := s0.(eventCounter := 1);
    assert ListOf(s, portfolio) == [] + [1] && [1][..0] == [];
    assert NotifyAll(s, U64_MAX, [1], v) == Notify(NotifyAll(s, U64_MAX, [], v), U64_MAX, 1, v);
    OwnDelivery(s, who, v);
  }

  lemma OwnDelivery(s: State, who: Address, v: Notice)
    requires s.records == map[] && s.batches == map[]
    requires 1 in s.subs && s.subs[1].subscriber == who && s.subs[1].status == Active
    requires s.subs[1].filter == Filter([], 0, []) && s.subs[1].prefs == Prefs(Batch, 1, 0)
    ensures !Unsent(Notify(s, U64_MAX, 1, v), v.event)
  {
    assert Pow2(0) == 1;
    var r := NewRecord(s, U64_MAX, 1, v.event);
    assert Due(r, U64_MAX);
    var t := Enqueue(s, U64_MAX, 1, v.event);
    assert t.records == map[who := [r]] by { assert [] + [r] == [r]; }
    var u := t.(batches := t.batches[who := BatchOf(t, who) + [v.event]]);
    assert Notify(s, U64_MAX, 1, v) == Flush(u, U64_MAX, who).0;
    var w := Swept(u.subs, [r], U64_MAX);
    assert [r][..0] == [];
    assert w == SweepOne(Swept(u.subs, [r][..0], U64_MAX), r, U64_MAX);
    assert w.records == [] + [Attempted(r, U64_MAX)];
    assert Attempted(r, U64_MAX) in Notify(s, U64_MAX, 1, v).records[who];
  }

  /** In no run does a dispatch at a given time deliver a record of its own, if and only if one second later still
      fits. */
  lemma DispatchDefersIff(now: u64)
    ensures (forall calls, portfolio, t, severity, details ::
               Unsent(Dispatch(Run(EMPTY, calls), now, portfolio, t, severity, details),
                      Run(EMPTY, calls).eventCounter + 1))
            <==> now < U64_MAX
  {
    hide Dispatch, Run;
    if now < U64_MAX {
      forall calls, portfolio, t, severity, details
        ensures Unsent(Dispatch(Run(EMPTY, calls), now, portfolio, t, severity, details),
                       Run(EMPTY, calls).eventCounter + 1)
      {
        RunBooks(calls);
        DispatchDefers(Run(EMPTY, calls), now, portfolio, t, severity, details);
      }
    } else {
      LastSecond("", "", Rebalanced, 0, map[]);
      assert Run(EMPTY, Subscribing("", "")).eventCounter == 0 by { SubscribingCounter("", ""); }
    }
  }

  lemma SubscribingCounter(portfolio: Symbol, who: Address)
    ensures Run(EMPTY, Subscribing(portfolio, who)).eventCounter == 0
  {
    assert Subscribing(portfolio, who)[..0] == [];
  }

  predicate Punctual(r: Record, now: nat) {
    && (r.status == Pending ==> r.ackedAt.None?)
    && (r.deliveredAt.Some? ==> r.deliveredAt.value <= now)
    && (r.deliveredAt.Some? && r.ackedAt.Some? ==> r.deliveredAt.value <= r.ackedAt.value)
  }

  /** Nothing was delivered later than now, nor acknowledged before it was delivered. */
  ghost predicate Timely(s: State, now: nat) {
    forall a, r :: a in s.records && r in s.records[a] ==> Punctual(r, now)
  }

  lemma DeliverTimely(s: State, now: u64, who: Address)
    requires Timely(s, now)
    ensures Timely(Deliver(s, now, who).0, now)
  {
    hide Swept;
    var t, rs := Deliver(s, now, who).0, RecordsOf(s, who);
    SweptRecords(s.subs, rs, now);
    forall a, r | a in t.records && r in t.records[a]
      ensures Punctual(r, now)
    {
      if a == who {
        var i :| 0 <= i < |rs| && r == Attempted(rs[i], now);
        assert Punctual(rs[i], now);
      }
    }
  }

  lemma NotifyTimely(s: State, now: u64, id: nat, v: Notice)
    requires Timely(s, now)
    ensures Timely(Notify(s, now, id, v), now)
  {
    hide Deliver, Matches;
    if Receives(s, id, v) {
      var t := Enqueue(s, now, id, v.event);
      assert Timely(t, now);
      var who := t.subs[id].subscriber;
      DeliverTimely(t.(batches := t.batches[who := BatchOf(t, who) + [v.event]]), now, who);
    }
  }

  lemma {:induction false} NotifyAllTimely(s: State, now: u64, ids: seq<nat>, v: Notice)
    requires Timely(s, now)
    ensures Timely(NotifyAll(s, now, ids, v), now)
  {
    hide Notify, Timely;
    if ids != [] {
      NotifyAllTimely(s, now, ids[..|ids| - 1], v);
      NotifyTimely(NotifyAll(s, now, ids[..|ids| - 1], v), now, ids[|ids| - 1], v);
    }
  }

  lemma EditTimely(s: State, now: u64, who: Address, event: nat)
    requires Timely(s, now)
    ensures MarkFailed(s, now, who, event).Ok? ==> Timely(MarkFailed(s, now, who, event).value, now)
    ensures Acknowledge(s, now, who, event).Ok? ==> Timely(Acknowledge(s, now, who, event).value, now)
  {
    hide Find, BackoffDelay;
    var rs := RecordsOf(s, who);
    forall i | 0 <= i < |rs| ensures Punctual(rs[i], now) {
      assert rs[i] in rs;
    }
  }

  lemma StepTimely(s: State, c: Call)
    requires Timely(s, c.now)
    ensures Timely(Step(s, c), c.now)
  {
    hide NotifyAll, Deliver, MarkFailed, Acknowledge;
    match c.op
    case ToSubscribe(_, _, _, _) =>
    case ToUpdatePrefs(_, _, _) =>
    case ToSetStatus(_, _, _) =>
    case ToDispatch(portfolio, t, severity, details) =>
      NotifyAllTimely(s.(eventCounter := s.eventCounter + 1), c.now, ListOf(s, portfolio),
                      Notice(s.eventCounter + 1, t, severity, details));
    case ToEmit =>
    case ToDeliver(who) => DeliverTimely(s, c.now, who);
    case ToMarkFailed(who, event) => EditTimely(s, c.now, who, event);
    case ToAcknowledge(who, event) => EditTimely(s, c.now, who, event);
    case ToFlush(who) => DeliverTimely(s, c.now, who);
  }

  /** Ledger time never decreases. */
  ghost predicate TimeOrdered(calls: seq<Call>) {
    forall i, j :: 0 <= i < j < |calls| ==> calls[i].now <= calls[j].now
  }

  /** So no latency is ever negative: the unsigned subtraction in `acknowledge` does not underflow. */
  lemma {:induction false} RunTimely(calls: seq<Call>)
    requires TimeOrdered(calls)
    ensures Timely(Run(EMPTY, calls), if calls == [] then 0 else calls[|calls| - 1].now)
  {
    hide Step;
    if calls != [] {
      RunTimely(calls[..|calls| - 1]);
      StepTimely(Run(EMPTY, calls[..|calls| - 1]), calls[|calls| - 1]);
    }
  }

  lemma {:induction false} LatencyNonNegative(rs: seq<Record>, now: nat)
    requires forall r :: r in rs ==> Punctual(r, now)
    ensures Sum(rs, Latency, Everyone) >= 0
  {
    if rs != [] {
      LatencyNonNegative(rs[..|rs| - 1], now);
      assert Punctual(rs[|rs| - 1], now);
    }
  }

  /** With ordered time the latency sum is exact if and only if it fits its 64 bits. */
  lemma LatencyExactIff(calls: seq<Call>)
    requires TimeOrdered(calls)
    ensures var s := Run(EMPTY, calls);
            s.metrics.latency == Grand(s.records, Latency, Everyone)
            <==> Grand(s.records, Latency, Everyone) <= U64_MAX
  {
    hide Run, Sum;
    RunBooks(calls);
    RunTimely(calls);
    var s := Run(EMPTY, calls);
    forall a | a in s.records
      ensures Sum(s.records[a], Latency, Everyone) >= 0
    {
      LatencyNonNegative(s.records[a], if calls == [] then 0 else calls[|calls| - 1].now);
    }
    TotalNonNegative(PerSubscriber(s.records, Latency, Everyone));
  }

  lemma {:induction false} Pow2Monotone(a: nat, b: nat)
    requires a <= b
    ensures Pow2(a) <= Pow2(b)
  {
    if a < b {
      Pow2Monotone(a, b - 1);
    }
  }

  /** The delay starts at a second, doubles with every attempt, and stays at an hour from the twelfth on. */
  lemma BackoffShape(a: nat)
    ensures BackoffDelay(0) == 1
    ensures BackoffDelay(a + 1) == Min(2 * BackoffDelay(a), 3600)
    ensures BackoffDelay(a) == 3600 <==> a >= 12
  {
    assert Pow2(3) == 8 && Pow2(6) == 8 * Pow2(3) && Pow2(9) == 8 * Pow2(6) && Pow2(11) == 4 * Pow2(9);
    if a >= 12 {
      Pow2Monotone(12, a);
    } else {
      Pow2Monotone(a, 11);
    }
  }

  // ---------------------------------------------------------------------------------------------
  // Filters
  // ---------------------------------------------------------------------------------------------

  /** A number written as a detail satisfies a condition exactly when the number does. */
  lemma NumericDetail(c: Condition, details: Details, x: int)
    requires -TWO_127 <= x < TWO_127
    requires c.key in details && details[c.key] == EncodeI128(x)
    ensures Satisfies(c, details) <==> match c.op
                                       case GreaterThan => x > c.value
                                       case LessThan => x < c.value
                                       case EqualTo => x == c.value
                                       case GreaterOrEqual => x >= c.value
                                       case LessOrEqual => x <= c.value
  {
    I128RoundTrip(x, EncodeI128(x));
  }
}
