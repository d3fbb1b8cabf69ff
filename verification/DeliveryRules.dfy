/** What event delivery does to records and subscriptions, in the stored fields. */
module DeliveryRules {
  import opened Wrappers
  import opened Host
  import opened Bytes
  import opened Delivery
  import opened DeliveryLaws

  // ---------------------------------------------------------------------------------------------
  // Dispatching
  // ---------------------------------------------------------------------------------------------

  /** A detail is a number of sixteen bytes that compares as a condition asks. */
  ghost predicate Meets(c: Condition, details: Details) {
    && c.key in details && |details[c.key]| == 16
    && exists x: int :: -TWO_127 <= x < TWO_127 && details[c.key] == EncodeI128(x)
         && match c.op
            case GreaterThan => x > c.value
            case LessThan => x < c.value
            case EqualTo => x == c.value
            case GreaterOrEqual => x >= c.value
            case LessOrEqual => x <= c.value
  }

  lemma SatisfiesMeans(c: Condition, details: Details)
    ensures Satisfies(c, details) <==> Meets(c, details)
  {
    if c.key in details && |details[c.key]| == 16 {
      var b := details[c.key];
      var x := DecodeI128(b);
      I128RoundTrip(0, b);
      assert EncodeI128(x) == b && -TWO_127 <= x < TWO_127;
      NumericDetail(c, details, x);
      if Meets(c, details) {
        var y: int :| && -TWO_127 <= y < TWO_127 && b == EncodeI128(y)
                      && match c.op
                         case GreaterThan => y > c.value
                         case LessThan => y < c.value
                         case EqualTo => y == c.value
                         case GreaterOrEqual => y >= c.value
                         case LessOrEqual => y <= c.value;
        NumericDetail(c, details, y);
      }
    }
  }

  /** A subscription is active and its filter lets an event through: severe enough, of a type that is asked for if any
      is, and meeting every condition. */
  ghost predicate Wants(s: State, id: nat, t: EventType, severity: nat, details: Details) {
    && id in s.subs && s.subs[id].status == Active && s.subs[id].filter.minSeverity <= severity
    && (s.subs[id].filter.eventTypes == [] || t in s.subs[id].filter.eventTypes)
    && forall i :: 0 <= i < |s.subs[id].filter.conditions| ==> Meets(s.subs[id].filter.conditions[i], details)
  }

  /** In every run a dispatch makes one record for each subscription of its portfolio that wants the event, and none
      for any other. */
  lemma DispatchMeans(calls: seq<Call>, now: u64, portfolio: Symbol, t: EventType, severity: nat, details: Details,
                      id: nat)
    ensures var s := Run(EMPTY, calls);
            RecordsFor(Dispatch(s, now, portfolio, t, severity, details), s.eventCounter + 1, id)
            == if id in ListOf(s, portfolio) && Wants(s, id, t, severity, details) then 1 else 0
  {
    hide Run, Dispatch, RecordsFor, Shaped, ListsSorted, Satisfies, Meets;
    var s := Run(EMPTY, calls);
    RunBooks(calls);
    RunLists(calls);
    DispatchExact(s, now, portfolio, t, severity, details, id);
    forall c
      ensures Satisfies(c, details) <==> Meets(c, details)
    {
      SatisfiesMeans(c, details);
    }
  }

  // ---------------------------------------------------------------------------------------------
  // Records
  // ---------------------------------------------------------------------------------------------

  /** A delivery pass at a time attempts exactly the subscriber's records that are pending and due, and leaves every
      other record, and every other subscriber's, as it is. */
  lemma DeliverMeans(s: State, now: u64, who: Address, i: nat)
    requires i < |RecordsOf(s, who)|
    ensures var before, after := RecordsOf(s, who), RecordsOf(Deliver(s, now, who).0, who);
            && |after| == |before|
            && after[i] == (if before[i].status == Pending && before[i].nextRetryAt <= now
                            then before[i].(attempts := before[i].attempts + 1, status := Delivered,
                                            deliveredAt := Some(now))
                            else before[i])
    ensures forall a :: a != who ==> RecordsOf(Deliver(s, now, who).0, a) == RecordsOf(s, a)
  {
    hide Swept;
    SweptRecords(s.subs, RecordsOf(s, who), now);
  }

  /** This record is the first of an event that has a status. */
  ghost predicate FirstOf(rs: seq<Record>, i: nat, event: nat, status: DeliveryStatus) {
    && i < |rs| && rs[i].event == event && rs[i].status == status
    && forall j :: 0 <= j < i ==> !(rs[j].event == event && rs[j].status == status)
  }

  /** Every record under a subscriber is its own. */
  ghost predicate OwnRecords(s: State, who: Address) {
    forall i :: 0 <= i < |RecordsOf(s, who)| ==> RecordsOf(s, who)[i].subscriber == who
  }

  /** A failure is noted on the subscriber's first pending record of the event, if there is one: one more attempt, and
      the next at twice the delay, up to an hour. */
  lemma FailMeans(s: State, now: u64, who: Address, event: nat, i: nat)
    requires OwnRecords(s, who) && FirstOf(RecordsOf(s, who), i, event, Pending)
    ensures var r, rs := MarkFailed(s, now, who, event), RecordsOf(s, who);
            && r.Ok?
            && RecordsOf(r.value, who)
               == rs[i := rs[i].(attempts := rs[i].attempts + 1,
                                 nextRetryAt := (now + BackoffDelay(rs[i].attempts)) % (U64_MAX + 1))]
            && (forall a :: a != who ==> RecordsOf(r.value, a) == RecordsOf(s, a))
  {
    hide BackoffDelay;
  }

  /** An acknowledgment goes to the subscriber's first delivered record of the event, if there is one. */
  lemma AckMeans(s: State, now: u64, who: Address, event: nat, i: nat)
    requires who in s.records && FirstOf(s.records[who], i, event, Delivered)
    ensures var r, rs := Acknowledge(s, now, who, event), s.records[who];
            && r.Ok?
            && r.value.records == s.records[who := rs[i := rs[i].(status := Acknowledged, ackedAt := Some(now))]]
            && r.value.metrics.acknowledged == s.metrics.acknowledged + 1
            && r.value.metrics.latency
               == (s.metrics.latency + (if rs[i].deliveredAt.Some? then now - rs[i].deliveredAt.value else 0))
                  % (U64_MAX + 1)
  {
  }

  /** Both fail exactly when there is no such record. */
  lemma NoRecord(s: State, now: u64, who: Address, event: nat)
    requires OwnRecords(s, who)
    ensures MarkFailed(s, now, who, event).Err? <==> forall i :: !FirstOf(RecordsOf(s, who), i, event, Pending)
    ensures Acknowledge(s, now, who, event).Err? <==> forall i :: !FirstOf(RecordsOf(s, who), i, event, Delivered)
  {
    hide BackoffDelay;
    var rs := RecordsOf(s, who);
    var p, d := Find(rs, |rs|, event, Pending, Some(who)), Find(rs, |rs|, event, Delivered, None);
    assert p.Some? ==> FirstOf(rs, p.value, event, Pending);
    assert d.Some? ==> FirstOf(rs, d.value, event, Delivered);
  }

  /** In every run every record under a subscriber is its own. */
  lemma RunOwnRecords(calls: seq<Call>, who: Address)
    ensures OwnRecords(Run(EMPTY, calls), who)
  {
    hide Run;
    RunBooks(calls);
    var s := Run(EMPTY, calls);
    forall i | 0 <= i < |RecordsOf(s, who)|
      ensures RecordsOf(s, who)[i].subscriber == who
    {
      assert RecordValid(s, who, RecordsOf(s, who)[i]);
    }
  }

  // ---------------------------------------------------------------------------------------------
  // Subscriptions
  // ---------------------------------------------------------------------------------------------

  /** A subscription is changed by its subscriber only; a cancelled one keeps its preferences and stays cancelled. */
  lemma ChangeIff(s: State, caller: Address, id: nat, p: Prefs, status: SubStatus)
    ensures var r := UpdatePrefs(s, caller, id, p);
            && (r.Ok? <==> id in s.subs && s.subs[id].subscriber == caller && s.subs[id].status != Cancelled)
            && (r.Ok? ==> r.value == s.(subs := s.subs[id := s.subs[id].(prefs := p)]))
    ensures var r := SetStatus(s, caller, id, status);
            && (r.Ok? <==> && id in s.subs && s.subs[id].subscriber == caller
                           && (s.subs[id].status == Cancelled ==> status == Cancelled))
            && (r.Ok? ==> r.value == s.(subs := s.subs[id := s.subs[id].(status := status)]))
  {
  }

  /** A new subscription has the terms asked for, is active, and joins the list of its portfolio under the next id. */
  lemma SubscribeMeans(s: State, now: u64, portfolio: Symbol, who: Address, f: Filter, p: Prefs)
    ensures var t, id := Subscribe(s, now, portfolio, who, f, p), s.subCounter + 1;
            && t == s.(subCounter := id, subs := t.subs, lists := t.lists)
            && t.subs == s.subs[id := Sub(who, portfolio, f, p, now, None, Active, 0, 0)]
            && ListOf(t, portfolio) == ListOf(s, portfolio) + [id]
            && forall q :: q != portfolio ==> ListOf(t, q) == ListOf(s, q)
  {
  }

  /** A dispatch in immediate mode adds a pending record, due a second later, at the end of the subscriber's list. */
  lemma EnqueueMeans(s: State, now: u64, id: nat, event: nat)
    requires id in s.subs
    ensures var t, who := Enqueue(s, now, id, event), s.subs[id].subscriber;
            && RecordsOf(t, who) == RecordsOf(s, who)
                                    + [Record(event, id, who, Pending, 0, (now + 1) % (U64_MAX + 1), None, None)]
            && (forall a :: a != who ==> RecordsOf(t, a) == RecordsOf(s, a))
            && t.subs == s.subs[id := s.subs[id].(lastEventAt := Some(now))]
  {
    BackoffShape(0);
    hide BackoffDelay;
  }

  /** In batch mode the event joins the subscriber's batch; a full batch is delivered and emptied, in immediate mode
      there is none. */
  lemma BatchMeans(s: State, now: u64, id: nat, event: nat)
    requires id in s.subs
    ensures var sub := s.subs[id];
            var batch := BatchOf(s, sub.subscriber) + [event];
            var t := Accumulate(s, now, id, event);
            if sub.prefs.mode == Immediate then t == s
            else if |batch| < sub.prefs.batchSize then t == s.(batches := s.batches[sub.subscriber := batch])
            else
              && BatchOf(t, sub.subscriber) == []
              && t.records == Deliver(s, now, sub.subscriber).0.records
  {
    hide Swept;
  }

  /** A subscriber's pass, asked for by itself or by a flush, is the one at the time of the call. A flush empties the
      batch, and does nothing when it is empty. */
  lemma PassMeans(s: State, now: u64, who: Address)
    ensures Step(s, Call(now, ToDeliver(who))) == Deliver(s, now, who).0
    ensures var t := Step(s, Call(now, ToFlush(who)));
            && BatchOf(t, who) == [] && (forall a :: a != who ==> BatchOf(t, a) == BatchOf(s, a))
            && t.records == if BatchOf(s, who) == [] then s.records else Deliver(s, now, who).0.records
  {
    hide Swept;
  }
}
