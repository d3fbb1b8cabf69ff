/** Managed event subscriptions: filters, delivery records, retries with backoff, and their metrics. */
module Delivery {
  import opened Wrappers
  import opened Host
  import opened Bytes

  const RETRY_INITIAL := 1
  const RETRY_MAX := 3600

  datatype EventType =
    Rebalanced | BalanceChanged | AllocationUpdated | ThresholdBreached | TradeExecuted | PriceAlertTriggered | Custom
  datatype Operator = GreaterThan | LessThan | EqualTo | GreaterOrEqual | LessOrEqual
  datatype Condition = Condition(key: Symbol, op: Operator, value: int)
  datatype Filter = Filter(eventTypes: seq<EventType>, minSeverity: nat, conditions: seq<Condition>)

  type Details = map<Symbol, seq<byte>>

  datatype Mode = Immediate | Batch
  datatype Prefs = Prefs(mode: Mode, batchSize: nat, batchWindow: nat)
  datatype SubStatus = Active | Paused | Cancelled

  datatype Sub = Sub(
    subscriber: Address,
    portfolio: Symbol,
    filter: Filter,
    prefs: Prefs,
    createdAt: u64,
    lastEventAt: Option<u64>,
    status: SubStatus,
    totalDelivered: nat,
    totalFailed: nat)

  datatype DeliveryStatus = Pending | Delivered | Acknowledged | Failed

  datatype Record = Record(
    event: nat,
    sub: nat,
    subscriber: Address,
    status: DeliveryStatus,
    attempts: nat,
    nextRetryAt: u64,
    deliveredAt: Option<u64>,
    ackedAt: Option<u64>)

  datatype Metrics = Metrics(
    dispatched: nat,
    delivered: nat,
    acknowledged: nat,
    failed: nat,
    retries: nat,
    latency: u64)

  datatype State = State(
    subs: map<nat, Sub>,
    subCounter: nat,
    lists: map<Symbol, seq<nat>>,
    eventCounter: nat,
    records: map<Address, seq<Record>>,
    batches: map<Address, seq<nat>>,
    metrics: Metrics)

  const EMPTY := State(map[], 0, map[], 0, map[], map[], Metrics(0, 0, 0, 0, 0, 0))

  datatype Error = NotFound | InvalidState | NotAuthorizedByHost

  // ---------------------------------------------------------------------------------------------
  // Filters and backoff
  // ---------------------------------------------------------------------------------------------

  predicate Compare(op: Operator, actual: int, value: int) {
    match op
    case GreaterThan => actual > value
    case LessThan => actual < value
    case EqualTo => actual == value
    case GreaterOrEqual => actual >= value
    case LessOrEqual => actual <= value
  }

  /** A detail satisfies a condition only when it is a sixteen-byte number that does. */
  predicate Satisfies(c: Condition, details: Details) {
    c.key in details && |details[c.key]| == 16 && Compare(c.op, DecodeI128(details[c.key]), c.value)
  }

  predicate Matches(f: Filter, t: EventType, severity: nat, details: Details) {
    && f.minSeverity <= severity
    && (f.eventTypes == [] || t in f.eventTypes)
    && forall i :: 0 <= i < |f.conditions| ==> Satisfies(f.conditions[i], details)
  }

  function Pow2(n: nat): (r: nat)
    ensures r >= 1
  {
    if n == 0 then 1 else 2 * Pow2(n - 1)
  }

  /** Seconds before the next attempt, given how many were made. */
  function BackoffDelay(attempts: nat): (delay: nat)
    ensures RETRY_INITIAL <= delay <= RETRY_MAX
  {
    Min(Pow2(attempts), RETRY_MAX)
  }

  // ---------------------------------------------------------------------------------------------
  // Delivering
  // ---------------------------------------------------------------------------------------------

  predicate Due(r: Record, now: u64) {
    r.status == Pending && r.nextRetryAt <= now
  }

  function Attempted(r: Record, now: u64): Record {
    if Due(r, now) then r.(attempts := r.attempts + 1, status := Delivered, deliveredAt := Some(now)) else r
  }

  /** The subscription of a delivered record counts it. */
  function Credit(subs: map<nat, Sub>, id: nat): map<nat, Sub> {
    if id in subs then subs[id := subs[id].(totalDelivered := subs[id].totalDelivered + 1)] else subs
  }

  function Charge(subs: map<nat, Sub>, id: nat): map<nat, Sub> {
    if id in subs then subs[id := subs[id].(totalFailed := subs[id].totalFailed + 1)] else subs
  }

  /** One pass over a subscriber's records: the new records, the events delivered, retries, counters. */
  datatype Sweep = Sweep(records: seq<Record>, delivered: seq<nat>, retries: nat, subs: map<nat, Sub>)

  function SweepOne(w: Sweep, r: Record, now: u64): Sweep {
    var records := w.records + [Attempted(r, now)];
    if Due(r, now) then
      Sweep(records, w.delivered + [r.event], w.retries + if r.attempts > 0 then 1 else 0, Credit(w.subs, r.sub))
    else w.(records := records)
  }

  function Swept(subs: map<nat, Sub>, rs: seq<Record>, now: u64): Sweep {
    if rs == [] then Sweep([], [], 0, subs)
    else SweepOne(Swept(subs, rs[..|rs| - 1], now), rs[|rs| - 1], now)
  }

  function RecordsOf(s: State, who: Address): seq<Record> {
    if who in s.records then s.records[who] else []
  }

  /** Every due record of a subscriber is delivered. */
  function Deliver(s: State, now: u64, who: Address): (State, seq<nat>) {
    var w := Swept(s.subs, RecordsOf(s, who), now);
    (s.(records := s.records[who := w.records], subs := w.subs,
        metrics := s.metrics.(delivered := s.metrics.delivered + |w.delivered|,
                              retries := s.metrics.retries + w.retries)),
     w.delivered)
  }

  function BatchOf(s: State, who: Address): seq<nat> {
    if who in s.batches then s.batches[who] else []
  }

  function Flush(s: State, now: u64, who: Address): (State, seq<nat>) {
    if BatchOf(s, who) == [] then (s, [])
    else
      var (t, events) := Deliver(s, now, who);
      (t.(batches := t.batches - {who}), events)
  }

  // ---------------------------------------------------------------------------------------------
  // Failures and acknowledgments
  // ---------------------------------------------------------------------------------------------

  /** A record for an event in a status, and, where it is asked for, of a subscriber. */
  predicate Is(r: Record, event: nat, status: DeliveryStatus, of: Option<Address>) {
    r.event == event && r.status == status && (of.None? || r.subscriber == of.value)
  }

  /** The first such record among the first n. */
  function Find(rs: seq<Record>, n: nat, event: nat, status: DeliveryStatus, of: Option<Address>): (r: Option<nat>)
    requires n <= |rs|
    ensures r.Some? ==> r.value < n && Is(rs[r.value], event, status, of)
    ensures r.Some? ==> forall i :: 0 <= i < r.value ==> !Is(rs[i], event, status, of)
    ensures r.None? ==> forall i :: 0 <= i < n ==> !Is(rs[i], event, status, of)
  {
    if n == 0 then None
    else
      var before := Find(rs, n - 1, event, status, of);
      if before.Some? then before else if Is(rs[n - 1], event, status, of) then Some(n - 1) else None
  }

  function MarkFailed(s: State, now: u64, who: Address, event: nat): Result<State, Error> {
    var rs := RecordsOf(s, who);
    var found := Find(rs, |rs|, event, Pending, Some(who));
    if found.None? then Err(NotFound)
    else
      var r := rs[found.value];
      var q := r.(attempts := r.attempts + 1, nextRetryAt := WrappingAdd(now, BackoffDelay(r.attempts)));
      Ok(s.(records := s.records[who := rs[found.value := q]], subs := Charge(s.subs, r.sub),
            metrics := s.metrics.(failed := s.metrics.failed + 1)))
  }

  function Acked(r: Record, now: u64): Record {
    r.(status := Acknowledged, ackedAt := Some(now))
  }

  function Acknowledge(s: State, now: u64, who: Address, event: nat): Result<State, Error> {
    if who !in s.records then Err(NotFound)
    else
      var rs := s.records[who];
      var found := Find(rs, |rs|, event, Delivered, None);
      if found.None? then Err(InvalidState)
      else
        var r := rs[found.value];
        Ok(s.(records := s.records[who := rs[found.value := Acked(r, now)]],
              metrics := s.metrics.(acknowledged := s.metrics.acknowledged + 1,
                                    latency := WrapU64(s.metrics.latency + now - r.deliveredAt.GetOr(now)))))
  }

  // ---------------------------------------------------------------------------------------------
  // Subscribing and dispatching
  // ---------------------------------------------------------------------------------------------

  function ListOf(s: State, portfolio: Symbol): seq<nat> {
    if portfolio in s.lists then s.lists[portfolio] else []
  }

  function Subscribe(s: State, now: u64, portfolio: Symbol, who: Address, f: Filter, p: Prefs): State {
    var id := s.subCounter + 1;
    s.(subCounter := id, lists := s.lists[portfolio := ListOf(s, portfolio) + [id]],
       subs := s.subs[id := Sub(who, portfolio, f, p, now, None, Active, 0, 0)])
  }

  function UpdatePrefs(s: State, caller: Address, id: nat, p: Prefs): Result<State, Error> {
    if id !in s.subs then Err(NotFound)
    else if caller != s.subs[id].subscriber then Err(NotAuthorizedByHost)
    else if s.subs[id].status == Cancelled then Err(InvalidState)
    else Ok(s.(subs := s.subs[id := s.subs[id].(prefs := p)]))
  }

  function SetStatus(s: State, caller: Address, id: nat, status: SubStatus): Result<State, Error> {
    if id !in s.subs then Err(NotFound)
    else if caller != s.subs[id].subscriber then Err(NotAuthorizedByHost)
    else if s.subs[id].status == Cancelled && status != Cancelled then Err(InvalidState)
    else Ok(s.(subs := s.subs[id := s.subs[id].(status := status)]))
  }

  /** An event as its subscribers' filters see it. */
  datatype Notice = Notice(event: nat, eventType: EventType, severity: nat, details: Details)

  predicate Receives(s: State, id: nat, v: Notice) {
    id in s.subs && s.subs[id].status == Active && Matches(s.subs[id].filter, v.eventType, v.severity, v.details)
  }

  function NewRecord(s: State, now: u64, id: nat, event: nat): Record
    requires id in s.subs
  {
    Record(event, id, s.subs[id].subscriber, Pending, 0, WrappingAdd(now, BackoffDelay(0)), None, None)
  }

  function Enqueue(s: State, now: u64, id: nat, event: nat): State
    requires id in s.subs
  {
    var r := NewRecord(s, now, id, event);
    s.(subs := s.subs[id := s.subs[id].(lastEventAt := Some(now))],
       records := s.records[r.subscriber := RecordsOf(s, r.subscriber) + [r]])
  }

  /** In batch mode the event joins the subscriber's batch, which is flushed when it is full. */
  function Accumulate(s: State, now: u64, id: nat, event: nat): State
    requires id in s.subs
  {
    var sub := s.subs[id];
    if sub.prefs.mode != Batch then s
    else
      var batch := BatchOf(s, sub.subscriber) + [event];
      var t := s.(batches := s.batches[sub.subscriber := batch]);
      if |batch| >= sub.prefs.batchSize then Flush(t, now, sub.subscriber).0 else t
  }

  function Notify(s: State, now: u64, id: nat, v: Notice): State {
    if !Receives(s, id, v) then s else Accumulate(Enqueue(s, now, id, v.event), now, id, v.event)
  }

  function NotifyAll(s: State, now: u64, ids: seq<nat>, v: Notice): State {
    if ids == [] then s else Notify(NotifyAll(s, now, ids[..|ids| - 1], v), now, ids[|ids| - 1], v)
  }

  function Dispatch(s: State, now: u64, portfolio: Symbol, t: EventType, severity: nat, details: Details): State {
    var event := s.eventCounter + 1;
    var u := NotifyAll(s.(eventCounter := event), now, ListOf(s, portfolio), Notice(event, t, severity, details));
    u.(metrics := u.metrics.(dispatched := u.metrics.dispatched + 1))
  }

  // ---------------------------------------------------------------------------------------------
  // Runs
  // ---------------------------------------------------------------------------------------------

  datatype Op =
    | ToSubscribe(portfolio: Symbol, who: Address, filter: Filter, prefs: Prefs)
    | ToUpdatePrefs(caller: Address, id: nat, prefs: Prefs)
    | ToSetStatus(caller: Address, id: nat, status: SubStatus)
    | ToDispatch(portfolio: Symbol, eventType: EventType, severity: nat, details: Details)
    | ToEmit  // an event that is only recorded, not dispatched
    | ToDeliver(who: Address)
    | ToMarkFailed(who: Address, event: nat)
    | ToAcknowledge(who: Address, event: nat)
    | ToFlush(who: Address)

  /** One call and the ledger time it happens at. */
  datatype Call = Call(now: u64, op: Op)

  function Apply(s: State, c: Call): Result<State, Error> {
    match c.op
    case ToSubscribe(portfolio, who, f, p) => Ok(Subscribe(s, c.now, portfolio, who, f, p))
    case ToUpdatePrefs(caller, id, p) => UpdatePrefs(s, caller, id, p)
    case ToSetStatus(caller, id, status) => SetStatus(s, caller, id, status)
    case ToDispatch(portfolio, t, severity, details) => Ok(Dispatch(s, c.now, portfolio, t, severity, details))
    case ToEmit => Ok(s.(eventCounter := s.eventCounter + 1))
    case ToDeliver(who) => Ok(Deliver(s, c.now, who).0)
    case ToMarkFailed(who, event) => MarkFailed(s, c.now, who, event)
    case ToAcknowledge(who, event) => Acknowledge(s, c.now, who, event)
    case ToFlush(who) => Ok(Flush(s, c.now, who).0)
  }

  function Step(s: State, c: Call): State {
    match Apply(s, c)
    case Ok(t) => t
    case Err(_) => s
  }

  function Run(s: State, calls: seq<Call>): State {
    if calls == [] then s else Step(Run(s, calls[..|calls| - 1]), calls[|calls| - 1])
  }
}
