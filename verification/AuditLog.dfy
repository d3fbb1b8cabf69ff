/**
 The append-only audit log: a hash chain over entry payloads, bucketed secondary indexes, queries
 and retention. The hash function is a parameter; nothing is assumed about it.
 */
module AuditLog {
  import opened Wrappers
  import opened Host
  import opened Bytes
  import opened HashChain

  const BUCKET_SIZE := 250
  const DEFAULT_LIMIT := 50

  /** Event types by their stored discriminant: 0 to 19, and 99 for custom events. */
  type EventType = t: u32 | t <= 19 || t == 99

  datatype Field = Field(key: Symbol, value: int)

  datatype Entry = Entry(
    id: nat,
    timestamp: u64,
    eventType: EventType,
    actor: Address,
    permissions: u32,
    portfolio: Symbol,
    stateBefore: seq<Field>,
    stateAfter: seq<Field>,
    outcome: Symbol,
    detail: string,
    hash: Digest)

  /** What the caller of `log_event` supplies. */
  datatype Event = Event(
    eventType: EventType,
    actor: Address,
    permissions: u32,
    portfolio: Symbol,
    stateBefore: seq<Field>,
    stateAfter: seq<Field>,
    outcome: Symbol,
    detail: string)

  datatype Policy = Policy(maxEntries: nat, maxAge: nat) {
    predicate Unbounded() {
      maxEntries == 0 && maxAge == 0
    }
  }

  /** The value a secondary index is keyed by; the stored key adds the bucket number. */
  datatype Facet = OfType(t: EventType) | OfActor(a: Address) | OfPortfolio(p: Symbol) | OfOutcome(o: Symbol)

  datatype AuditError = NotInitialized | Unauthorized | NoRetentionPolicy | AlreadyInitialized

  /**
   Two fields are history variables, everything else is stored: `history` is every entry logged since
   the counters last started from zero, and `lost` every entry logged before `initialize` reset them.
   */
  datatype State = State(
    admin: Option<Address>,
    policy: Policy,
    firstSeq: nat,
    nextSeq: nat,
    entryCount: nat,
    head: Option<Digest>,
    entries: map<nat, Entry>,
    index: map<(Facet, nat), seq<nat>>,
    history: seq<Entry>,
    lost: seq<Entry>)

  const EMPTY := State(None, Policy(0, 0), 1, 0, 0, None, map[], map[], [], [])

  // ---------------------------------------------------------------------------------------------
  // Payloads and the chain
  // ---------------------------------------------------------------------------------------------

  /** Names and addresses are ASCII text. */
  function TextBytes(s: string): seq<byte> {
    seq(|s|, i requires 0 <= i < |s| => s[i] as int % 256)
  }

  function FieldsBytes(fs: seq<Field>): seq<byte> {
    if fs == [] then []
    else
      var f := fs[|fs| - 1];
      FieldsBytes(fs[..|fs| - 1]) + TextBytes(f.key) + BigEndian(f.value % (2 * TWO_127), 16)
  }

  function SnapshotBytes(fs: seq<Field>): seq<byte> {
    BigEndian(|fs|, 4) + FieldsBytes(fs)
  }

  const PARTS := 10

  /** The parts of the fixed layout that is hashed: four numbers, then six digests of 32 bytes each. */
  function Part(h: Hash, e: Entry, i: nat): seq<byte>
    requires i < PARTS
  {
    match i
    case 0 => BigEndian(e.id, 8)
    case 1 => BigEndian(e.timestamp, 8)
    case 2 => BigEndian(e.eventType, 4)
    case 3 => BigEndian(e.permissions, 4)
    case 4 => h(TextBytes(e.actor))
    case 5 => h(TextBytes(e.portfolio))
    case 6 => h(TextBytes(e.outcome))
    case 7 => h(TextBytes(e.detail))
    case 8 => h(SnapshotBytes(e.stateBefore))
    case 9 => h(SnapshotBytes(e.stateAfter))
  }

  function PartWidth(i: nat): nat {
    if i < 2 then 8 else if i < 4 then 4 else 32
  }

  /** The first n parts, appended one after the other. */
  function Parts(h: Hash, e: Entry, n: nat): seq<byte>
    requires n <= PARTS
  {
    if n == 0 then [] else Parts(h, e, n - 1) + Part(h, e, n - 1)
  }

  function Payload(h: Hash, e: Entry): seq<byte> {
    Parts(h, e, PARTS)
  }

  /** The head recomputed from the origin over the entries present in [first, last]. */
  function Recompute(h: Hash, entries: map<nat, Entry>, first: nat, last: nat): Digest
    decreases last
  {
    if last < first || last == 0 then CHAIN_ORIGIN
    else
      var prev := Recompute(h, entries, first, last - 1);
      if last in entries then ChainHash(h, prev, Payload(h, entries[last])) else prev
  }

  // ---------------------------------------------------------------------------------------------
  // Logging
  // ---------------------------------------------------------------------------------------------

  function Bucket(id: nat): nat
    requires id > 0
  {
    (id - 1) / BUCKET_SIZE
  }

  predicate Has(e: Entry, f: Facet) {
    match f
    case OfType(t) => e.eventType == t
    case OfActor(a) => e.actor == a
    case OfPortfolio(p) => e.portfolio == p
    case OfOutcome(o) => e.outcome == o
  }

  function BucketAt(index: map<(Facet, nat), seq<nat>>, f: Facet, b: nat): seq<nat> {
    if (f, b) in index then index[(f, b)] else []
  }

  function AppendIndex(index: map<(Facet, nat), seq<nat>>, f: Facet, id: nat): map<(Facet, nat), seq<nat>>
    requires id > 0
  {
    index[(f, Bucket(id)) := BucketAt(index, f, Bucket(id)) + [id]]
  }

  function IndexEntry(index: map<(Facet, nat), seq<nat>>, e: Entry): map<(Facet, nat), seq<nat>>
    requires e.id > 0
  {
    var i1 := AppendIndex(index, OfType(e.eventType), e.id);
    var i2 := AppendIndex(i1, OfActor(e.actor), e.id);
    var i3 := AppendIndex(i2, OfPortfolio(e.portfolio), e.id);
    AppendIndex(i3, OfOutcome(e.outcome), e.id)
  }

  function MakeEntry(h: Hash, prev: Digest, id: nat, now: u64, v: Event): Entry {
    var e := Entry(id, now, v.eventType, v.actor, v.permissions, v.portfolio, v.stateBefore, v.stateAfter,
                   v.outcome, v.detail, CHAIN_ORIGIN);
    e.(hash := ChainHash(h, if id == 1 then CHAIN_ORIGIN else prev, Payload(h, e)))
  }

  function Log(h: Hash, s: State, now: u64, v: Event): State {
    var id := s.nextSeq + 1;
    var e := MakeEntry(h, s.head.GetOr(CHAIN_ORIGIN), id, now, v);
    s.(nextSeq := id, entryCount := s.entryCount + 1, head := Some(e.hash), entries := s.entries[id := e],
       index := IndexEntry(s.index, e), history := s.history + [e])
  }

  // ---------------------------------------------------------------------------------------------
  // Retention
  // ---------------------------------------------------------------------------------------------

  function Cutoff(p: Policy, now: u64): nat {
    if now > p.maxAge then now - p.maxAge else 0
  }

  /** How many entries from `from` on, without a gap, are older than the cutoff. */
  function OldPrefix(entries: map<nat, Entry>, from: nat, last: nat, cutoff: nat): nat
    decreases last + 1 - from
  {
    if from <= last && from in entries && entries[from].timestamp < cutoff
    then 1 + OldPrefix(entries, from + 1, last, cutoff)
    else 0
  }

  function AgeCount(s: State, now: u64): nat {
    if s.policy.maxAge > 0 then OldPrefix(s.entries, s.firstSeq, s.nextSeq, Cutoff(s.policy, now)) else 0
  }

  /** Entries to remove: those too old, then as many more as the size limit asks for. */
  function PruneCount(s: State, now: u64): nat {
    var aged := AgeCount(s, now);
    var remaining := s.nextSeq + 1 - s.firstSeq - aged;
    if s.policy.maxEntries > 0 && remaining > s.policy.maxEntries
    then aged + (remaining - s.policy.maxEntries)
    else aged
  }

  /** The store without the entries of ids from `from` up to, and not including, `to`. */
  function Without(entries: map<nat, Entry>, from: nat, to: nat): map<nat, Entry> {
    map id | id in entries && !(from <= id < to) :: entries[id]
  }

  function Prune(h: Hash, s: State, caller: Address, now: u64): Result<(State, nat), AuditError> {
    if s.admin.None? then Err(NotInitialized)
    else if caller != s.admin.value then Err(Unauthorized)
    else if s.policy.Unbounded() then Err(NoRetentionPolicy)
    else
      var n := PruneCount(s, now);
      var first := s.firstSeq + n;
      var kept := Without(s.entries, s.firstSeq, first);
      Ok((s.(firstSeq := first, entries := kept, head := Some(Recompute(h, kept, first, s.nextSeq))), n))
  }

  // ---------------------------------------------------------------------------------------------
  // Queries
  // ---------------------------------------------------------------------------------------------

  /** Optional filters; a time bound of 0 is unset. */
  datatype Query = Query(
    fromTs: u64,
    toTs: u64,
    eventType: Option<EventType>,
    actor: Option<Address>,
    portfolio: Option<Symbol>,
    outcome: Option<Symbol>,
    limit: nat)
  {
    predicate Matches(e: Entry) {
      && (fromTs != 0 ==> fromTs <= e.timestamp)
      && (toTs != 0 ==> e.timestamp <= toTs)
      && (eventType.Some? ==> e.eventType == eventType.value)
      && (actor.Some? ==> e.actor == actor.value)
      && (portfolio.Some? ==> e.portfolio == portfolio.value)
      && (outcome.Some? ==> e.outcome == outcome.value)
    }

    function Limit(): nat {
      if limit == 0 then DEFAULT_LIMIT else limit
    }
  }

  /** Every stored entry in [first, last] that matches, by ascending id. */
  function Matching(entries: map<nat, Entry>, q: Query, first: nat, last: nat): seq<Entry>
    decreases last
  {
    if last < first || last == 0 then []
    else
      Matching(entries, q, first, last - 1)
      + if last in entries && q.Matches(entries[last]) then [entries[last]] else []
  }

  // ---------------------------------------------------------------------------------------------
  // Runs
  // ---------------------------------------------------------------------------------------------

  datatype Call =
    | Initialize(now: u64, admin: Address)
    | SetRetentionPolicy(now: u64, caller: Address, policy: Policy)
    | LogEvent(now: u64, event: Event)
    | PruneOld(now: u64, caller: Address)

  function Step(h: Hash, s: State, c: Call): State {
    match c
    case Initialize(_, admin) =>
      if s.admin.Some? then s
      else
        s.(admin := Some(admin), nextSeq := 0, entryCount := 0, firstSeq := 1, history := [], lost := s.history)
    case SetRetentionPolicy(_, caller, policy) =>
      if s.admin == Some(caller) then s.(policy := policy) else s
    case LogEvent(now, event) => Log(h, s, now, event)
    case PruneOld(now, caller) =>
      var r := Prune(h, s, caller, now);
      if r.Ok? then r.value.0 else s
  }

  function Run(h: Hash, calls: seq<Call>): State {
    if calls == [] then EMPTY else Step(h, Run(h, calls[..|calls| - 1]), calls[|calls| - 1])
  }
}
