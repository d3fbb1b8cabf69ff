/** What the audit log keeps in every run: an unbroken chain, exact indexes, exact retention. */
module AuditLaws {
  import opened Wrappers
  import opened Host
  import opened Bytes
  import opened HashChain
  import opened AuditLog

  // ---------------------------------------------------------------------------------------------
  // The invariant
  // ---------------------------------------------------------------------------------------------

  ghost predicate Numbered(log: seq<Entry>) {
    forall i :: 0 <= i < |log| ==> log[i].id == i + 1
  }

  /**
   The stored entries are the logged ones with ids in [firstSeq, nextSeq], without a gap. Above nextSeq
   are the entries lost by a late `initialize`, until ids reach them again.
   */
  ghost predicate Retained(s: State) {
    && 1 <= s.firstSeq <= s.nextSeq + 1
    && |s.history| == s.nextSeq == s.entryCount
    && Numbered(s.history) && Numbered(s.lost)
    && (forall id :: id in s.entries <==> s.firstSeq <= id <= Max(s.nextSeq, |s.lost|))
    && (forall id :: id in s.entries ==>
          s.entries[id] == if id <= s.nextSeq then s.history[id - 1] else s.lost[id - 1])
    && (s.admin.None? ==> s.lost == [] && s.firstSeq == 1)
  }

  /** The head recomputed from the origin over the stored entries. */
  function Recomputed(h: Hash, s: State): Digest {
    Recompute(h, s.entries, s.firstSeq, s.nextSeq)
  }

  /** Before the first event the recorded head is the origin, or the last one lost by `initialize`. */
  ghost predicate HeadAtRest(s: State) {
    || s.head.GetOr(CHAIN_ORIGIN) == CHAIN_ORIGIN
    || (s.lost != [] && s.head == Some(s.lost[|s.lost| - 1].hash))
  }

  /** Once an event is logged, the recorded head is the recomputed one. */
  ghost predicate Chained(h: Hash, s: State) {
    && (s.nextSeq > 0 ==> s.head == Some(Recomputed(h, s)))
    && (s.history != [] && s.admin.None? ==> s.head == Some(s.history[|s.history| - 1].hash))
    && (s.nextSeq == 0 ==> HeadAtRest(s))
  }

  /** Ascending ids in (lo, hi] of logged entries with the given facet. */
  function IdsIn(history: seq<Entry>, f: Facet, lo: nat, hi: nat): seq<nat>
    requires hi <= |history|
    decreases hi
  {
    if hi <= lo then []
    else IdsIn(history, f, lo, hi - 1) + if Has(history[hi - 1], f) then [hi] else []
  }

  /** The ids of a log that fall into bucket b. */
  function BucketIds(log: seq<Entry>, f: Facet, b: nat): seq<nat> {
    IdsIn(log, f, BUCKET_SIZE * b, Min(BUCKET_SIZE * (b + 1), |log|))
  }

  /** Bucket b of a facet lists the lost ids of its range, then the logged ones, as far as each log goes. */
  ghost predicate BucketExact(
    index: map<(Facet, nat), seq<nat>>, lost: seq<Entry>, history: seq<Entry>, f: Facet, b: nat)
  {
    BucketAt(index, f, b) == BucketIds(lost, f, b) + BucketIds(history, f, b)
  }

  lemma BucketIdsNone(f: Facet, b: nat)
    ensures BucketIds([], f, b) == []
  {
  }

  ghost predicate Indexed(s: State) {
    forall f, b: nat :: BucketExact(s.index, s.lost, s.history, f, b)
  }

  ghost predicate Timed(s: State, now: nat) {
    && (forall i, j :: 0 <= i < j < |s.history| ==> s.history[i].timestamp <= s.history[j].timestamp)
    && (forall i :: 0 <= i < |s.history| ==> s.history[i].timestamp <= now)
  }

  ghost predicate Valid(h: Hash, s: State) {
    Retained(s) && Chained(h, s) && Indexed(s)
  }

  // ---------------------------------------------------------------------------------------------
  // Steps keep it
  // ---------------------------------------------------------------------------------------------

  /** The recomputation reads nothing outside its range. */
  lemma {:induction false} RecomputeFrame(h: Hash, a: map<nat, Entry>, b: map<nat, Entry>, first: nat, last: nat)
    requires forall id :: first <= id <= last ==> (id in a <==> id in b) && (id in a ==> a[id] == b[id])
    ensures Recompute(h, a, first, last) == Recompute(h, b, first, last)
    decreases last
  {
    if first <= last && last > 0 {
      RecomputeFrame(h, a, b, first, last - 1);
    }
  }

  lemma {:induction false} IdsInFrame(a: seq<Entry>, b: seq<Entry>, f: Facet, lo: nat, hi: nat)
    requires hi <= |a| && a <= b
    ensures IdsIn(a, f, lo, hi) == IdsIn(b, f, lo, hi)
    decreases hi
  {
    if lo < hi {
      IdsInFrame(a, b, f, lo, hi - 1);
    }
  }

  lemma IndexEntryAt(index: map<(Facet, nat), seq<nat>>, e: Entry, f: Facet, b: nat)
    requires e.id > 0
    ensures BucketAt(IndexEntry(index, e), f, b)
            == BucketAt(index, f, b) + if b == Bucket(e.id) && Has(e, f) then [e.id] else []
  {
    if !(b == Bucket(e.id) && Has(e, f)) {
      assert BucketAt(index, f, b) + [] == BucketAt(index, f, b);
    }
  }

  lemma {:induction false} PayloadIgnoresHash(h: Hash, e: Entry, n: nat)
    requires n <= PARTS
    ensures Parts(h, e, n) == Parts(h, e.(hash := CHAIN_ORIGIN), n)
  {
    if n > 0 {
      PayloadIgnoresHash(h, e, n - 1);
    }
  }

  lemma LogRetained(h: Hash, s: State, now: u64, v: Event)
    requires Retained(s)
    ensures Retained(Log(h, s, now, v))
  {
  }

  lemma LogChained(h: Hash, s: State, now: u64, v: Event)
    requires Retained(s) && Chained(h, s)
    ensures Chained(h, Log(h, s, now, v))
  {
    hide IndexEntry, Parts, ChainHash;
    var t := Log(h, s, now, v);
    var id := s.nextSeq + 1;
    RecomputeFrame(h, s.entries, t.entries, s.firstSeq, s.nextSeq);
    var e := t.entries[id];
    PayloadIgnoresHash(h, e, PARTS);
    assert e.hash == ChainHash(h, Recomputed(h, s), Payload(h, e));
    assert t.history[|t.history| - 1] == e;
  }

  lemma BucketRange(id: nat, b: nat)
    requires id > 0
    ensures b == Bucket(id) <==> BUCKET_SIZE * b < id <= BUCKET_SIZE * (b + 1)
  {
  }

  lemma BucketAppend(history: seq<Entry>, e: Entry, f: Facet, b: nat)
    requires e.id == |history| + 1
    ensures BucketIds(history + [e], f, b)
            == BucketIds(history, f, b) + if b == Bucket(e.id) && Has(e, f) then [e.id] else []
  {
    var lo, hi := BUCKET_SIZE * b, Min(BUCKET_SIZE * (b + 1), |history|);
    IdsInFrame(history, history + [e], f, lo, hi);
    BucketRange(e.id, b);
    assert (history + [e])[e.id - 1] == e;
    if b == Bucket(e.id) {
      assert IdsIn(history + [e], f, lo, e.id)
          == IdsIn(history + [e], f, lo, hi) + if Has(e, f) then [e.id] else [];
    } else {
      assert BucketIds(history, f, b) + [] == BucketIds(history, f, b);
    }
  }

  lemma LogAppends(h: Hash, s: State, now: u64, v: Event) returns (e: Entry)
    requires Retained(s)
    ensures e.id == s.nextSeq + 1
    ensures var t := Log(h, s, now, v);
            t.index == IndexEntry(s.index, e) && t.history == s.history + [e] && t.lost == s.lost
  {
    hide IndexEntry, ChainHash, Recomputed;
    e := Log(h, s, now, v).entries[s.nextSeq + 1];
  }

  lemma LogIndexed(h: Hash, s: State, now: u64, v: Event)
    requires Retained(s) && Indexed(s)
    ensures Indexed(Log(h, s, now, v))
  {
    hide Log, IndexEntry, BucketIds;
    var t := Log(h, s, now, v);
    var e := LogAppends(h, s, now, v);
    forall f, b: nat
      ensures BucketExact(t.index, t.lost, t.history, f, b)
    {
      assert BucketExact(s.index, s.lost, s.history, f, b);
      IndexEntryAt(s.index, e, f, b);
      BucketAppend(s.history, e, f, b);
    }
  }

  /** The age scan stops inside the log. */
  lemma {:induction false} OldPrefixBounds(entries: map<nat, Entry>, from: nat, last: nat, cutoff: nat)
    requires from <= last + 1
    ensures from + OldPrefix(entries, from, last, cutoff) <= last + 1
    decreases last + 1 - from
  {
    if from <= last && from in entries && entries[from].timestamp < cutoff {
      OldPrefixBounds(entries, from + 1, last, cutoff);
    }
  }

  lemma PruneCountBounds(s: State, now: u64)
    requires s.firstSeq <= s.nextSeq + 1
    ensures AgeCount(s, now) <= PruneCount(s, now) <= s.nextSeq + 1 - s.firstSeq
  {
    OldPrefixBounds(s.entries, s.firstSeq, s.nextSeq, Cutoff(s.policy, now));
  }

  lemma PruneRetained(h: Hash, s: State, caller: Address, now: u64)
    requires Retained(s) && Prune(h, s, caller, now).Ok?
    ensures Retained(Prune(h, s, caller, now).value.0)
  {
    PruneCountBounds(s, now);
  }

  lemma PruneValid(h: Hash, s: State, caller: Address, now: u64)
    requires Valid(h, s) && Prune(h, s, caller, now).Ok?
    ensures Valid(h, Prune(h, s, caller, now).value.0)
  {
    PruneRetained(h, s, caller, now);
    var t := Prune(h, s, caller, now).value.0;
    assert t.index == s.index && t.history == s.history && t.lost == s.lost && t.nextSeq == s.nextSeq;
    assert t.head == Some(Recomputed(h, t));
  }

  /** Initializing turns the log so far into the lost one, and starts an empty one. */
  lemma InitializeValid(h: Hash, s: State, now: u64, admin: Address)
    requires Valid(h, s) && s.admin.None?
    ensures Valid(h, Step(h, s, Initialize(now, admin)))
  {
    var t := Step(h, s, Initialize(now, admin));
    forall f, b: nat
      ensures BucketExact(t.index, t.lost, t.history, f, b)
    {
      assert BucketExact(s.index, s.lost, s.history, f, b);
      BucketIdsNone(f, b);
    }
  }

  lemma StepValid(h: Hash, s: State, c: Call)
    requires Valid(h, s)
    ensures Valid(h, Step(h, s, c))
  {
    hide Retained, Chained, Indexed, Log, Prune;
    match c
    case Initialize(now, admin) =>
      if s.admin.None? {
        InitializeValid(h, s, now, admin);
      }
    case SetRetentionPolicy(_, caller, policy) => PolicyValid(h, s, policy);
    case LogEvent(now, event) =>
      LogRetained(h, s, now, event);
      LogChained(h, s, now, event);
      LogIndexed(h, s, now, event);
    case PruneOld(now, caller) =>
      if Prune(h, s, caller, now).Ok? {
        PruneValid(h, s, caller, now);
      }
  }

  lemma PolicyValid(h: Hash, s: State, policy: Policy)
    requires Valid(h, s)
    ensures Valid(h, s.(policy := policy))
  {
    forall f, b: nat
      ensures BucketExact(s.index, s.lost, s.history, f, b)
    {
      assert BucketExact(s.index, s.lost, s.history, f, b);
    }
  }

  // ---------------------------------------------------------------------------------------------
  // Runs
  // ---------------------------------------------------------------------------------------------

  /** Ledger time never decreases. */
  ghost predicate TimeOrdered(calls: seq<Call>) {
    forall i, j :: 0 <= i < j < |calls| ==> calls[i].now <= calls[j].now
  }

  lemma {:induction false} RunValid(h: Hash, calls: seq<Call>)
    ensures Valid(h, Run(h, calls))
  {
    if calls == [] {
      forall f, b: nat
        ensures BucketExact(EMPTY.index, [], [], f, b)
      {
        BucketIdsNone(f, b);
      }
    } else {
      hide Valid, Step;
      RunValid(h, calls[..|calls| - 1]);
      StepValid(h, Run(h, calls[..|calls| - 1]), calls[|calls| - 1]);
    }
  }

  lemma StepTimed(h: Hash, s: State, c: Call, before: nat)
    requires Timed(s, before) && before <= c.now
    ensures Timed(Step(h, s, c), c.now)
  {
  }

  lemma {:induction false} RunTimed(h: Hash, calls: seq<Call>)
    requires TimeOrdered(calls)
    ensures Timed(Run(h, calls), if calls == [] then 0 else calls[|calls| - 1].now)
  {
    if calls != [] {
      var init := calls[..|calls| - 1];
      RunTimed(h, init);
      StepTimed(h, Run(h, init), calls[|calls| - 1], if init == [] then 0 else init[|init| - 1].now);
    }
  }

  // ---------------------------------------------------------------------------------------------
  // Integrity
  // ---------------------------------------------------------------------------------------------

  /** What the self-check of the contract decides: no gap, and the recomputed head is the recorded one. */
  ghost predicate Intact(h: Hash, s: State) {
    && (forall id :: s.firstSeq <= id <= s.nextSeq ==> id in s.entries)
    && var prev := Recompute(h, s.entries, s.firstSeq, s.nextSeq);
       s.head.GetOr(prev) == prev
  }

  /** The log is in step with its head: an event is logged, or the recorded head is the origin. */
  predicate InStep(s: State) {
    s.nextSeq > 0 || s.head.GetOr(CHAIN_ORIGIN) == CHAIN_ORIGIN
  }

  /**
   In every run of logging, pruning and initializing, the self-check succeeds if and only if an event
   is logged or the head is the origin. So it survives pruning, a log pruned empty included; it fails
   only from an `initialize` after the first event on, and succeeds again with the next event or prune.
   */
  lemma RunIntact(h: Hash, calls: seq<Call>)
    ensures var s := Run(h, calls);
            && (Intact(h, s) <==> InStep(s))
            && (!InStep(s) ==> s.lost != [] && s.head == Some(s.lost[|s.lost| - 1].hash))
  {
    RunValid(h, calls);
    assert Recompute(h, Run(h, calls).entries, 1, 0) == CHAIN_ORIGIN;
  }

  /** Initializing late is the only way to lose entries, and it loses exactly those logged so far. */
  lemma {:induction false} LostOnce(h: Hash, calls: seq<Call>, now: u64, admin: Address)
    ensures var s := Run(h, calls);
            var t := Step(h, s, Initialize(now, admin));
            && (s.admin.None? ==> s.lost == [] && t.lost == s.history && t.nextSeq == 0 && t.head == s.head)
            && (s.admin.None? ==> (InStep(t) <==> s.head.GetOr(CHAIN_ORIGIN) == CHAIN_ORIGIN))
            && (s.admin.Some? ==> t == s)
  {
    hide Chained, Indexed;
    RunValid(h, calls);
  }

  function PayloadAt(h: Hash, entries: map<nat, Entry>, id: nat): seq<byte> {
    if id in entries then Payload(h, entries[id]) else []
  }

  /** The payloads of n entries from the id `first` on. */
  function Payloads(h: Hash, entries: map<nat, Entry>, first: nat, n: nat): (r: seq<seq<byte>>)
    ensures |r| == n
  {
    if n == 0 then [] else Payloads(h, entries, first, n - 1) + [PayloadAt(h, entries, first + n - 1)]
  }

  lemma {:induction false} RecomputeIsFold(h: Hash, entries: map<nat, Entry>, first: nat, n: nat)
    requires 0 < first && forall id :: first <= id < first + n ==> id in entries
    ensures Recompute(h, entries, first, first + n - 1) == Fold(h, Payloads(h, entries, first, n))
  {
    hide Payload, ChainHash;
    if n > 0 {
      RecomputeIsFold(h, entries, first, n - 1);
      var p := Payloads(h, entries, first, n);
      assert p[..n - 1] == Payloads(h, entries, first, n - 1) && p[n - 1] == Payload(h, entries[first + n - 1]);
    }
  }

  lemma {:induction false} PayloadsAt(h: Hash, entries: map<nat, Entry>, first: nat, n: nat, k: nat)
    requires k < n
    ensures Payloads(h, entries, first, n)[k] == PayloadAt(h, entries, first + k)
  {
    hide PayloadAt;
    if k < n - 1 {
      PayloadsAt(h, entries, first, n - 1, k);
    }
  }

  /** The payloads of the stored entries, by ascending id. */
  function StoredPayloads(h: Hash, s: State): seq<seq<byte>>
    requires s.firstSeq <= s.nextSeq + 1
  {
    Payloads(h, s.entries, s.firstSeq, s.nextSeq + 1 - s.firstSeq)
  }

  lemma StoredFold(h: Hash, s: State)
    requires Retained(s)
    ensures Recomputed(h, s) == Fold(h, StoredPayloads(h, s))
  {
    hide Recompute, Payloads, Fold;
    RecomputeIsFold(h, s.entries, s.firstSeq, s.nextSeq + 1 - s.firstSeq);
  }

  /**
   In every run the recorded head is the fold of the chain over the payloads firstSeq..nextSeq if and
   only if an event is logged or the head is the origin.
   */
  lemma RunHeadIsFold(h: Hash, calls: seq<Call>)
    ensures var s := Run(h, calls);
            && s.firstSeq <= s.nextSeq + 1
            && (s.head.GetOr(CHAIN_ORIGIN) == Fold(h, StoredPayloads(h, s)) <==> InStep(s))
  {
    var s := Run(h, calls);
    RunValid(h, calls);
    StoredFold(h, s);
    assert Recompute(h, s.entries, 1, 0) == CHAIN_ORIGIN;
  }

  /**
   Tamper evidence: two logs over the same ids with the same head hold the same payload bytes at
   every id, or exhibit a collision of the hash among the very inputs they hashed.
   */
  lemma SameHeadSamePayloads(h: Hash, s: State, t: State)
    requires Valid(h, s) && Valid(h, t)
    requires s.firstSeq == t.firstSeq && s.nextSeq == t.nextSeq
    requires s.head.GetOr(CHAIN_ORIGIN) == t.head.GetOr(CHAIN_ORIGIN)
    ensures var a, b := StoredPayloads(h, s), StoredPayloads(h, t);
            a == b || exists i :: 0 <= i < |a| && CollidesAt(h, a, b, i)
  {
    if s.nextSeq > 0 {
      StoredFold(h, s);
      StoredFold(h, t);
      SameHead(h, StoredPayloads(h, s), StoredPayloads(h, t));
    }
  }

  lemma {:induction false} PartsInjective(h: Hash, e: Entry, f: Entry, n: nat, i: nat)
    requires i < n <= PARTS && Parts(h, e, n) == Parts(h, f, n)
    ensures Part(h, e, i) == Part(h, f, i)
  {
    assert |Part(h, e, n - 1)| == PartWidth(n - 1) == |Part(h, f, n - 1)|;
    SplitEnd(Parts(h, e, n - 1), Part(h, e, n - 1), Parts(h, f, n - 1), Part(h, f, n - 1));
    if i < n - 1 {
      PartsInjective(h, e, f, n - 1, i);
    }
  }

  /** The layout has fixed widths, so equal payloads agree in every number and in each of the six digests. */
  lemma PayloadDetermines(h: Hash, e: Entry, f: Entry)
    requires e.id <= U64_MAX && f.id <= U64_MAX
    requires Payload(h, e) == Payload(h, f)
    ensures e.id == f.id && e.timestamp == f.timestamp
    ensures e.eventType == f.eventType && e.permissions == f.permissions
    ensures h(TextBytes(e.actor)) == h(TextBytes(f.actor))
    ensures h(TextBytes(e.portfolio)) == h(TextBytes(f.portfolio))
    ensures h(TextBytes(e.outcome)) == h(TextBytes(f.outcome))
    ensures h(TextBytes(e.detail)) == h(TextBytes(f.detail))
    ensures h(SnapshotBytes(e.stateBefore)) == h(SnapshotBytes(f.stateBefore))
    ensures h(SnapshotBytes(e.stateAfter)) == h(SnapshotBytes(f.stateAfter))
  {
    forall i: nat | i < PARTS
      ensures Part(h, e, i) == Part(h, f, i)
    {
      PartsInjective(h, e, f, PARTS, i);
    }
    assert Part(h, e, 0) == Part(h, f, 0) && Part(h, e, 1) == Part(h, f, 1);
    assert Part(h, e, 2) == Part(h, f, 2) && Part(h, e, 3) == Part(h, f, 3);
    assert Part(h, e, 4) == Part(h, f, 4) && Part(h, e, 5) == Part(h, f, 5);
    assert Part(h, e, 6) == Part(h, f, 6) && Part(h, e, 7) == Part(h, f, 7);
    assert Part(h, e, 8) == Part(h, f, 8) && Part(h, e, 9) == Part(h, f, 9);
    Capacities();
    BigEndianInjective(e.id, f.id, 8);
    BigEndianInjective(e.timestamp, f.timestamp, 8);
    BigEndianInjective(e.eventType, f.eventType, 4);
    BigEndianInjective(e.permissions, f.permissions, 4);
  }

  // ---------------------------------------------------------------------------------------------
  // Indexes
  // ---------------------------------------------------------------------------------------------

  /** The first n buckets of a facet, joined. */
  function Joined(index: map<(Facet, nat), seq<nat>>, f: Facet, n: nat): seq<nat> {
    if n == 0 then [] else Joined(index, f, n - 1) + BucketAt(index, f, n - 1)
  }

  /** The ids of a sequence that have not been pruned. */
  function NotBelow(ids: seq<nat>, first: nat): seq<nat> {
    if ids == [] then []
    else NotBelow(ids[..|ids| - 1], first) + if ids[|ids| - 1] >= first then [ids[|ids| - 1]] else []
  }

  /** The full scan: ascending ids of the stored entries that have the facet. */
  function Scan(entries: map<nat, Entry>, f: Facet, first: nat, last: nat): seq<nat>
    decreases last
  {
    if last < first || last == 0 then []
    else Scan(entries, f, first, last - 1) + if last in entries && Has(entries[last], f) then [last] else []
  }

  lemma {:induction false} IdsInJoin(history: seq<Entry>, f: Facet, lo: nat, mid: nat, hi: nat)
    requires lo <= mid <= hi <= |history|
    ensures IdsIn(history, f, lo, hi) == IdsIn(history, f, lo, mid) + IdsIn(history, f, mid, hi)
    decreases hi
  {
    if mid < hi {
      IdsInJoin(history, f, lo, mid, hi - 1);
    }
  }

  lemma NotBelowSnoc(ids: seq<nat>, id: nat, first: nat)
    ensures NotBelow(ids + [id], first) == NotBelow(ids, first) + if id >= first then [id] else []
  {
    assert (ids + [id])[..|ids|] == ids;
  }

  lemma {:induction false} ScanIds(s: State, f: Facet, last: nat)
    requires Retained(s) && last <= s.nextSeq
    ensures NotBelow(IdsIn(s.history, f, 0, last), s.firstSeq) == Scan(s.entries, f, s.firstSeq, last)
  {
    if last > 0 {
      ScanIds(s, f, last - 1);
      var before := IdsIn(s.history, f, 0, last - 1);
      NotBelowSnoc(before, last, s.firstSeq);
      assert before + [] == before;
      assert last in s.entries <==> s.firstSeq <= last;
    }
  }

  lemma {:induction false} NotBelowJoin(a: seq<nat>, b: seq<nat>, first: nat)
    ensures NotBelow(a + b, first) == NotBelow(a, first) + NotBelow(b, first)
  {
    if b == [] {
      assert a + b == a;
    } else {
      var n := |b| - 1;
      NotBelowJoin(a, b[..n], first);
      NotBelowSnoc(a + b[..n], b[n], first);
      assert a + b == a + b[..n] + [b[n]];
    }
  }

  lemma {:induction false} NotBelowNone(ids: seq<nat>, first: nat)
    requires forall i :: 0 <= i < |ids| ==> ids[i] < first
    ensures NotBelow(ids, first) == []
  {
    if ids != [] {
      NotBelowNone(ids[..|ids| - 1], first);
    }
  }

  /** The ids of a log with a facet that fall into the first n buckets and are not pruned. */
  function Kept(log: seq<Entry>, f: Facet, n: nat, first: nat): seq<nat> {
    NotBelow(IdsIn(log, f, 0, Min(BUCKET_SIZE * n, |log|)), first)
  }

  lemma KeptStep(log: seq<Entry>, f: Facet, b: nat, first: nat)
    ensures Kept(log, f, b + 1, first) == Kept(log, f, b, first) + NotBelow(BucketIds(log, f, b), first)
  {
    hide NotBelow;
    var lo, hi := Min(BUCKET_SIZE * b, |log|), Min(BUCKET_SIZE * (b + 1), |log|);
    IdsInJoin(log, f, 0, lo, hi);
    assert IdsIn(log, f, lo, hi) == BucketIds(log, f, b);
    NotBelowJoin(IdsIn(log, f, 0, lo), IdsIn(log, f, lo, hi), first);
  }

  lemma LostPruned(s: State, f: Facet, b: nat)
    requires |s.lost| < s.firstSeq
    ensures NotBelow(BucketIds(s.lost, f, b), s.firstSeq) == []
  {
    IdsInShape(s.lost, f, BUCKET_SIZE * b, Min(BUCKET_SIZE * (b + 1), |s.lost|));
    NotBelowNone(BucketIds(s.lost, f, b), s.firstSeq);
  }

  /** One bucket adds to the joined ids what it adds to those both logs keep. */
  lemma JoinedStep(s: State, f: Facet, b: nat)
    requires BucketExact(s.index, s.lost, s.history, f, b)
    ensures var first, joined := s.firstSeq, Joined(s.index, f, b);
            && NotBelow(joined + BucketAt(s.index, f, b), first)
               == NotBelow(joined, first) + NotBelow(BucketIds(s.lost, f, b), first)
                  + NotBelow(BucketIds(s.history, f, b), first)
            && Kept(s.lost, f, b + 1, first) == Kept(s.lost, f, b, first) + NotBelow(BucketIds(s.lost, f, b), first)
            && Kept(s.history, f, b + 1, first)
               == Kept(s.history, f, b, first) + NotBelow(BucketIds(s.history, f, b), first)
  {
    hide NotBelow, Kept, BucketIds, Joined, BucketAt;
    var first, joined := s.firstSeq, Joined(s.index, f, b);
    KeptStep(s.lost, f, b, first);
    KeptStep(s.history, f, b, first);
    NotBelowJoin(joined, BucketAt(s.index, f, b), first);
    NotBelowJoin(BucketIds(s.lost, f, b), BucketIds(s.history, f, b), first);
  }

  lemma KeptNone(log: seq<Entry>, f: Facet, first: nat)
    ensures Kept(log, f, 0, first) == []
  {
  }

  /** Joined buckets hold as many ids as both logs keep, and when all lost ids are pruned, exactly the kept ones. */
  lemma {:induction false} JoinedIds(s: State, f: Facet, n: nat)
    requires Indexed(s)
    ensures |NotBelow(Joined(s.index, f, n), s.firstSeq)|
            == |Kept(s.lost, f, n, s.firstSeq)| + |Kept(s.history, f, n, s.firstSeq)|
    ensures |s.lost| < s.firstSeq ==>
              NotBelow(Joined(s.index, f, n), s.firstSeq) == Kept(s.history, f, n, s.firstSeq)
  {
    hide Kept, BucketIds, BucketExact, BucketAt;
    if n == 0 {
      KeptNone(s.lost, f, s.firstSeq);
      KeptNone(s.history, f, s.firstSeq);
    } else {
      var b := n - 1;
      assert BucketExact(s.index, s.lost, s.history, f, b);
      assert Joined(s.index, f, n) == Joined(s.index, f, b) + BucketAt(s.index, f, b);
      hide NotBelow, Indexed, Joined;
      JoinedIds(s, f, b);
      JoinedStep(s, f, b);
      if |s.lost| < s.firstSeq {
        LostPruned(s, f, b);
        assert Kept(s.history, f, b, s.firstSeq) + [] == Kept(s.history, f, b, s.firstSeq);
      }
    }
  }

  /** The first buckets of a facet, without the pruned ids, are the scan. */
  ghost predicate Refines(s: State, f: Facet, buckets: nat) {
    NotBelow(Joined(s.index, f, buckets), s.firstSeq) == Scan(s.entries, f, s.firstSeq, s.nextSeq)
  }

  lemma KeptScan(s: State, f: Facet, buckets: nat)
    requires Retained(s) && BUCKET_SIZE * buckets >= s.nextSeq
    ensures Kept(s.history, f, buckets, s.firstSeq) == Scan(s.entries, f, s.firstSeq, s.nextSeq)
  {
    ScanIds(s, f, s.nextSeq);
  }

  /** The last lost entry is listed once too often as long as its id is not pruned. */
  lemma LostListed(s: State, buckets: nat)
    requires Retained(s) && s.firstSeq <= |s.lost| <= BUCKET_SIZE * buckets
    ensures |Kept(s.lost, OfActor(s.lost[|s.lost| - 1].actor), buckets, s.firstSeq)| > 0
  {
    var n, f := |s.lost|, OfActor(s.lost[|s.lost| - 1].actor);
    NotBelowSnoc(IdsIn(s.lost, f, 0, n - 1), n, s.firstSeq);
  }

  /**
   In every run: joining a facet's buckets and dropping pruned ids is exactly the scan, for every event
   type, actor, portfolio and outcome, if and only if no entry lost by a late `initialize` has an id
   that is not pruned. Without such entries it always is.
   */
  lemma IndexRefinesScan(h: Hash, calls: seq<Call>, buckets: nat)
    requires BUCKET_SIZE * buckets >= Max(Run(h, calls).nextSeq, |Run(h, calls).lost|)
    ensures var s := Run(h, calls);
            (forall f :: Refines(s, f, buckets)) <==> |s.lost| < s.firstSeq
  {
    hide NotBelow, Joined, Scan, Kept, Run;
    var s := Run(h, calls);
    RunValid(h, calls);
    if |s.lost| < s.firstSeq {
      forall f
        ensures Refines(s, f, buckets)
      {
        JoinedIds(s, f, buckets);
        KeptScan(s, f, buckets);
      }
    } else {
      var f := OfActor(s.lost[|s.lost| - 1].actor);
      LostListed(s, buckets);
      JoinedIds(s, f, buckets);
      KeptScan(s, f, buckets);
      assert !Refines(s, f, buckets);
    }
  }

  lemma {:induction false} IdsInShape(history: seq<Entry>, f: Facet, lo: nat, hi: nat)
    requires hi <= |history|
    ensures var ids := IdsIn(history, f, lo, hi);
            && |ids| <= Max(0, hi - lo)
            && (forall i :: 0 <= i < |ids| ==> lo < ids[i] <= hi)
            && (forall i, j :: 0 <= i < j < |ids| ==> ids[i] < ids[j])
    decreases hi
  {
    if lo < hi {
      IdsInShape(history, f, lo, hi - 1);
    }
  }

  /** At most 250 strictly increasing ids from (250b, 250(b + 1)]. */
  ghost predicate BucketShaped(ids: seq<nat>, b: nat) {
    && |ids| <= BUCKET_SIZE
    && (forall i :: 0 <= i < |ids| ==> BUCKET_SIZE * b < ids[i] <= BUCKET_SIZE * (b + 1))
    && (forall i, j :: 0 <= i < j < |ids| ==> ids[i] < ids[j])
  }

  lemma BucketIdsShape(log: seq<Entry>, f: Facet, b: nat)
    ensures BucketShaped(BucketIds(log, f, b), b)
  {
    IdsInShape(log, f, BUCKET_SIZE * b, Min(BUCKET_SIZE * (b + 1), |log|));
  }

  /**
   In every run a bucket b is two lists of at most 250 strictly increasing ids from (250b, 250(b + 1)],
   the first of them empty unless `initialize` came late.
   */
  lemma BucketShape(h: Hash, calls: seq<Call>, f: Facet, b: nat)
    ensures var s := Run(h, calls);
            var lost, logged := BucketIds(s.lost, f, b), BucketIds(s.history, f, b);
            && BucketAt(s.index, f, b) == lost + logged && BucketShaped(lost, b) && BucketShaped(logged, b)
            && (s.lost == [] ==> BucketShaped(BucketAt(s.index, f, b), b))
  {
    hide Run, BucketIds, BucketShaped, Retained, Chained;
    RunValid(h, calls);
    var s := Run(h, calls);
    assert BucketExact(s.index, s.lost, s.history, f, b);
    BucketIdsShape(s.history, f, b);
    BucketIdsShape(s.lost, f, b);
    if s.lost == [] {
      BucketIdsNone(f, b);
      assert [] + BucketIds(s.history, f, b) == BucketIds(s.history, f, b);
    }
  }

  // ---------------------------------------------------------------------------------------------
  // Retention
  // ---------------------------------------------------------------------------------------------

  /** Stored timestamps never decrease with the id. */
  ghost predicate TimeSorted(entries: map<nat, Entry>, first: nat, last: nat) {
    forall i, j :: first <= i <= j <= last ==>
      i in entries && j in entries && entries[i].timestamp <= entries[j].timestamp
  }

  lemma StoredSorted(s: State, now: nat)
    requires Retained(s) && Timed(s, now)
    ensures TimeSorted(s.entries, s.firstSeq, s.nextSeq)
  {
    forall i, j | s.firstSeq <= i <= j <= s.nextSeq
      ensures i in s.entries && j in s.entries && s.entries[i].timestamp <= s.entries[j].timestamp
    {
      assert s.entries[i] == s.history[i - 1] && s.entries[j] == s.history[j - 1];
    }
  }

  lemma {:induction false} OldPrefixExact(entries: map<nat, Entry>, from: nat, last: nat, cutoff: nat)
    requires from <= last + 1 && TimeSorted(entries, from, last)
    ensures var n := OldPrefix(entries, from, last, cutoff);
            && from + n <= last + 1
            && (forall id :: from <= id < from + n ==> entries[id].timestamp < cutoff)
            && (forall id :: from + n <= id <= last ==> cutoff <= entries[id].timestamp)
    decreases last + 1 - from
  {
    if from <= last && entries[from].timestamp < cutoff {
      OldPrefixExact(entries, from + 1, last, cutoff);
    }
  }

  /** What pruning left of a log, as a policy at a time asks: no less, and no more by one entry. */
  ghost predicate RetainsExactly(s: State, t: State, n: nat, now: u64) {
    var p := s.policy;
    && t.firstSeq == s.firstSeq + n <= t.nextSeq + 1 && t.nextSeq == s.nextSeq
    && (forall id :: id in t.entries <==> id in s.entries && t.firstSeq <= id)
    && (forall id :: t.firstSeq <= id <= t.nextSeq ==> id in t.entries)
    && (forall id :: id in t.entries ==> t.entries[id] == s.entries[id])
    && (p.maxAge > 0 ==>
          forall id :: t.firstSeq <= id <= t.nextSeq ==> now <= t.entries[id].timestamp + p.maxAge)
    && (p.maxEntries > 0 ==> t.nextSeq + 1 - t.firstSeq <= p.maxEntries)
    && (n > 0 ==>
          || (p.maxAge > 0 && t.firstSeq - 1 in s.entries
              && s.entries[t.firstSeq - 1].timestamp + p.maxAge < now)
          || (p.maxEntries > 0 && t.nextSeq + 1 - (t.firstSeq - 1) > p.maxEntries))
  }

  lemma PruneExact(h: Hash, s: State, caller: Address, now: u64)
    requires Retained(s) && Timed(s, now) && Prune(h, s, caller, now).Ok?
    ensures var (t, n) := Prune(h, s, caller, now).value; RetainsExactly(s, t, n, now)
  {
    hide Recompute, OldPrefix;
    PruneCountBounds(s, now);
    StoredSorted(s, now);
    OldPrefixExact(s.entries, s.firstSeq, s.nextSeq, Cutoff(s.policy, now));
  }

  /**
   In every run with ordered time, pruning removes a prefix of the ids; afterwards both configured
   limits hold, and keeping just one more entry would break one of them.
   */
  lemma RetentionExact(h: Hash, calls: seq<Call>, caller: Address, now: u64)
    requires TimeOrdered(calls + [PruneOld(now, caller)])
    ensures var s := Run(h, calls);
            Prune(h, s, caller, now).Ok? ==>
              RetainsExactly(s, Prune(h, s, caller, now).value.0, Prune(h, s, caller, now).value.1, now)
  {
    var all := calls + [PruneOld(now, caller)];
    assert all[|calls|] == PruneOld(now, caller);
    forall i, j | 0 <= i < j < |calls|
      ensures calls[i].now <= calls[j].now
    {
      assert all[i] == calls[i] && all[j] == calls[j];
    }
    if calls != [] {
      assert all[|calls| - 1] == calls[|calls| - 1];
    }
    hide Run, Prune, Retained, Chained, Indexed, RetainsExactly;
    RunValid(h, calls);
    RunTimed(h, calls);
    if Prune(h, Run(h, calls), caller, now).Ok? {
      PruneExact(h, Run(h, calls), caller, now);
    }
  }

  /** `EntryCount` is the number of ids in [firstSeq, nextSeq], whose entries are stored, until a first prune. */
  lemma EntryCountIff(h: Hash, calls: seq<Call>)
    ensures var s := Run(h, calls);
            s.entryCount == s.nextSeq + 1 - s.firstSeq <==> s.firstSeq == 1
  {
    RunValid(h, calls);
  }

  // ---------------------------------------------------------------------------------------------
  // Queries
  // ---------------------------------------------------------------------------------------------

  lemma {:induction false} MatchingAt(entries: map<nat, Entry>, q: Query, first: nat, last: nat, i: nat)
    requires forall id :: first <= id <= last && id in entries ==> entries[id].id == id
    requires i < |Matching(entries, q, first, last)|
    ensures var out := Matching(entries, q, first, last);
            && q.Matches(out[i]) && first <= out[i].id <= last
            && out[i].id in entries && entries[out[i].id] == out[i]
            && (0 < i ==> out[i - 1].id < out[i].id)
    decreases last
  {
    var before := Matching(entries, q, first, last - 1);
    if i < |before| {
      MatchingAt(entries, q, first, last - 1, i);
    } else if 0 < i {
      MatchingAt(entries, q, first, last - 1, i - 1);
    }
  }

  /** In every run every result of a query matches, is stored under its id, and results come by ascending id. */
  lemma MatchingSound(h: Hash, calls: seq<Call>, q: Query, i: nat)
    requires var s := Run(h, calls); i < |Matching(s.entries, q, s.firstSeq, s.nextSeq)|
    ensures var s := Run(h, calls);
            var out := Matching(s.entries, q, s.firstSeq, s.nextSeq);
            && q.Matches(out[i]) && s.firstSeq <= out[i].id <= s.nextSeq
            && out[i].id in s.entries && s.entries[out[i].id] == out[i]
            && (0 < i ==> out[i - 1].id < out[i].id)
  {
    hide Run, Matching, Chained, Indexed;
    RunValid(h, calls);
    var s := Run(h, calls);
    assert forall id :: id in s.entries ==> s.entries[id].id == id;
    MatchingAt(s.entries, q, s.firstSeq, s.nextSeq, i);
  }

  lemma {:induction false} MatchingHas(entries: map<nat, Entry>, q: Query, first: nat, last: nat, id: nat)
    requires 0 < first <= id <= last && id in entries && q.Matches(entries[id])
    ensures entries[id] in Matching(entries, q, first, last)
    decreases last
  {
    if id < last {
      MatchingHas(entries, q, first, last - 1, id);
    }
  }

  /** And every retained entry that matches is among the results. */
  lemma MatchingComplete(h: Hash, calls: seq<Call>, q: Query, id: nat)
    requires var s := Run(h, calls);
             s.firstSeq <= id <= s.nextSeq && id in s.entries && q.Matches(s.entries[id])
    ensures var s := Run(h, calls);
            s.entries[id] in Matching(s.entries, q, s.firstSeq, s.nextSeq)
  {
    hide Run, Matching, Chained, Indexed;
    RunValid(h, calls);
    MatchingHas(Run(h, calls).entries, q, Run(h, calls).firstSeq, Run(h, calls).nextSeq, id);
  }
}
