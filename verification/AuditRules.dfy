/** What a log entry says, who may change what, and what a query selects, in the fields of calls and entries. */
module AuditRules {
  import opened Wrappers
  import opened Host
  import opened Bytes
  import opened HashChain
  import opened AuditLog
  import opened AuditLaws

  // ---------------------------------------------------------------------------------------------
  // Entries
  // ---------------------------------------------------------------------------------------------

  /** An entry records the event and the time of a call, each part in its own field. */
  ghost predicate Records(e: Entry, c: Call) {
    && c.LogEvent?
    && e.timestamp == c.now && e.eventType == c.event.eventType && e.actor == c.event.actor
    && e.permissions == c.event.permissions && e.portfolio == c.event.portfolio
    && e.stateBefore == c.event.stateBefore && e.stateAfter == c.event.stateAfter
    && e.outcome == c.event.outcome && e.detail == c.event.detail
  }

  /** Logging stores one entry under the next id, chained to the head so far, and leaves the others alone. */
  lemma LogMeans(h: Hash, s: State, c: Call)
    requires c.LogEvent?
    ensures var t, id := Step(h, s, c), s.nextSeq + 1;
            && t.nextSeq == id && t.entryCount == s.entryCount + 1 && t.firstSeq == s.firstSeq
            && t.admin == s.admin && t.policy == s.policy
            && id in t.entries && t.entries == s.entries[id := t.entries[id]]
            && t.entries[id].id == id && Records(t.entries[id], c) && t.head == Some(t.entries[id].hash)
            && t.entries[id].hash
               == h((if id == 1 then CHAIN_ORIGIN else s.head.GetOr(CHAIN_ORIGIN))
                    + Payload(h, t.entries[id].(hash := CHAIN_ORIGIN)))
  {
    hide IndexEntry, Parts;
  }

  lemma StepEntries(h: Hash, s: State, c: Call, id: nat)
    requires id in Step(h, s, c).entries
    ensures (id in s.entries && Step(h, s, c).entries[id] == s.entries[id]) || Records(Step(h, s, c).entries[id], c)
  {
    hide MakeEntry, IndexEntry, PruneCount, Recompute;
    if c.LogEvent? {
      LogMeans(h, s, c);
    }
  }

  /** Every stored entry records, field by field, the call that logged it. */
  lemma {:induction false} EntryOrigin(h: Hash, calls: seq<Call>, id: nat) returns (k: nat)
    requires id in Run(h, calls).entries
    ensures k < |calls| && Records(Run(h, calls).entries[id], calls[k])
  {
    hide Step, Records;
    var n := |calls| - 1;
    StepEntries(h, Run(h, calls[..n]), calls[n], id);
    if Records(Run(h, calls).entries[id], calls[n]) {
      k := n;
    } else {
      k := EntryOrigin(h, calls[..n], id);
    }
  }

  /** The administrator is set once; the policy is changed by the administrator only; entries disappear only when
      the administrator prunes under some policy. */
  lemma StepAuthority(h: Hash, s: State, c: Call)
    ensures var t := Step(h, s, c);
            && (s.admin.Some? ==> t.admin == s.admin)
            && (t.admin != s.admin ==> c.Initialize? && t.admin == Some(c.admin))
            && (t.policy != s.policy ==> c.SetRetentionPolicy? && s.admin == Some(c.caller) && t.policy == c.policy)
            && ((exists id :: id in s.entries && id !in t.entries) ==>
                  && c.PruneOld? && s.admin == Some(c.caller)
                  && (s.policy.maxEntries > 0 || s.policy.maxAge > 0))
  {
    hide MakeEntry, IndexEntry, PruneCount, Recompute;
  }

  /** The administrator prunes once there is a policy that limits anything. */
  lemma PruneIff(h: Hash, s: State, caller: Address, now: u64)
    ensures Prune(h, s, caller, now).Ok?
            <==> s.admin == Some(caller) && (s.policy.maxEntries > 0 || s.policy.maxAge > 0)
  {
    hide PruneCount, Recompute;
  }

  // ---------------------------------------------------------------------------------------------
  // Queries
  // ---------------------------------------------------------------------------------------------

  /**
   In every run a stored entry is among the results of a query without limit if and only if each filter that is
   set holds of the entry's own field; a bound on the time is set when it is not zero.
   */
  lemma QueryIff(h: Hash, calls: seq<Call>, q: Query, id: nat)
    requires var s := Run(h, calls); s.firstSeq <= id <= s.nextSeq
    ensures var s := Run(h, calls);
            && id in s.entries
            && var e := s.entries[id];
               e in Matching(s.entries, q, s.firstSeq, s.nextSeq)
               <==> && (q.fromTs == 0 || q.fromTs <= e.timestamp)
                    && (q.toTs == 0 || e.timestamp <= q.toTs)
                    && (q.eventType == None || q.eventType == Some(e.eventType))
                    && (q.actor == None || q.actor == Some(e.actor))
                    && (q.portfolio == None || q.portfolio == Some(e.portfolio))
                    && (q.outcome == None || q.outcome == Some(e.outcome))
  {
    hide Run, Matching, Chained, Indexed;
    RunValid(h, calls);
    var s := Run(h, calls);
    var e, out := s.entries[id], Matching(s.entries, q, s.firstSeq, s.nextSeq);
    if e in out {
      var i :| 0 <= i < |out| && out[i] == e;
      MatchingSound(h, calls, q, i);
    }
    if q.Matches(e) {
      MatchingComplete(h, calls, q, id);
    }
  }

  // ---------------------------------------------------------------------------------------------
  // Indexes
  // ---------------------------------------------------------------------------------------------

  lemma {:induction false} ScanHas(entries: map<nat, Entry>, f: Facet, first: nat, last: nat, id: nat)
    requires 0 < first
    ensures id in Scan(entries, f, first, last) <==> first <= id <= last && id in entries && Has(entries[id], f)
    decreases last
  {
    if first <= last {
      ScanHas(entries, f, first, last - 1, id);
    }
  }

  /** The ids that the joined buckets of a facet list and that are not pruned. */
  function Listed(s: State, f: Facet, buckets: nat): seq<nat> {
    NotBelow(Joined(s.index, f, buckets), s.firstSeq)
  }

  /** The four indexes list a stored id under the event type, the actor, the portfolio and the outcome of its entry,
      and under no other. */
  lemma IndexMeans(h: Hash, calls: seq<Call>, buckets: nat, id: nat, t: EventType, a: Address, p: Symbol, o: Symbol)
    requires var s := Run(h, calls);
             && BUCKET_SIZE * buckets >= Max(s.nextSeq, |s.lost|) && |s.lost| < s.firstSeq
             && s.firstSeq <= id <= s.nextSeq
    ensures var s := Run(h, calls);
            && id in s.entries
            && (id in Listed(s, OfType(t), buckets) <==> s.entries[id].eventType == t)
            && (id in Listed(s, OfActor(a), buckets) <==> s.entries[id].actor == a)
            && (id in Listed(s, OfPortfolio(p), buckets) <==> s.entries[id].portfolio == p)
            && (id in Listed(s, OfOutcome(o), buckets) <==> s.entries[id].outcome == o)
  {
    hide Run, NotBelow, Joined, Scan, Chained, Indexed;
    var s := Run(h, calls);
    RunValid(h, calls);
    IndexRefinesScan(h, calls, buckets);
    assert Refines(s, OfType(t), buckets) && Refines(s, OfActor(a), buckets);
    assert Refines(s, OfPortfolio(p), buckets) && Refines(s, OfOutcome(o), buckets);
    ScanHas(s.entries, OfType(t), s.firstSeq, s.nextSeq, id);
    ScanHas(s.entries, OfActor(a), s.firstSeq, s.nextSeq, id);
    ScanHas(s.entries, OfPortfolio(p), s.firstSeq, s.nextSeq, id);
    ScanHas(s.entries, OfOutcome(o), s.firstSeq, s.nextSeq, id);
  }

  // ---------------------------------------------------------------------------------------------
  // Payload bytes
  // ---------------------------------------------------------------------------------------------

  /** What is hashed of an entry, part by part. */
  lemma PayloadLayout(h: Hash, e: Entry)
    ensures Payload(h, e)
            == BigEndian(e.id, 8) + BigEndian(e.timestamp, 8) + BigEndian(e.eventType, 4)
               + BigEndian(e.permissions, 4) + h(TextBytes(e.actor)) + h(TextBytes(e.portfolio))
               + h(TextBytes(e.outcome)) + h(TextBytes(e.detail)) + h(SnapshotBytes(e.stateBefore))
               + h(SnapshotBytes(e.stateAfter))
  {
    hide BigEndian, TextBytes, SnapshotBytes;
    PartsTo4(h, e);
    PartsTo7(h, e);
  }

  lemma PartsTo4(h: Hash, e: Entry)
    ensures Parts(h, e, 4) == BigEndian(e.id, 8) + BigEndian(e.timestamp, 8) + BigEndian(e.eventType, 4)
                              + BigEndian(e.permissions, 4)
  {
    hide BigEndian, TextBytes, SnapshotBytes;
    assert Parts(h, e, 1) == Parts(h, e, 0) + Part(h, e, 0) == Part(h, e, 0);
    assert Parts(h, e, 3) == Parts(h, e, 2) + Part(h, e, 2);
  }

  lemma PartsTo7(h: Hash, e: Entry)
    ensures Parts(h, e, 7) == Parts(h, e, 4) + h(TextBytes(e.actor)) + h(TextBytes(e.portfolio))
                              + h(TextBytes(e.outcome))
    ensures Parts(h, e, 10) == Parts(h, e, 7) + h(TextBytes(e.detail)) + h(SnapshotBytes(e.stateBefore))
                               + h(SnapshotBytes(e.stateAfter))
  {
    hide BigEndian, TextBytes, SnapshotBytes;
    assert Parts(h, e, 5) == Parts(h, e, 4) + Part(h, e, 4);
    assert Parts(h, e, 6) == Parts(h, e, 5) + Part(h, e, 5);
    assert Parts(h, e, 8) == Parts(h, e, 7) + Part(h, e, 7);
    assert Parts(h, e, 9) == Parts(h, e, 8) + Part(h, e, 8);
  }

  ghost predicate Ascii(s: string) {
    forall i :: 0 <= i < |s| ==> s[i] as int < 128
  }

  /** Texts have their characters for bytes, so different texts have different bytes. */
  lemma TextInjective(a: string, b: string)
    requires Ascii(a) && Ascii(b)
    ensures TextBytes(a) == TextBytes(b) <==> a == b
    ensures |TextBytes(a)| == |a| && forall i :: 0 <= i < |a| ==> TextBytes(a)[i] == a[i] as int
  {
    if TextBytes(a) == TextBytes(b) {
      forall i | 0 <= i < |a|
        ensures a[i] == b[i]
      {
        assert TextBytes(a)[i] == TextBytes(b)[i];
      }
    }
  }

  /** Two inputs of the hash that it does not tell apart. */
  ghost predicate Collides(h: Hash, a: seq<byte>, b: seq<byte>) {
    a != b && h(a) == h(b)
  }

  /** Entries with one payload name the same actor, portfolio, outcome and detail, or two of those names collide. */
  lemma PayloadNames(h: Hash, e: Entry, f: Entry)
    requires e.id <= U64_MAX && f.id <= U64_MAX && Payload(h, e) == Payload(h, f)
    requires Ascii(e.actor) && Ascii(e.portfolio) && Ascii(e.outcome) && Ascii(e.detail)
    requires Ascii(f.actor) && Ascii(f.portfolio) && Ascii(f.outcome) && Ascii(f.detail)
    ensures e.actor == f.actor || Collides(h, TextBytes(e.actor), TextBytes(f.actor))
    ensures e.portfolio == f.portfolio || Collides(h, TextBytes(e.portfolio), TextBytes(f.portfolio))
    ensures e.outcome == f.outcome || Collides(h, TextBytes(e.outcome), TextBytes(f.outcome))
    ensures e.detail == f.detail || Collides(h, TextBytes(e.detail), TextBytes(f.detail))
  {
    hide Payload, TextBytes;
    PayloadDetermines(h, e, f);
    TextInjective(e.actor, f.actor);
    TextInjective(e.portfolio, f.portfolio);
    TextInjective(e.outcome, f.outcome);
    TextInjective(e.detail, f.detail);
  }

  /** The keys are ASCII text and the values 128-bit numbers. */
  ghost predicate Proper(fs: seq<Field>) {
    forall i :: 0 <= i < |fs| ==> Ascii(fs[i].key) && -TWO_127 <= fs[i].value < TWO_127
  }

  /** The keys of two lists of fields have the same lengths. */
  ghost predicate SameLengths(fs: seq<Field>, gs: seq<Field>) {
    |fs| == |gs| && forall i :: 0 <= i < |fs| ==> |fs[i].key| == |gs[i].key|
  }

  lemma FieldInjective(f: Field, g: Field)
    requires Proper([f]) && Proper([g]) && |f.key| == |g.key|
    requires FieldBytes(f) == FieldBytes(g)
    ensures f == g
  {
    hide BigEndian, TextBytes;
    assert Ascii([f][0].key) && Ascii([g][0].key);
    assert -TWO_127 <= [f][0].value < TWO_127 && -TWO_127 <= [g][0].value < TWO_127;
    TextInjective(f.key, g.key);
    TextInjective(g.key, f.key);
    SplitStart(TextBytes(f.key), BigEndian(f.value % (2 * TWO_127), 16),
               TextBytes(g.key), BigEndian(g.value % (2 * TWO_127), 16));
    Capacities();
    BigEndianInjective(f.value % (2 * TWO_127), g.value % (2 * TWO_127), 16);
  }

  function FieldBytes(f: Field): seq<byte> {
    TextBytes(f.key) + BigEndian(f.value % (2 * TWO_127), 16)
  }

  lemma FieldsSnoc(fs: seq<Field>)
    requires fs != []
    ensures FieldsBytes(fs) == FieldsBytes(fs[..|fs| - 1]) + FieldBytes(fs[|fs| - 1])
    ensures |FieldBytes(fs[|fs| - 1])| == |fs[|fs| - 1].key| + 16
  {
    hide BigEndian, TextBytes;
    var f := fs[|fs| - 1];
    TextLength(f.key);
    Regroup(FieldsBytes(fs[..|fs| - 1]), TextBytes(f.key), BigEndian(f.value % (2 * TWO_127), 16));
  }

  lemma Regroup(a: seq<byte>, b: seq<byte>, c: seq<byte>)
    ensures a + b + c == a + (b + c)
  {
  }

  lemma TextLength(s: string)
    ensures |TextBytes(s)| == |s|
  {
  }

  /** The bytes of fields tell their values and their keys, as long as they tell where each key ends. */
  lemma {:induction false} FieldsInjective(fs: seq<Field>, gs: seq<Field>)
    requires Proper(fs) && Proper(gs) && SameLengths(fs, gs) && FieldsBytes(fs) == FieldsBytes(gs)
    ensures fs == gs
  {
    hide FieldsBytes, FieldBytes;
    if fs != [] {
      var n := |fs| - 1;
      FieldsSnoc(fs);
      FieldsSnoc(gs);
      SplitEnd(FieldsBytes(fs[..n]), FieldBytes(fs[n]), FieldsBytes(gs[..n]), FieldBytes(gs[n]));
      FieldInjective(fs[n], gs[n]);
      FieldsInjective(fs[..n], gs[..n]);
      assert fs == fs[..n] + [fs[n]] && gs == gs[..n] + [gs[n]];
    }
  }

  /** Snapshots with the same bytes are the same, as long as their keys have the same lengths. */
  lemma SnapshotInjective(fs: seq<Field>, gs: seq<Field>)
    requires Proper(fs) && Proper(gs) && SameLengths(fs, gs) && SnapshotBytes(fs) == SnapshotBytes(gs)
    ensures fs == gs
  {
    hide FieldsBytes;
    SplitStart(BigEndian(|fs|, 4), FieldsBytes(fs), BigEndian(|gs|, 4), FieldsBytes(gs));
    FieldsInjective(fs, gs);
  }

  /** The number whose n bytes are all 98, the letter b. */
  function Bs(n: nat): nat {
    if n == 0 then 0 else 256 * Bs(n - 1) + 98
  }

  lemma {:induction false} BsBytes(n: nat)
    ensures BigEndian(Bs(n), n) == seq(n, _ => 98)
  {
    if n > 0 {
      BsBytes(n - 1);
    }
  }

  lemma TwoFields(f: Field, g: Field)
    ensures FieldsBytes([f, g]) == FieldBytes(f) + FieldBytes(g)
  {
    hide FieldBytes;
    assert [f, g][..1] == [f] && [f][..0] == [];
    FieldsSnoc([f, g]);
    FieldsSnoc([f]);
  }

  lemma Keys()
    ensures TextBytes("a") == [97] && TextBytes("bc") == [98, 99]
    ensures TextBytes("ab") == [97, 98] && TextBytes("c") == [99]
  {
  }

  lemma SameBytes(n: nat, tail: seq<byte>)
    ensures [97] + seq(n, _ => 98) + ([98, 99] + tail) == [97, 98] + seq(n, _ => 98) + ([99] + tail)
  {
  }

  /** Otherwise they need not be: a letter of a key can stand for a byte of a value. */
  lemma SnapshotExample(x: int)
    requires -TWO_127 <= x < TWO_127
    ensures var fs, gs := [Field("a", Bs(16)), Field("bc", x)], [Field("ab", Bs(16)), Field("c", x)];
            fs[0].key != gs[0].key && Proper(fs) && Proper(gs) && SnapshotBytes(fs) == SnapshotBytes(gs)
  {
    hide FieldsBytes, BigEndian, TextBytes, Bs;
    BsRange();
    BsBytes(16);
    Keys();
    TwoFields(Field("a", Bs(16)), Field("bc", x));
    TwoFields(Field("ab", Bs(16)), Field("c", x));
    SameBytes(16, BigEndian(x % (2 * TWO_127), 16));
  }

  lemma BsRange()
    ensures Bs(16) < TWO_127 && Bs(16) % (2 * TWO_127) == Bs(16)
  {
    assert Bs(4) == 256 * Bs(3) + 98 == 1650614882;
    assert Bs(8) == 1650614882 * 0x1_0000_0000 + 1650614882;
    assert Bs(12) == Bs(8) * 0x1_0000_0000 + 1650614882;
    assert Bs(16) == Bs(12) * 0x1_0000_0000 + 1650614882;
  }
}
