/** The audit log's stored entries and the entry points that read and update them. */
module AuditContract {
  import opened Wrappers
  import opened Host
  import opened Bytes
  import opened HashChain
  import opened AuditLog
  import opened AuditLaws

  class AuditContract {
    const sha256: Hash
    var admin: Option<Address>
    var policy: Policy
    var firstSeq: nat
    var nextSeq: nat
    var entryCount: nat
    var head: Option<Digest>
    var entries: map<nat, Entry>
    var index: map<(Facet, nat), seq<nat>>
    ghost var history: seq<Entry>
    ghost var lost: seq<Entry>

    ghost function View(): State
      reads this
    {
      State(admin, policy, firstSeq, nextSeq, entryCount, head, entries, index, history, lost)
    }

    ghost predicate Valid()
      reads this
    {
      1 <= firstSeq <= nextSeq + 1
    }

    constructor (sha256: Hash)
      ensures Valid() && View() == EMPTY && this.sha256 == sha256
    {
      this.sha256 := sha256;
      admin, policy, firstSeq, nextSeq, entryCount, head := None, Policy(0, 0), 1, 0, 0, None;
      entries, index, history, lost := map[], map[], [], [];
    }

    method Initialize(now: u64, who: Address) returns (r: Result<(), AuditError>)
      requires Valid()
      modifies this
      ensures Valid()
      ensures r == if old(admin).Some? then Err(AlreadyInitialized) else Ok(())
      ensures View() == Step(sha256, old(View()), Call.Initialize(now, who))
    {
      if admin.Some? {
        return Err(AlreadyInitialized);
      }
      admin := Some(who);
      nextSeq, entryCount, firstSeq := 0, 0, 1;
      history, lost := [], history;
      return Ok(());
    }

    method SetRetentionPolicy(now: u64, caller: Address, p: Policy) returns (r: Result<(), AuditError>)
      requires Valid()
      modifies this
      ensures Valid()
      ensures r == if old(admin).None? then Err(NotInitialized)
                   else if old(admin) != Some(caller) then Err(Unauthorized) else Ok(())
      ensures View() == Step(sha256, old(View()), Call.SetRetentionPolicy(now, caller, p))
    {
      if admin.None? {
        return Err(NotInitialized);
      }
      if caller != admin.value {
        return Err(Unauthorized);
      }
      policy := p;
      return Ok(());
    }

    method AppendToIndex(f: Facet, id: nat)
      requires id > 0
      modifies this`index
      ensures index == AppendIndex(old(index), f, id)
    {
      var bucket := if (f, Bucket(id)) in index then index[(f, Bucket(id))] else [];
      bucket := bucket + [id];
      index := index[(f, Bucket(id)) := bucket];
    }

    method AddToIndexes(e: Entry)
      requires e.id > 0
      modifies this`index
      ensures index == IndexEntry(old(index), e)
    {
      AppendToIndex(OfType(e.eventType), e.id);
      AppendToIndex(OfActor(e.actor), e.id);
      AppendToIndex(OfPortfolio(e.portfolio), e.id);
      AppendToIndex(OfOutcome(e.outcome), e.id);
    }

    method LogEvent(now: u64, v: Event) returns (id: nat)
      requires Valid()
      modifies this
      ensures Valid()
      ensures View() == Log(sha256, old(View()), now, v) && id == nextSeq
    {
      hide IndexEntry, Payload, ChainHash;
      var prev := if head.Some? then head.value else CHAIN_ORIGIN;
      id := nextSeq + 1;
      var entry := MakeEntry(sha256, prev, id, now, v);
      ghost var logged := Log(sha256, View(), now, v);
      AddToIndexes(entry);
      assert index == logged.index;
      entries, nextSeq, head := entries[id := entry], id, Some(entry.hash);
      entryCount, history := entryCount + 1, history + [entry];
    }

    /** The first `limit` matches of the full scan. */
    method RunQuery(q: Query) returns (out: seq<Entry>)
      requires Valid()
      ensures var all := Matching(entries, q, firstSeq, nextSeq);
              out == all[..Min(if q.limit == 0 then 50 else q.limit, |all|)]
    {
      out := [];
      var id := firstSeq;
      var limit := q.Limit();
      while id <= nextSeq && |out| < limit
        invariant firstSeq <= id <= nextSeq + 1
        invariant |out| <= limit
        invariant out == Matching(entries, q, firstSeq, id - 1)
      {
        if id in entries {
          var entry := entries[id];
          if q.Matches(entry) {
            out := out + [entry];
          }
        }
        id := id + 1;
      }
      MatchingPrefix(entries, q, firstSeq, id - 1, nextSeq);
    }

    method VerifyIntegrity(expected: Digest) returns (ok: bool)
      ensures ok == (head == Some(expected))
    {
      ok := head.Some? && head.value == expected;
    }

    /** Recompute the head from `first` on; nothing when an entry is missing. */
    method Replay(first: nat) returns (r: Option<Digest>)
      requires 1 <= first <= nextSeq + 1
      ensures r.Some? <==> forall id :: first <= id <= nextSeq ==> id in entries
      ensures r.Some? ==> r.value == Recompute(sha256, entries, first, nextSeq)
    {
      hide Payload, ChainHash;
      var prev := CHAIN_ORIGIN;
      var id := first;
      while id <= nextSeq
        invariant first <= id <= nextSeq + 1
        invariant forall k :: first <= k < id ==> k in entries
        invariant prev == Recompute(sha256, entries, first, id - 1)
      {
        if id !in entries {
          return None;
        }
        prev := ChainHash(sha256, if id == 1 then CHAIN_ORIGIN else prev, Payload(sha256, entries[id]));
        id := id + 1;
      }
      return Some(prev);
    }

    method FullRecomputeIntegrity() returns (ok: bool)
      requires Valid()
      ensures ok <==> Intact(sha256, View())
    {
      var prev := Replay(firstSeq);
      if prev.None? {
        return false;
      }
      ok := (if head.Some? then head.value else prev.value) == prev.value;
    }

    method CountOld(now: u64) returns (aged: nat)
      requires Valid()
      ensures aged == AgeCount(View(), now)
    {
      aged := 0;
      if policy.maxAge > 0 {
        var cutoff := Cutoff(policy, now);
        var id := firstSeq;
        while id <= nextSeq
          invariant id == firstSeq + aged <= nextSeq + 1
          invariant OldPrefix(entries, firstSeq, nextSeq, cutoff) == aged + OldPrefix(entries, id, nextSeq, cutoff)
        {
          if id !in entries || entries[id].timestamp >= cutoff {
            break;
          }
          aged := aged + 1;
          id := id + 1;
        }
      }
    }

    method RemoveBelow(first: nat)
      requires firstSeq <= first
      modifies this`entries
      ensures entries == Without(old(entries), firstSeq, first)
    {
      var id := firstSeq;
      while id < first
        invariant firstSeq <= id <= first
        invariant entries == Without(old(entries), firstSeq, id)
      {
        entries := entries - {id};
        id := id + 1;
      }
    }

    method RecomputeHead(first: nat) returns (prev: Digest)
      requires 1 <= first <= nextSeq + 1
      ensures prev == Recompute(sha256, entries, first, nextSeq)
    {
      prev := CHAIN_ORIGIN;
      var id := first;
      while id <= nextSeq
        invariant first <= id <= nextSeq + 1
        invariant prev == Recompute(sha256, entries, first, id - 1)
      {
        if id in entries {
          prev := ChainHash(sha256, if id == 1 then CHAIN_ORIGIN else prev, Payload(sha256, entries[id]));
        }
        id := id + 1;
      }
    }

    method PruneOld(now: u64, caller: Address) returns (r: Result<nat, AuditError>)
      requires Valid()
      modifies this
      ensures Valid()
      ensures r == Prune(sha256, old(View()), caller, now).Map((p: (State, nat)) => p.1)
      ensures View() == Step(sha256, old(View()), Call.PruneOld(now, caller))
    {
      hide Recompute, Without, OldPrefix;
      if admin.None? {
        return Err(NotInitialized);
      }
      if caller != admin.value {
        return Err(Unauthorized);
      }
      if policy.Unbounded() {
        return Err(NoRetentionPolicy);
      }
      PruneCountBounds(View(), now);
      var total := nextSeq + 1 - firstSeq;
      var count := CountOld(now);
      var first := firstSeq + count;
      if policy.maxEntries > 0 {
        var remaining := total - count;
        while remaining > policy.maxEntries
          invariant first == firstSeq + count && remaining == total - count
          invariant count <= PruneCount(View(), now)
          invariant remaining > policy.maxEntries ==> count + (remaining - policy.maxEntries) == PruneCount(View(), now)
          invariant remaining <= policy.maxEntries ==> count == PruneCount(View(), now)
        {
          first, count, remaining := first + 1, count + 1, remaining - 1;
        }
      }
      RemoveBelow(first);
      firstSeq := first;
      var prev := RecomputeHead(first);
      head := Some(prev);
      return Ok(count);
    }
  }

  /** Cutting the scan off earlier yields a prefix of its results. */
  lemma {:induction false} MatchingPrefix(entries: map<nat, Entry>, q: Query, first: nat, k: nat, last: nat)
    requires k <= last
    ensures Matching(entries, q, first, k) <= Matching(entries, q, first, last)
    decreases last
  {
    if k < last {
      MatchingPrefix(entries, q, first, k, last - 1);
    }
  }
}
