/** The emergency contract's fixed-window rate limiter and its bounded incident log. */
module RateLimit {
  import opened Wrappers
  import opened Host
  import opened Bounded

  const MAX_INCIDENT_LOG := 200

  datatype Config = Config(operation: Symbol, maxCalls: nat, window: u64)
  datatype Counter = Counter(count: nat, windowStart: u64)

  datatype Severity = Low | Medium | High | Critical
  datatype ActionType = RateLimitUpdated | OperationBlocked
  datatype Incident = Incident(
    timestamp: u64,
    actionType: ActionType,
    severity: Severity,
    initiator: Address,
    description: Symbol,
    data: int)

  datatype Error = InvalidConfiguration | NotAuthorizedByHost

  predicate ValidConfig(c: Config) {
    c.maxCalls != 0 && c.window != 0
  }

  /** The first configuration of an operation among the first n. */
  function Lookup(limits: seq<Config>, n: nat, operation: Symbol): Option<nat>
    requires n <= |limits|
  {
    if n == 0 then None
    else
      var before := Lookup(limits, n - 1, operation);
      if before.Some? then before
      else if limits[n - 1].operation == operation then Some(n - 1) else None
  }

  function ConfigOf(limits: seq<Config>, operation: Symbol): Option<Config> {
    var i := Lookup(limits, |limits|, operation);
    if i.Some? && i.value < |limits| then Some(limits[i.value]) else None
  }

  /** Replace an operation's configuration, or add it. */
  function Put(limits: seq<Config>, c: Config): seq<Config> {
    var i := Lookup(limits, |limits|, c.operation);
    if i.Some? && i.value < |limits| then limits[i.value := c] else limits + [c]
  }

  /** The counter a call sees: a new one when the window has passed. The end of the window wraps around. */
  function Current(k: Counter, c: Config, now: u64): Counter {
    if now >= WrappingAdd(k.windowStart, c.window) then Counter(0, now) else k
  }

  /** The stored counter after a call, and whether the call is allowed. A refused call stores nothing. */
  function Check(k: Counter, c: Config, now: u64): (Counter, bool) {
    var cur := Current(k, c, now);
    if cur.count >= c.maxCalls then (k, false) else (cur.(count := cur.count + 1), true)
  }

  /** A call as the limiter saw it: when, whether allowed, and the start of the window it fell in. */
  datatype Entry = Entry(at: u64, allowed: bool, window: u64)

  datatype History = History(counter: Counter, log: seq<Entry>)

  const START := Counter(0, 0)

  /** Calls of one operation at the given times, under one configuration. */
  function Run(c: Config, times: seq<u64>): History {
    if times == [] then History(START, [])
    else
      var before := Run(c, times[..|times| - 1]);
      var now := times[|times| - 1];
      var (after, allowed) := Check(before.counter, c, now);
      History(after, before.log + [Entry(now, allowed, Current(before.counter, c, now).windowStart)])
  }
}

/** What the limiter guarantees over any interval and any window. */
module RateLimitLaws {
  import opened Wrappers
  import opened Host
  import opened RateLimit

  /** How many allowed calls fall in [from, to). */
  function AllowedIn(log: seq<Entry>, from: int, to: int): nat {
    if log == [] then 0
    else
      var e := log[|log| - 1];
      AllowedIn(log[..|log| - 1], from, to) + if e.allowed && from <= e.at < to then 1 else 0
  }

  /** How many allowed calls belong to the window that started at `window`. */
  function AllowedInWindow(log: seq<Entry>, window: u64): nat {
    if log == [] then 0
    else
      var e := log[|log| - 1];
      AllowedInWindow(log[..|log| - 1], window) + if e.allowed && e.window == window then 1 else 0
  }

  /** Ledger time never decreases. */
  ghost predicate TimeOrdered(times: seq<u64>) {
    forall i, j :: 0 <= i < j < |times| ==> times[i] <= times[j]
  }

  /** The end of the stored window fits a timestamp. */
  predicate Ends(k: Counter, c: Config) {
    k.windowStart + c.window <= U64_MAX
  }

  lemma AllowedSnoc(log: seq<Entry>, e: Entry, from: int, to: int)
    ensures AllowedIn(log + [e], from, to) == AllowedIn(log, from, to) + if e.allowed && from <= e.at < to then 1 else 0
  {
    assert (log + [e])[..|log|] == log;
  }

  lemma WindowSnoc(log: seq<Entry>, e: Entry, window: u64)
    ensures AllowedInWindow(log + [e], window)
            == AllowedInWindow(log, window) + if e.allowed && e.window == window then 1 else 0
  {
    assert (log + [e])[..|log|] == log;
  }

  /** No call is later than the largest timestamp. */
  lemma {:induction false} AllowedSince(log: seq<Entry>, from: int, to: int)
    ensures AllowedIn(log, from, to) <= AllowedIn(log, from, U64_MAX + 1)
  {
    if log != [] {
      AllowedSince(log[..|log| - 1], from, to);
    }
  }

  lemma {:induction false} NothingAfter(log: seq<Entry>, from: int, to: int)
    requires forall i :: 0 <= i < |log| ==> log[i].at < from
    ensures AllowedIn(log, from, to) == 0
  {
    if log != [] {
      NothingAfter(log[..|log| - 1], from, to);
    }
  }

  lemma {:induction false} NothingLater(log: seq<Entry>, window: u64)
    requires forall i :: 0 <= i < |log| ==> log[i].window < window
    ensures AllowedInWindow(log, window) == 0
  {
    if log != [] {
      NothingLater(log[..|log| - 1], window);
    }
  }

  /** The counter's window started no later than now, and nothing was logged after now. */
  ghost predicate Sound(h: History, c: Config, now: int) {
    && 0 <= h.counter.windowStart <= Max(0, now) && h.counter.count <= c.maxCalls
    && forall i :: 0 <= i < |h.log| ==> h.log[i].at <= now && h.log[i].window <= h.counter.windowStart
  }

  /** The state of the limiter after one more call. */
  function After(h: History, c: Config, now: u64): History {
    var (k, allowed) := Check(h.counter, c, now);
    History(k, h.log + [Entry(now, allowed, Current(h.counter, c, now).windowStart)])
  }

  /** Windows only ever start later, so if the last one ends, all before it did. */
  lemma StepSound(h: History, c: Config, before: int, now: u64)
    requires ValidConfig(c) && Sound(h, c, before) && before <= now
    ensures Sound(After(h, c, now), c, now)
    ensures h.counter.windowStart <= After(h, c, now).counter.windowStart
  {
  }

  lemma RunAfter(c: Config, times: seq<u64>)
    requires times != []
    ensures Run(c, times) == After(Run(c, times[..|times| - 1]), c, times[|times| - 1])
  {
  }

  function LastOf(times: seq<u64>): int {
    if times == [] then -1 else times[|times| - 1]
  }

  lemma {:induction false} RunSound(c: Config, times: seq<u64>)
    requires ValidConfig(c) && TimeOrdered(times)
    ensures Sound(Run(c, times), c, LastOf(times))
    ensures times != [] ==>
              Run(c, times[..|times| - 1]).counter.windowStart <= Run(c, times).counter.windowStart
  {
    if times != [] {
      var init := times[..|times| - 1];
      RunSound(c, init);
      StepSound(Run(c, init), c, LastOf(init), times[|times| - 1]);
    }
  }

  /** The bound by where the interval [from, from + window) lies relative to the current window. */
  ghost predicate Bounded(h: History, c: Config, from: int) {
    var start, count := h.counter.windowStart, h.counter.count;
    var since := AllowedIn(h.log, from, U64_MAX + 1);
    && (start < from ==> since <= count)
    && (start - c.window < from <= start ==> since <= c.maxCalls + count)
    && AllowedIn(h.log, from, from + c.window) <= 2 * c.maxCalls
  }

  lemma StepBounded(h: History, c: Config, before: int, now: u64, from: int)
    requires ValidConfig(c) && Sound(h, c, before) && before <= now
    requires Ends(After(h, c, now).counter, c) && Bounded(h, c, from)
    ensures Bounded(After(h, c, now), c, from)
  {
    StepSound(h, c, before, now);
    assert Ends(h.counter, c);
    var e := Entry(now, Check(h.counter, c, now).1, Current(h.counter, c, now).windowStart);
    AllowedSnoc(h.log, e, from, U64_MAX + 1);
    AllowedSnoc(h.log, e, from, from + c.window);
    AllowedSince(h.log, from, from + c.window);
    if now < from {
      NothingAfter(h.log, from, U64_MAX + 1);
      NothingAfter(h.log, from, from + c.window);
    }
  }

  lemma {:induction false} RunBounded(c: Config, times: seq<u64>, from: int)
    requires ValidConfig(c) && TimeOrdered(times) && Ends(Run(c, times).counter, c)
    ensures Bounded(Run(c, times), c, from)
  {
    if times != [] {
      var init := times[..|times| - 1];
      RunSound(c, init);
      RunSound(c, times);
      RunAfter(c, times);
      hide Run, After, Bounded;
      RunBounded(c, init, from);
      StepBounded(Run(c, init), c, LastOf(init), times[|times| - 1], from);
    }
  }

  /** What is allowed in an interval as long as the window that starts at `from`. */
  function Allowed(c: Config, times: seq<u64>, from: int): nat {
    AllowedIn(Run(c, times).log, from, from + c.window)
  }

  /** A late call does not count in an earlier interval. */
  lemma DropLate(c: Config, times: seq<u64>, from: int)
    requires times != [] && LastOf(times) >= from + c.window
    ensures Allowed(c, times, from) == Allowed(c, times[..|times| - 1], from)
  {
    hide AllowedIn;
    RunAfter(c, times);
    var h, now := Run(c, times[..|times| - 1]), times[|times| - 1];
    var e := Entry(now, Check(h.counter, c, now).1, Current(h.counter, c, now).windowStart);
    AllowedSnoc(h.log, e, from, from + c.window);
  }

  /** Before the first window, from 0, is over, it is the stored one. */
  lemma {:induction false} FirstWindowLasts(c: Config, times: seq<u64>)
    requires ValidConfig(c) && TimeOrdered(times) && LastOf(times) < c.window
    ensures Run(c, times).counter.windowStart == 0
  {
    if times != [] {
      FirstWindowLasts(c, times[..|times| - 1]);
    }
  }

  /** Every call before the end of the interval falls in a window that ends. */
  predicate Bounding(c: Config, from: int) {
    from <= 0 || from > U64_MAX || from + 2 * c.window - 1 <= U64_MAX
  }

  /** Whatever the calls, an interval as long as the window holds at most twice the limit, when the windows
      that can start in it end. */
  lemma {:induction false} AtMostTwice(c: Config, times: seq<u64>, from: int)
    requires ValidConfig(c) && TimeOrdered(times) && Bounding(c, from)
    ensures Allowed(c, times, from) <= 2 * c.maxCalls
  {
    if from > U64_MAX {
      NothingAfter(Run(c, times).log, from, from + c.window);
    } else if times == [] {
    } else if LastOf(times) >= from + c.window {
      DropLate(c, times, from);
      AtMostTwice(c, times[..|times| - 1], from);
    } else {
      RunSound(c, times);
      if from <= 0 {
        FirstWindowLasts(c, times);
      }
      RunBounded(c, times, from);
    }
  }

  /** A stored window that ends has counted what it allowed, and `window`, if it ends, allowed no more than the
      limit. */
  ghost predicate Counted(h: History, c: Config, window: u64) {
    && (Ends(h.counter, c) ==> AllowedInWindow(h.log, h.counter.windowStart) == h.counter.count)
    && (window + c.window <= U64_MAX ==> AllowedInWindow(h.log, window) <= c.maxCalls)
  }

  lemma StepCounted(h: History, c: Config, before: int, now: u64, window: u64)
    requires ValidConfig(c) && Sound(h, c, before) && before <= now && Counted(h, c, window)
    ensures Counted(After(h, c, now), c, window)
  {
    var (after, allowed) := Check(h.counter, c, now);
    var e := Entry(now, allowed, Current(h.counter, c, now).windowStart);
    WindowSnoc(h.log, e, window);
    WindowSnoc(h.log, e, after.windowStart);
    if e.window != h.counter.windowStart {
      NothingLater(h.log, e.window);
    }
  }

  /** In every run each window that ends allows at most the limit, and the counter of such a window is the number
      it allowed. */
  lemma {:induction false} PerWindow(c: Config, times: seq<u64>, window: u64)
    requires ValidConfig(c) && TimeOrdered(times)
    ensures Counted(Run(c, times), c, window)
  {
    if times != [] {
      var init := times[..|times| - 1];
      RunSound(c, init);
      RunAfter(c, times);
      hide Run, After, Counted;
      PerWindow(c, init, window);
      StepCounted(Run(c, init), c, LastOf(init), times[|times| - 1], window);
    }
  }

  /** In every run a call is refused exactly when the stored window ends, is still open, and has allowed
      its limit: a window whose end does not fit a timestamp refuses nothing. */
  lemma RefusedIff(c: Config, times: seq<u64>, now: u64)
    requires ValidConfig(c) && TimeOrdered(times) && LastOf(times) <= now
    ensures var h := Run(c, times);
            Check(h.counter, c, now).1 == false
            <==> && Ends(h.counter, c) && now < h.counter.windowStart + c.window
                 && AllowedInWindow(h.log, h.counter.windowStart) == c.maxCalls
  {
    hide Run, AllowedInWindow, TimeOrdered;
    RunSound(c, times);
    PerWindow(c, times, 0);
  }

  // ---------------------------------------------------------------------------------------------
  // The bound is attained
  // ---------------------------------------------------------------------------------------------

  function Repeat(t: u64, n: nat): (r: seq<u64>)
    ensures |r| == n
    ensures forall i :: 0 <= i < n ==> r[i] == t
  {
    if n == 0 then [] else Repeat(t, n - 1) + [t]
  }

  lemma RunSnoc(c: Config, times: seq<u64>, t: u64)
    ensures Run(c, times + [t]) == After(Run(c, times), c, t)
  {
    assert (times + [t])[..|times|] == times;
  }

  /** Calls at one time that find their window over or with room left are all allowed. */
  lemma {:induction false} BurstAllowed(c: Config, times: seq<u64>, t: u64, n: nat, from: int)
    requires ValidConfig(c) && n >= 1 && from <= t < from + c.window
    requires var cur := Current(Run(c, times).counter, c, t);
             && cur.windowStart <= t && cur.count + n <= c.maxCalls
             && (cur.windowStart + c.window <= U64_MAX ==> t < cur.windowStart + c.window)
    ensures var cur, after := Current(Run(c, times).counter, c, t), Run(c, times + Repeat(t, n)).counter;
            && (Ends(cur, c) ==> after == cur.(count := cur.count + n))
            && (!Ends(cur, c) ==> after.windowStart <= t && !Ends(after, c))
    ensures Allowed(c, times + Repeat(t, n), from) == Allowed(c, times, from) + n
  {
    hide Run, AllowedIn;
    var before := times + Repeat(t, n - 1);
    assert times + Repeat(t, n) == before + [t];
    if n > 1 {
      BurstAllowed(c, times, t, n - 1, from);
    } else {
      assert before == times;
    }
    RunSnoc(c, before, t);
    var h := Run(c, before);
    AllowedSnoc(h.log, Entry(t, true, Current(h.counter, c, t).windowStart), from, from + c.window);
  }

  /** Calls at one time, once the end of the window wraps around, are allowed without limit. */
  lemma {:induction false} WrappedAllowed(c: Config, times: seq<u64>, t: u64, n: nat, from: int)
    requires ValidConfig(c) && n >= 1 && from <= t < from + c.window && t + c.window > U64_MAX
    requires Current(Run(c, times).counter, c, t) == Counter(0, t)
    ensures Current(Run(c, times + Repeat(t, n)).counter, c, t) == Counter(0, t)
    ensures Allowed(c, times + Repeat(t, n), from) == Allowed(c, times, from) + n
  {
    hide Run, AllowedIn;
    var before := times + Repeat(t, n - 1);
    assert times + Repeat(t, n) == before + [t];
    if n > 1 {
      WrappedAllowed(c, times, t, n - 1, from);
    } else {
      assert before == times;
    }
    RunSnoc(c, before, t);
    AllowedSnoc(Run(c, before).log, Entry(t, true, t), from, from + c.window);
  }

  lemma NothingYet(c: Config, from: int)
    ensures Run(c, []).counter == START && Allowed(c, [], from) == 0
  {
  }

  lemma SameTimeOrdered(t: u64, n: nat)
    ensures TimeOrdered(Repeat(t, n))
  {
  }

  /** As many calls as one likes at a time that is past the first window but too late for another one. */
  lemma WrappedBurst(c: Config, t: u64, n: nat, from: int)
    requires ValidConfig(c) && n >= 1 && from <= t < from + c.window && c.window <= t && t + c.window > U64_MAX
    ensures TimeOrdered(Repeat(t, n)) && Allowed(c, Repeat(t, n), from) == n
  {
    hide Run, AllowedIn, TimeOrdered, Repeat;
    SameTimeOrdered(t, n);
    NothingYet(c, from);
    assert [] + Repeat(t, n) == Repeat(t, n);
    WrappedAllowed(c, [], t, n, from);
  }

  /** Every run of calls in order keeps the bound on an interval. */
  ghost predicate AlwaysBounded(c: Config, from: int) {
    forall times :: TimeOrdered(times) ==> Allowed(c, times, from) <= 2 * c.maxCalls
  }

  /**
   The limiter bounds an interval as long as its window by twice its limit, whatever the calls, if and
   only if every window that can start in the interval ends. Otherwise there is no bound at all.
   */
  lemma BoundedIff(c: Config, from: int)
    requires ValidConfig(c)
    ensures AlwaysBounded(c, from) <==> Bounding(c, from)
  {
    if Bounding(c, from) {
      forall times | TimeOrdered(times)
        ensures Allowed(c, times, from) <= 2 * c.maxCalls
      {
        AtMostTwice(c, times, from);
      }
    } else {
      hide Allowed, TimeOrdered, Repeat;
      var t := Min(from + c.window - 1, U64_MAX);
      WrappedBurst(c, t, 2 * c.maxCalls + 1, from);
    }
  }

  lemma BurstsOrdered(t: u64, u: u64, n: nat)
    requires t <= u
    ensures TimeOrdered(Repeat(t, n) + Repeat(u, n))
  {
    hide Repeat;
  }

  /** The first window, from 0, is open at window - 1 and over at window. */
  lemma FirstWindow(c: Config, count: nat)
    ensures c.window > 0 ==> Current(Counter(count, 0), c, c.window - 1) == Counter(count, 0)
    ensures Current(Counter(count, 0), c, c.window) == Counter(0, c.window)
  {
  }

  /** A burst at the end of one window and one at the start of the next: twice the limit within two seconds. */
  lemma TwiceIsReached(c: Config)
    requires ValidConfig(c) && 2 <= c.window
    ensures var times := Repeat(c.window - 1, c.maxCalls) + Repeat(c.window, c.maxCalls);
            TimeOrdered(times) && Allowed(c, times, c.window - 1) == 2 * c.maxCalls
  {
    hide Run, AllowedIn, Repeat, Current, TimeOrdered;
    var first := Repeat(c.window - 1, c.maxCalls);
    BurstsOrdered(c.window - 1, c.window, c.maxCalls);
    assert [] + first == first;
    NothingYet(c, c.window - 1);
    FirstWindow(c, 0);
    BurstAllowed(c, [], c.window - 1, c.maxCalls, c.window - 1);
    FirstWindow(c, c.maxCalls);
    BurstAllowed(c, first, c.window, c.maxCalls, c.window - 1);
  }

  // ---------------------------------------------------------------------------------------------
  // Configurations
  // ---------------------------------------------------------------------------------------------

  /** The lookup finds the first position, if there is one. */
  lemma {:induction false} LookupIs(limits: seq<Config>, n: nat, operation: Symbol, i: nat)
    requires i <= n <= |limits|
    requires forall k :: 0 <= k < i ==> limits[k].operation != operation
    requires i < n ==> limits[i].operation == operation
    ensures Lookup(limits, n, operation) == if i < n then Some(i) else None
  {
    if n > 0 {
      LookupIs(limits, n - 1, operation, Min(i, n - 1));
    }
  }

  lemma {:induction false} Position(limits: seq<Config>, n: nat, operation: Symbol) returns (i: nat)
    requires n <= |limits|
    ensures i <= n && (i < n ==> limits[i].operation == operation)
    ensures forall k :: 0 <= k < i ==> limits[k].operation != operation
  {
    i := 0;
    while i < n && limits[i].operation != operation
      invariant i <= n && forall k :: 0 <= k < i ==> limits[k].operation != operation
    {
      i := i + 1;
    }
  }

  /** Setting a limit is what the lookup then finds, and it changes no other operation's limit. */
  lemma PutThenLookup(limits: seq<Config>, c: Config, operation: Symbol)
    ensures ConfigOf(Put(limits, c), operation)
            == if operation == c.operation then Some(c) else ConfigOf(limits, operation)
  {
    hide Lookup;
    var i := Position(limits, |limits|, c.operation);
    LookupIs(limits, |limits|, c.operation, i);
    var after := Put(limits, c);
    if operation == c.operation {
      LookupIs(after, |after|, operation, i);
    } else {
      var j := Position(limits, |limits|, operation);
      LookupIs(limits, |limits|, operation, j);
      LookupIs(after, |after|, operation, if j < |limits| then j else |after|);
    }
  }
}

/** The stored limits, counters and incidents, and the entry points that use them. */
module RateLimitContract {
  import opened Wrappers
  import opened Host
  import opened Bounded
  import opened RateLimit

  class RateLimiter {
    const admin: Address
    var limits: seq<Config>
    var counters: map<Symbol, Counter>
    var incidents: seq<Incident>

    constructor (admin: Address)
      ensures limits == [] && counters == map[] && incidents == [] && this.admin == admin
    {
      this.admin, limits, counters, incidents := admin, [], map[], [];
    }

    function CounterOf(operation: Symbol): Counter
      reads this`counters
    {
      if operation in counters then counters[operation] else START
    }

    method AppendIncident(i: Incident)
      modifies this`incidents
      ensures incidents == Append(old(incidents), i, MAX_INCIDENT_LOG)
    {
      var log := incidents;
      if |log| >= MAX_INCIDENT_LOG {
        log := log[1..];
      }
      incidents := log + [i];
    }

    method SetRateLimit(now: u64, caller: Address, operation: Symbol, maxCalls: nat, window: u64)
      returns (r: Result<(), Error>)
      modifies this`limits, this`incidents
      ensures r == if caller != admin then Err(NotAuthorizedByHost)
                   else if maxCalls == 0 || window == 0 then Err(InvalidConfiguration) else Ok(())
      ensures limits == if r.Ok? then Put(old(limits), Config(operation, maxCalls, window)) else old(limits)
      ensures incidents == if r.Ok? then
                             Append(old(incidents), Incident(now, RateLimitUpdated, Low, admin, "RT_UPD", maxCalls),
                                    MAX_INCIDENT_LOG)
                           else old(incidents)
    {
      if caller != admin {
        return Err(NotAuthorizedByHost);
      }
      if maxCalls == 0 || window == 0 {
        return Err(InvalidConfiguration);
      }
      var config := Config(operation, maxCalls, window);
      var found := FindLimit(operation);
      if found.Some? {
        limits := limits[found.value := config];
      } else {
        limits := limits + [config];
      }
      AppendIncident(Incident(now, RateLimitUpdated, Low, admin, "RT_UPD", maxCalls));
      return Ok(());
    }

    method FindLimit(operation: Symbol) returns (r: Option<nat>)
      ensures r == Lookup(limits, |limits|, operation)
      ensures r.Some? ==> r.value < |limits|
    {
      r := None;
      for i := 0 to |limits|
        invariant r == Lookup(limits, i, operation)
        invariant r.Some? ==> r.value < i
      {
        if r.None? && limits[i].operation == operation {
          r := Some(i);
        }
      }
    }

    method CheckRateLimit(now: u64, operation: Symbol) returns (allowed: bool)
      modifies this`counters, this`incidents
      ensures var c := ConfigOf(limits, operation);
              if c.None? then allowed && counters == old(counters) && incidents == old(incidents)
              else
                && allowed == Check(old(CounterOf(operation)), c.value, now).1
                && counters == (if allowed then
                                  old(counters)[operation := Check(old(CounterOf(operation)), c.value, now).0]
                                else old(counters))
                && incidents == (if allowed then old(incidents)
                                 else Append(old(incidents),
                                             Incident(now, OperationBlocked, Medium, admin, "RT_BLCK",
                                                      Current(old(CounterOf(operation)), c.value, now).count),
                                             MAX_INCIDENT_LOG))
    {
      var found := FindLimit(operation);
      if found.None? {
        return true;
      }
      var config := limits[found.value];
      var counter := if operation in counters then counters[operation] else Counter(0, 0);
      if now >= WrappingAdd(counter.windowStart, config.window) {
        counter := Counter(0, now);
      }
      if counter.count >= config.maxCalls {
        AppendIncident(Incident(now, OperationBlocked, Medium, admin, "RT_BLCK", counter.count));
        return false;
      }
      counter := counter.(count := counter.count + 1);
      counters := counters[operation := counter];
      return true;
    }
  }
}
