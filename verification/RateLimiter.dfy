/**
The fixed-window rate limiter over whole runs. Counters are 32 bits wide and wrap, as in a release
build; time is measured in units of the clock, and an earlier reading counts as no time passed.
*/
module RateLimiter {
  import opened Wrappers

  type Ip = nat

  const U32: int := 0x1_0000_0000

  datatype Config = Config(maxRequests: nat, window: nat)

  datatype Entry = Entry(count: nat, windowStart: nat)

  /** `Instant::duration_since`, which saturates at zero. */
  function Since(now: nat, earlier: nat): nat {
    if now >= earlier then now - earlier else 0
  }

  type Entries = map<Ip, Entry>

  /** The entry an attempt works on: a new one, the stored one, or that one with a new window. */
  function Current(cfg: Config, entries: Entries, ip: Ip, now: nat): Entry {
    if ip in entries && Since(now, entries[ip].windowStart) < cfg.window then entries[ip] else Entry(0, now)
  }

  function Bumped(e: Entry): Entry {
    e.(count := (e.count + 1) % U32)
  }

  /** An allowed request yields the requests remaining, a refused one the time to wait. */
  function CheckStep(cfg: Config, entries: Entries, ip: Ip, now: nat): (Entries, Result<int, int>) {
    var e := Current(cfg, entries, ip, now);
    if e.count >= cfg.maxRequests then (entries[ip := e], Err(cfg.window - Since(now, e.windowStart)))
    else (entries[ip := Bumped(e)], Ok(cfg.maxRequests - (e.count + 1)))
  }

  function FailureStep(cfg: Config, entries: Entries, ip: Ip, now: nat): Entries {
    entries[ip := Bumped(Current(cfg, entries, ip, now))]
  }

  function CleanupStep(cfg: Config, entries: Entries, now: nat): Entries {
    map ip | ip in entries && Since(now, entries[ip].windowStart) < cfg.window :: entries[ip]
  }

  class Limiter {
    const cfg: Config
    var entries: Entries

    constructor (cfg: Config)
      ensures this.cfg == cfg && entries == map[]
    {
      this.cfg := cfg;
      entries := map[];
    }

    /** Neither subtraction can underflow, whatever the clock reads. */
    method Check(ip: Ip, now: nat) returns (r: Result<nat, nat>)
      requires cfg.maxRequests < U32
      modifies this
      ensures var (entries', r') := CheckStep(cfg, old(entries), ip, now);
        && entries == entries'
        && (r'.Ok? ==> r'.value >= 0 && r == Ok(r'.value))
        && (r'.Err? ==> r'.error >= 0 && r == Err(r'.error))
    {
      var entry := if ip in entries then entries[ip] else Entry(0, now);
      if Since(now, entry.windowStart) >= cfg.window {
        entry := Entry(0, now);
      }
      if entry.count >= cfg.maxRequests {
        entries := entries[ip := entry];
        return Err(cfg.window - Since(now, entry.windowStart));
      }
      entry := entry.(count := entry.count + 1);
      entries := entries[ip := entry];
      r := Ok(cfg.maxRequests - entry.count);
    }

    method RecordFailure(ip: Ip, now: nat)
      modifies this
      ensures entries == FailureStep(cfg, old(entries), ip, now)
    {
      var entry := if ip in entries then entries[ip] else Entry(0, now);
      if Since(now, entry.windowStart) >= cfg.window {
        entry := Entry(0, now);
      }
      entry := entry.(count := (entry.count + 1) % U32);
      entries := entries[ip := entry];
    }

    /** An address stays, as it was, while its window is open; no later attempt can tell the difference. */
    method Cleanup(now: nat)
      modifies this
      ensures entries == CleanupStep(cfg, old(entries), now)
      ensures cfg.window > 0 ==>
        forall ip :: ip in entries <==> ip in old(entries) && now < old(entries)[ip].windowStart + cfg.window
      ensures forall ip :: ip in entries ==> entries[ip] == old(entries)[ip]
      ensures forall ip, later :: now <= later ==>
        Current(cfg, entries, ip, later) == Current(cfg, old(entries), ip, later)
    {
      entries := map ip | ip in entries && Since(now, entries[ip].windowStart) < cfg.window :: entries[ip];
    }
  }

  // ---------------------------------------------------------------------------------------------
  // Runs
  // ---------------------------------------------------------------------------------------------

  datatype Call = Check(ip: Ip, at: nat) | Failure(ip: Ip, at: nat) | Cleanup(at: nat)

  /** One counted attempt: when, in which window, and whether it was an allowed request. */
  datatype Use = Use(ip: Ip, at: nat, start: nat, allowed: bool)

  datatype State = State(entries: Entries, log: seq<Use>, results: seq<Result<int, int>>)

  const EMPTY: State := State(map[], [], [])

  function Step(cfg: Config, s: State, call: Call): State {
    match call
    case Check(ip, at) =>
      var (entries, r) := CheckStep(cfg, s.entries, ip, at);
      State(entries,
            if r.Ok? then s.log + [Use(ip, at, Current(cfg, s.entries, ip, at).windowStart, true)] else s.log,
            s.results + [r])
    case Failure(ip, at) =>
      State(FailureStep(cfg, s.entries, ip, at),
            s.log + [Use(ip, at, Current(cfg, s.entries, ip, at).windowStart, false)],
            s.results)
    case Cleanup(at) => s.(entries := CleanupStep(cfg, s.entries, at))
  }

  function Run(cfg: Config, calls: seq<Call>): State {
    if calls == [] then EMPTY else Step(cfg, Run(cfg, calls[..|calls| - 1]), calls[|calls| - 1])
  }

  /** Clock readings in the order in which the lock is taken. */
  predicate InOrder(calls: seq<Call>) {
    forall i, j :: 0 <= i < j < |calls| ==> calls[i].at <= calls[j].at
  }

  function LastReading(calls: seq<Call>): nat {
    if calls == [] then 0 else calls[|calls| - 1].at
  }

  // ---------------------------------------------------------------------------------------------
  // Counting
  // ---------------------------------------------------------------------------------------------

  /** How many uses of the log satisfy `p`. */
  function Count(log: seq<Use>, p: Use -> bool): (n: nat) {
    if log == [] then 0 else Count(log[..|log| - 1], p) + if p(log[|log| - 1]) then 1 else 0
  }

  lemma CountPush(log: seq<Use>, u: Use, p: Use -> bool)
    ensures Count(log + [u], p) == Count(log, p) + if p(u) then 1 else 0
  {
    assert (log + [u])[..|log|] == log;
  }

  /** Counting is monotone in the property and additive over two of them. */
  lemma {:induction false} CountCovers(log: seq<Use>, p: Use -> bool, q: Use -> bool, r: Use -> bool)
    requires forall i :: 0 <= i < |log| && p(log[i]) ==> q(log[i]) || r(log[i])
    ensures Count(log, p) <= Count(log, q) + Count(log, r)
  {
    if log != [] {
      var earlier := log[..|log| - 1];
      forall i | 0 <= i < |earlier| && p(earlier[i]) ensures q(earlier[i]) || r(earlier[i]) {
        assert earlier[i] == log[i];
      }
      CountCovers(earlier, p, q, r);
      assert p(log[|log| - 1]) ==> q(log[|log| - 1]) || r(log[|log| - 1]);
    }
  }

  function InWindow(ip: Ip, start: nat): Use -> bool {
    (u: Use) => u.ip == ip && u.start == start
  }

  function AllowedIn(ip: Ip, start: nat): Use -> bool {
    (u: Use) => u.ip == ip && u.start == start && u.allowed
  }

  /** Allowed in the window after its first instant. */
  function AllowedLater(ip: Ip, start: nat): Use -> bool {
    (u: Use) => u.ip == ip && u.start == start && u.allowed && u.at > start
  }

  function FailureIn(ip: Ip, start: nat): Use -> bool {
    (u: Use) => u.ip == ip && u.start == start && !u.allowed
  }

  function AllowedBetween(ip: Ip, from: nat, to: nat): Use -> bool {
    (u: Use) => u.ip == ip && u.allowed && from <= u.at < to
  }

  function Nothing(): Use -> bool {
    (u: Use) => false
  }

  lemma {:induction false} CountNothing(log: seq<Use>)
    ensures Count(log, Nothing()) == 0
  {
    if log != [] { CountNothing(log[..|log| - 1]); }
  }

  // ---------------------------------------------------------------------------------------------
  // The invariant
  // ---------------------------------------------------------------------------------------------

  /** Each use lies in its window, and windows of one address do not overlap. */
  predicate LogFits(cfg: Config, log: seq<Use>) {
    && (forall i :: 0 <= i < |log| ==> log[i].at == log[i].start || log[i].start <= log[i].at < log[i].start + cfg.window)
    && (forall i, j :: 0 <= i < |log| && 0 <= j < |log| && log[i].ip == log[j].ip && log[i].start < log[j].start ==>
          log[i].start + cfg.window <= log[j].start)
  }

  /** A stored entry belongs to the newest window of its address; one that was removed is over. */
  predicate EntriesFit(cfg: Config, entries: Entries, log: seq<Use>, clock: nat) {
    && (forall ip :: ip in entries ==> entries[ip].windowStart <= clock)
    && (forall i :: 0 <= i < |log| ==>
          var u := log[i];
          && u.start <= clock
          && if u.ip in entries
             then u.start == entries[u.ip].windowStart || u.start + cfg.window <= entries[u.ip].windowStart
             else u.start + cfg.window <= clock)
  }

  /** The counter of an address counts the uses of the window, as long as it cannot have wrapped there. */
  predicate CountersFit(cfg: Config, s: State, ip: Ip, start: nat) {
    ip in s.entries && s.entries[ip].windowStart == start ==> CountFits(cfg, s.log, ip, s.entries[ip])
  }

  predicate CountFits(cfg: Config, log: seq<Use>, ip: Ip, e: Entry) {
    && e.count == Count(log, InWindow(ip, e.windowStart))
    && e.count <= cfg.maxRequests + Count(log, FailureIn(ip, e.windowStart))
    && (cfg.maxRequests > 0 ==> e.count >= 1 + Count(log, AllowedLater(ip, e.windowStart)))
  }

  /** At most the maximum is allowed in a window, and one less after its first instant. */
  predicate WindowFits(cfg: Config, log: seq<Use>, ip: Ip, start: nat) {
    && Count(log, AllowedIn(ip, start)) <= cfg.maxRequests
    && Count(log, AllowedIn(ip, start)) <= Count(log, InWindow(ip, start))
    && (Count(log, AllowedLater(ip, start)) > 0 ==> Count(log, AllowedLater(ip, start)) < cfg.maxRequests)
  }

  lemma CountNone(log: seq<Use>, p: Use -> bool)
    requires forall i :: 0 <= i < |log| ==> !p(log[i])
    ensures Count(log, p) == 0
  {
    CountCovers(log, p, Nothing(), Nothing());
    CountNothing(log);
  }

  predicate Invariant(cfg: Config, s: State, clock: nat) {
    LogFits(cfg, s.log) && EntriesFit(cfg, s.entries, s.log, clock)
  }

  /** The window an attempt falls into: the newest of its address, and the attempt lies in it. */
  lemma CurrentFits(cfg: Config, s: State, ip: Ip, now: nat, clock: nat)
    requires Invariant(cfg, s, clock) && clock <= now
    ensures var e := Current(cfg, s.entries, ip, now);
      && e.windowStart <= now && (now == e.windowStart || now < e.windowStart + cfg.window)
      && forall i :: 0 <= i < |s.log| && s.log[i].ip == ip ==>
           s.log[i].start == e.windowStart || s.log[i].start + cfg.window <= e.windowStart
  {
  }

  lemma CurrentCounts(cfg: Config, s: State, ip: Ip, now: nat, clock: nat)
    requires Invariant(cfg, s, clock) && clock <= now && cfg.window > 0
    requires CountersFit(cfg, s, ip, Current(cfg, s.entries, ip, now).windowStart)
    ensures var e := Current(cfg, s.entries, ip, now);
      && e.count == Count(s.log, InWindow(ip, e.windowStart))
      && e.count <= cfg.maxRequests + Count(s.log, FailureIn(ip, e.windowStart))
      && (cfg.maxRequests > 0 ==>
            || e.count >= 1 + Count(s.log, AllowedLater(ip, e.windowStart))
            || (now == e.windowStart && Count(s.log, AllowedLater(ip, e.windowStart)) == 0))
  {
    var e := Current(cfg, s.entries, ip, now);
    if e == Entry(0, now) && !(ip in s.entries && s.entries[ip] == e) {
      CountNone(s.log, InWindow(ip, now));
      CountNone(s.log, AllowedLater(ip, now));
    }
  }

  lemma StepKeepsInvariant(cfg: Config, s: State, call: Call, clock: nat)
    requires Invariant(cfg, s, clock) && clock <= call.at
    ensures Invariant(cfg, Step(cfg, s, call), call.at)
  {
    hide LogFits, EntriesFit;
    if call.Cleanup? {
      CleanupKeepsEntries(cfg, s.entries, s.log, call.at, clock);
    } else {
      var e := Current(cfg, s.entries, call.ip, call.at);
      var s' := Step(cfg, s, call);
      CurrentFits(cfg, s, call.ip, call.at, clock);
      AttemptKeepsEntries(cfg, s.entries, s.log, call.ip, call.at, clock, s'.entries[call.ip]);
      if |s'.log| > |s.log| {
        var u := Use(call.ip, call.at, e.windowStart, call.Check?);
        UseKeepsLog(cfg, s.log, u);
        UseKeepsEntries(cfg, s'.entries, s.log, call.at, u);
      }
    }
  }

  lemma UseKeepsLog(cfg: Config, log: seq<Use>, u: Use)
    requires LogFits(cfg, log) && u.start <= u.at && (u.at == u.start || u.at < u.start + cfg.window)
    requires forall i :: 0 <= i < |log| && log[i].ip == u.ip ==>
      log[i].start == u.start || log[i].start + cfg.window <= u.start
    ensures LogFits(cfg, log + [u])
  {
  }

  lemma UseKeepsEntries(cfg: Config, entries: Entries, log: seq<Use>, clock: nat, u: Use)
    requires EntriesFit(cfg, entries, log, clock) && u.start <= clock
    requires u.ip in entries && entries[u.ip].windowStart == u.start
    ensures EntriesFit(cfg, entries, log + [u], clock)
  {
  }

  lemma AttemptKeepsEntries(cfg: Config, entries: Entries, log: seq<Use>, ip: Ip, now: nat, clock: nat, e: Entry)
    requires EntriesFit(cfg, entries, log, clock) && clock <= now && e.windowStart <= now
    requires forall i :: 0 <= i < |log| && log[i].ip == ip ==>
      log[i].start == e.windowStart || log[i].start + cfg.window <= e.windowStart
    ensures EntriesFit(cfg, entries[ip := e], log, now)
  {
  }

  lemma CleanupKeepsEntries(cfg: Config, entries: Entries, log: seq<Use>, now: nat, clock: nat)
    requires EntriesFit(cfg, entries, log, clock) && clock <= now
    ensures EntriesFit(cfg, CleanupStep(cfg, entries, now), log, now)
  {
  }

  /** One more use of `ip`, in its current window. */
  lemma UseKeepsCounters(cfg: Config, s: State, s': State, ip: Ip, u: Use)
    requires u.ip == ip && s'.log == s.log + [u]
    requires ip in s'.entries && s'.entries[ip].windowStart == u.start
    requires s'.entries[ip].count == 1 + Count(s.log, InWindow(ip, u.start))
    requires s'.entries[ip].count
          <= cfg.maxRequests + Count(s.log, FailureIn(ip, u.start)) + if u.allowed then 0 else 1
    requires cfg.maxRequests > 0 ==>
      || s'.entries[ip].count >= 2 + Count(s.log, AllowedLater(ip, u.start))
      || (u.at == u.start && Count(s.log, AllowedLater(ip, u.start)) == 0)
    ensures CountersFit(cfg, s', ip, u.start)
  {
    CountPush(s.log, u, InWindow(ip, u.start));
    CountPush(s.log, u, FailureIn(ip, u.start));
    CountPush(s.log, u, AllowedLater(ip, u.start));
  }

  /** What happens to other addresses does not touch the counters of `ip`. */
  lemma OtherKeepsCounters(cfg: Config, s: State, s': State, ip: Ip, start: nat)
    requires CountersFit(cfg, s, ip, start)
    requires ip in s'.entries ==> ip in s.entries && s'.entries[ip] == s.entries[ip]
    requires s'.log == s.log || (|s'.log| == |s.log| + 1 && s'.log[..|s.log|] == s.log && s'.log[|s.log|].ip != ip)
    ensures CountersFit(cfg, s', ip, start)
  {
    if s'.log != s.log {
      var u := s'.log[|s.log|];
      assert s'.log == s.log + [u];
      CountPush(s.log, u, FailureIn(ip, start));
      CountPush(s.log, u, InWindow(ip, start));
      CountPush(s.log, u, AllowedLater(ip, start));
    }
  }

  lemma StepKeepsCounters(cfg: Config, s: State, call: Call, clock: nat, ip: Ip, start: nat)
    requires Invariant(cfg, s, clock) && clock <= call.at && CountersFit(cfg, s, ip, start) && cfg.window > 0
    requires cfg.maxRequests + Count(Step(cfg, s, call).log, FailureIn(ip, start)) < U32
    ensures CountersFit(cfg, Step(cfg, s, call), ip, start)
  {
    var s' := Step(cfg, s, call);
    if call.Cleanup? || call.ip != ip {
      if |s'.log| > |s.log| { assert s'.log[..|s.log|] == s.log; }
      OtherKeepsCounters(cfg, s, s', ip, start);
    } else if Current(cfg, s.entries, ip, call.at).windowStart == start {
      AttemptKeepsCounters(cfg, s, call, clock);
    }
  }

  /** An attempt counts in its window, or is refused there. */
  lemma AttemptKeepsCounters(cfg: Config, s: State, call: Call, clock: nat)
    requires Invariant(cfg, s, clock) && !call.Cleanup? && clock <= call.at && cfg.window > 0
    requires var start := Current(cfg, s.entries, call.ip, call.at).windowStart;
      && CountersFit(cfg, s, call.ip, start)
      && cfg.maxRequests + Count(Step(cfg, s, call).log, FailureIn(call.ip, start)) < U32
    ensures CountersFit(cfg, Step(cfg, s, call), call.ip, Current(cfg, s.entries, call.ip, call.at).windowStart)
  {
    hide Count, Current, Invariant, CountersFit;
    var s' := Step(cfg, s, call);
    var e := Current(cfg, s.entries, call.ip, call.at);
    CurrentCounts(cfg, s, call.ip, call.at, clock);
    if |s'.log| > |s.log| {
      var u := Use(call.ip, call.at, e.windowStart, call.Check?);
      CountPush(s.log, u, FailureIn(call.ip, e.windowStart));
      UseKeepsCounters(cfg, s, s', call.ip, u);
    } else {
      RefusedKeepsCounters(cfg, s, s', call.ip, e);
    }
  }

  lemma RefusedKeepsCounters(cfg: Config, s: State, s': State, ip: Ip, e: Entry)
    requires s'.log == s.log && ip in s'.entries && s'.entries[ip] == e && e.count >= cfg.maxRequests
    requires e.count == Count(s.log, InWindow(ip, e.windowStart))
    requires e.count <= cfg.maxRequests + Count(s.log, FailureIn(ip, e.windowStart))
    requires cfg.maxRequests > 0 ==> e.count >= 1 + Count(s.log, AllowedLater(ip, e.windowStart))
                                     || Count(s.log, AllowedLater(ip, e.windowStart)) == 0
    ensures CountersFit(cfg, s', ip, e.windowStart)
  {
  }

  lemma StepKeepsWindow(cfg: Config, s: State, call: Call, clock: nat, ip: Ip, start: nat)
    requires Invariant(cfg, s, clock) && clock <= call.at && CountersFit(cfg, s, ip, start) && cfg.window > 0
    requires WindowFits(cfg, s.log, ip, start)
    ensures WindowFits(cfg, Step(cfg, s, call).log, ip, start)
  {
    var s' := Step(cfg, s, call);
    if |s'.log| > |s.log| {
      var u := s'.log[|s.log|];
      assert s'.log == s.log + [u];
      if call.ip == ip && u.start == start { CurrentCounts(cfg, s, ip, call.at, clock); }
      CountPush(s.log, u, AllowedIn(ip, start));
      CountPush(s.log, u, InWindow(ip, start));
      CountPush(s.log, u, AllowedLater(ip, start));
    }
  }

  lemma LogGrows(cfg: Config, s: State, call: Call, p: Use -> bool)
    ensures Count(s.log, p) <= Count(Step(cfg, s, call).log, p)
  {
    var s' := Step(cfg, s, call);
    if |s'.log| > |s.log| { CountPush(s.log, s'.log[|s.log|], p); }
  }

  lemma {:induction false} RunKeepsInvariant(cfg: Config, calls: seq<Call>)
    requires InOrder(calls)
    ensures Invariant(cfg, Run(cfg, calls), LastReading(calls))
  {
    if calls != [] {
      var earlier := calls[..|calls| - 1];
      RunKeepsInvariant(cfg, earlier);
      StepKeepsInvariant(cfg, Run(cfg, earlier), calls[|calls| - 1], LastReading(earlier));
    }
  }

  lemma {:induction false} RunKeepsCounters(cfg: Config, calls: seq<Call>, ip: Ip, start: nat)
    requires InOrder(calls) && cfg.window > 0
    requires cfg.maxRequests + Failures(cfg, calls, ip, start) < U32
    ensures CountersFit(cfg, Run(cfg, calls), ip, start) && WindowFits(cfg, Run(cfg, calls).log, ip, start)
  {
    hide CountersFit, WindowFits, Invariant, Step;
    if calls == [] {
      EmptyFits(cfg, ip, start);
    } else {
      var earlier, call := calls[..|calls| - 1], calls[|calls| - 1];
      var s := Run(cfg, earlier);
      LogGrows(cfg, s, call, FailureIn(ip, start));
      RunKeepsCounters(cfg, earlier, ip, start);
      RunKeepsInvariant(cfg, earlier);
      StepKeepsCounters(cfg, s, call, LastReading(earlier), ip, start);
      StepKeepsWindow(cfg, s, call, LastReading(earlier), ip, start);
    }
  }

  lemma EmptyFits(cfg: Config, ip: Ip, start: nat)
    ensures CountersFit(cfg, EMPTY, ip, start) && WindowFits(cfg, [], ip, start)
  {
  }

  // ---------------------------------------------------------------------------------------------
  // What a run allows
  // ---------------------------------------------------------------------------------------------

  /** The failures a run records for an address in one of its windows, each of which moves the counter. */
  function Failures(cfg: Config, calls: seq<Call>, ip: Ip, start: nat): nat {
    Count(Run(cfg, calls).log, FailureIn(ip, start))
  }

  /** At most `n` failures fall into each window that meets the interval one window long from `from` on. */
  ghost predicate FewFailures(cfg: Config, calls: seq<Call>, ip: Ip, from: nat, n: nat) {
    forall start: nat :: from < start + cfg.window && start < from + cfg.window ==>
      Failures(cfg, calls, ip, start) <= n
  }

  lemma {:induction false} NoFailures(cfg: Config, calls: seq<Call>, ip: Ip, start: nat)
    requires forall i :: 0 <= i < |calls| ==> !calls[i].Failure?
    ensures Failures(cfg, calls, ip, start) == 0
  {
    if calls != [] {
      var earlier := calls[..|calls| - 1];
      NoFailures(cfg, earlier, ip, start);
      var (s, s') := (Run(cfg, earlier), Run(cfg, calls));
      if |s'.log| > |s.log| { CountPush(s.log, s'.log[|s.log|], FailureIn(ip, start)); }
    }
  }

  /** No window of an address allows more than the maximum, unless its own failures can wrap the counter. */
  lemma WindowLimit(cfg: Config, calls: seq<Call>, ip: Ip, start: nat)
    requires InOrder(calls) && cfg.window > 0 && cfg.maxRequests + Failures(cfg, calls, ip, start) < U32
    ensures Count(Run(cfg, calls).log, AllowedIn(ip, start)) <= cfg.maxRequests
  {
    RunKeepsCounters(cfg, calls, ip, start);
  }

  /** An interval one window long meets at most two windows of an address, and not the start of both. */
  lemma TwoWindows(cfg: Config, log: seq<Use>, ip: Ip, from: nat) returns (s1: nat, s2: nat)
    requires LogFits(cfg, log) && cfg.window > 0
    ensures s1 == s2 || s1 < from
    ensures from < s1 + cfg.window && s1 < from + cfg.window
    ensures from < s2 + cfg.window && s2 < from + cfg.window
    ensures forall i :: 0 <= i < |log| && AllowedBetween(ip, from, from + cfg.window)(log[i]) ==>
      (s1 != s2 && AllowedLater(ip, s1)(log[i])) || AllowedIn(ip, s2)(log[i])
  {
    var between := AllowedBetween(ip, from, from + cfg.window);
    if i :| 0 <= i < |log| && between(log[i]) && log[i].start < from {
      s1, s2 := log[i].start, log[i].start;
      if j :| 0 <= j < |log| && between(log[j]) && log[j].start != s1 {
        s2 := log[j].start;
        assert s2 >= from;
        forall k | 0 <= k < |log| && between(log[k])
          ensures AllowedLater(ip, s1)(log[k]) || AllowedIn(ip, s2)(log[k])
        {
          OneOfTwo(cfg, log, ip, from, i, j, k);
        }
      } else {
        forall k | 0 <= k < |log| && between(log[k]) ensures AllowedIn(ip, s2)(log[k]) {
        }
      }
    } else if i :| 0 <= i < |log| && between(log[i]) {
      s1, s2 := log[i].start, log[i].start;
      forall k | 0 <= k < |log| && between(log[k]) ensures AllowedIn(ip, s2)(log[k]) {
        assert log[k].start >= from && log[i].start >= from;
      }
    } else {
      s1, s2 := from, from;
    }
  }

  lemma OneOfTwo(cfg: Config, log: seq<Use>, ip: Ip, from: nat, i: nat, j: nat, k: nat)
    requires LogFits(cfg, log) && cfg.window > 0 && i < |log| && j < |log| && k < |log|
    requires AllowedBetween(ip, from, from + cfg.window)(log[i]) && AllowedBetween(ip, from, from + cfg.window)(log[j])
    requires AllowedBetween(ip, from, from + cfg.window)(log[k])
    requires log[i].start < from && log[j].start != log[i].start
    ensures AllowedLater(ip, log[i].start)(log[k]) || AllowedIn(ip, log[j].start)(log[k])
  {
  }

  /**
  In any interval one window long, an address gets at most twice the maximum, less one: an interval
  that meets two windows misses the attempt that opened the first.
  */
  lemma IntervalLimit(cfg: Config, calls: seq<Call>, ip: Ip, from: nat)
    requires InOrder(calls) && cfg.maxRequests < U32
    requires FewFailures(cfg, calls, ip, from, U32 - 1 - cfg.maxRequests)
    ensures var n := Count(Run(cfg, calls).log, AllowedBetween(ip, from, from + cfg.window));
      n == 0 || n <= 2 * cfg.maxRequests - 1
  {
    var log := Run(cfg, calls).log;
    var between := AllowedBetween(ip, from, from + cfg.window);
    if cfg.window == 0 {
      CountNone(log, between);
    } else {
      RunKeepsInvariant(cfg, calls);
      var s1, s2 := TwoWindows(cfg, log, ip, from);
      RunKeepsCounters(cfg, calls, ip, s1);
      RunKeepsCounters(cfg, calls, ip, s2);
      if s1 == s2 {
        CountCovers(log, between, AllowedIn(ip, s2), Nothing());
        CountNothing(log);
      } else {
        CountCovers(log, between, AllowedLater(ip, s1), AllowedIn(ip, s2));
      }
      assert Count(log, AllowedIn(ip, s2)) <= cfg.maxRequests;
    }
  }

  // ---------------------------------------------------------------------------------------------
  // When the limits hold
  // ---------------------------------------------------------------------------------------------

  lemma RunPush(cfg: Config, calls: seq<Call>, call: Call)
    ensures Run(cfg, calls + [call]) == Step(cfg, Run(cfg, calls), call)
  {
    assert (calls + [call])[..|calls|] == calls;
  }

  function Repeat(call: Call, n: nat): seq<Call> {
    seq(n, _ => call)
  }

  lemma RepeatMore(calls: seq<Call>, call: Call, n: nat)
    requires n > 0
    ensures calls + Repeat(call, n) == calls + Repeat(call, n - 1) + [call]
  {
  }

  /** `n` more requests at one reading, in a window with room for them, are all allowed. */
  lemma {:induction false} ChecksAllowed(cfg: Config, calls: seq<Call>, ip: Ip, at: nat, n: nat, p: Use -> bool)
    requires cfg.maxRequests < U32 && cfg.window > 0
    requires var e := Current(cfg, Run(cfg, calls).entries, ip, at);
      at >= e.windowStart && Since(at, e.windowStart) < cfg.window && e.count + n <= cfg.maxRequests
    ensures var (before, after) := (Run(cfg, calls), Run(cfg, calls + Repeat(Check(ip, at), n)));
      var e := Current(cfg, before.entries, ip, at);
      && Current(cfg, after.entries, ip, at) == e.(count := e.count + n)
      && Count(after.log, p) == Count(before.log, p) + if p(Use(ip, at, e.windowStart, true)) then n else 0
  {
    hide Run, Count;
    if n == 0 {
      assert calls + Repeat(Check(ip, at), 0) == calls;
    } else {
      ChecksAllowed(cfg, calls, ip, at, n - 1, p);
      RepeatMore(calls, Check(ip, at), n);
      RunPush(cfg, calls + Repeat(Check(ip, at), n - 1), Check(ip, at));
      var s := Run(cfg, calls + Repeat(Check(ip, at), n - 1));
      CountPush(s.log, Use(ip, at, Current(cfg, s.entries, ip, at).windowStart, true), p);
    }
  }

  /** `n` failures at one reading move the counter, modulo its width. */
  lemma {:induction false} FailuresCount(cfg: Config, calls: seq<Call>, ip: Ip, at: nat, n: nat, p: Use -> bool)
    requires cfg.window > 0
    requires var e := Current(cfg, Run(cfg, calls).entries, ip, at);
      at >= e.windowStart && Since(at, e.windowStart) < cfg.window && e.count < U32
    ensures var (before, after) := (Run(cfg, calls), Run(cfg, calls + Repeat(Failure(ip, at), n)));
      var e := Current(cfg, before.entries, ip, at);
      && Current(cfg, after.entries, ip, at) == e.(count := (e.count + n) % U32)
      && Count(after.log, p) == Count(before.log, p) + if p(Use(ip, at, e.windowStart, false)) then n else 0
  {
    hide Run, Count;
    if n == 0 {
      assert calls + Repeat(Failure(ip, at), 0) == calls;
    } else {
      FailuresCount(cfg, calls, ip, at, n - 1, p);
      RepeatMore(calls, Failure(ip, at), n);
      RunPush(cfg, calls + Repeat(Failure(ip, at), n - 1), Failure(ip, at));
      var s := Run(cfg, calls + Repeat(Failure(ip, at), n - 1));
      CountPush(s.log, Use(ip, at, Current(cfg, s.entries, ip, at).windowStart, false), p);
      OneMoreWraps(Current(cfg, Run(cfg, calls).entries, ip, at).count, n);
    }
  }

  lemma OneMoreWraps(c: nat, n: nat)
    requires n > 0
    ensures ((c + (n - 1)) % U32 + 1) % U32 == (c + n) % U32
  {
  }

  lemma RunNothing(cfg: Config)
    ensures Run(cfg, []) == EMPTY
  {
  }

  /** As many requests as allowed, failures that wrap the counter to zero, and as many requests again. */
  function WrappingRun(cfg: Config, ip: Ip): seq<Call>
    requires cfg.maxRequests < U32
  {
    Repeat(Check(ip, 0), cfg.maxRequests) + Repeat(Failure(ip, 0), U32 - cfg.maxRequests)
    + Repeat(Check(ip, 0), cfg.maxRequests)
  }

  lemma WrappingRunInOrder(cfg: Config, ip: Ip)
    requires cfg.maxRequests < U32
    ensures InOrder(WrappingRun(cfg, ip))
  {
  }

  lemma FirstEntry(cfg: Config, ip: Ip, at: nat)
    ensures Current(cfg, Run(cfg, []).entries, ip, at) == Entry(0, at) && Run(cfg, []).log == []
  {
  }

  lemma WrappingRunCounts(cfg: Config, ip: Ip, p: Use -> bool)
    requires 0 < cfg.maxRequests < U32 && cfg.window > 0
    ensures Count(Run(cfg, WrappingRun(cfg, ip)).log, p)
         == (if p(Use(ip, 0, 0, true)) then 2 * cfg.maxRequests else 0)
          + if p(Use(ip, 0, 0, false)) then U32 - cfg.maxRequests else 0
  {
    hide Run, Count, Current;
    var (n, m) := (cfg.maxRequests, U32 - cfg.maxRequests);
    var (checks, failures) := (Repeat(Check(ip, 0), n), Repeat(Failure(ip, 0), m));
    FirstEntry(cfg, ip, 0);
    CountNone([], p);
    assert [] + checks == checks;
    ChecksAllowed(cfg, [], ip, 0, n, p);
    FailuresCount(cfg, checks, ip, 0, m, p);
    hide Repeat;
    assert (n + m) % U32 == 0;
    ChecksAllowed(cfg, checks + failures, ip, 0, n, p);
  }

  /** With a window of zero every request opens a new one, and all those at one reading are allowed. */
  lemma {:induction false} ZeroWindowAllows(cfg: Config, ip: Ip, n: nat)
    requires cfg.maxRequests > 0 && cfg.window == 0
    ensures Count(Run(cfg, Repeat(Check(ip, 0), n)).log, AllowedIn(ip, 0)) == n
  {
    hide Run, Count;
    var p := AllowedIn(ip, 0);
    RunNothing(cfg);
    CountNone([], p);
    if n > 0 {
      ZeroWindowAllows(cfg, ip, n - 1);
      var earlier := Repeat(Check(ip, 0), n - 1);
      assert Repeat(Check(ip, 0), n) == earlier + [Check(ip, 0)];
      assert (earlier + [Check(ip, 0)])[..|earlier|] == earlier;
      RunPush(cfg, earlier, Check(ip, 0));
      CountPush(Run(cfg, earlier).log, Use(ip, 0, 0, true), p);
    } else {
      assert Repeat(Check(ip, 0), 0) == [];
    }
  }

  /** No window with at most `n` recorded failures allows more than the maximum, in any run. */
  ghost predicate WindowsLimited(cfg: Config, ip: Ip, n: nat) {
    forall calls: seq<Call>, start: nat :: InOrder(calls) && Failures(cfg, calls, ip, start) <= n ==>
      Count(Run(cfg, calls).log, AllowedIn(ip, start)) <= cfg.maxRequests
  }

  /** The requests a run allows an address in the interval one window long from `from` on. */
  function AllowedFrom(cfg: Config, calls: seq<Call>, ip: Ip, from: nat): nat {
    Count(Run(cfg, calls).log, AllowedBetween(ip, from, from + cfg.window))
  }

  /** No interval one window long that meets only such windows allows twice the maximum, in any run. */
  ghost predicate IntervalsLimited(cfg: Config, ip: Ip, n: nat) {
    forall calls: seq<Call>, from: nat :: InOrder(calls) && FewFailures(cfg, calls, ip, from, n) ==>
      AllowedFrom(cfg, calls, ip, from) == 0 || AllowedFrom(cfg, calls, ip, from) <= 2 * cfg.maxRequests - 1
  }

  lemma {:induction false} NothingAllowed(cfg: Config, calls: seq<Call>, p: Use -> bool)
    requires cfg.maxRequests == 0 && forall u: Use :: p(u) ==> u.allowed
    ensures Count(Run(cfg, calls).log, p) == 0
  {
    hide Step;
    if calls != [] {
      var earlier := calls[..|calls| - 1];
      NothingAllowed(cfg, earlier, p);
      NothingAllowedNow(cfg, Run(cfg, earlier), calls[|calls| - 1], p);
    }
  }

  lemma NothingAllowedNow(cfg: Config, s: State, call: Call, p: Use -> bool)
    requires cfg.maxRequests == 0 && forall u: Use :: p(u) ==> u.allowed
    ensures Count(Step(cfg, s, call).log, p) == Count(s.log, p)
  {
    hide Count;
    if call.Failure? {
      CountPush(s.log, Use(call.ip, call.at, Current(cfg, s.entries, call.ip, call.at).windowStart, false), p);
    }
  }

  /**
  Exactly when a window is limited: when nothing is allowed at all, or windows have a length and the
  failures that can be recorded are too few to wrap the counter past a full window.
  */
  lemma WindowLimitIff(cfg: Config, ip: Ip, n: nat)
    requires cfg.maxRequests < U32
    ensures WindowsLimited(cfg, ip, n)
       <==> cfg.maxRequests == 0 || (cfg.window > 0 && cfg.maxRequests + n < U32)
  {
    hide Run, Count, InOrder;
    if cfg.maxRequests == 0 {
      forall calls: seq<Call>, start: nat ensures Count(Run(cfg, calls).log, AllowedIn(ip, start)) <= cfg.maxRequests {
        NothingAllowed(cfg, calls, AllowedIn(ip, start));
      }
    } else if cfg.window == 0 {
      var calls := Repeat(Check(ip, 0), cfg.maxRequests + 1);
      ZeroWindowAllows(cfg, ip, cfg.maxRequests + 1);
      NoFailures(cfg, calls, ip, 0);
      RepeatInOrder(Check(ip, 0), cfg.maxRequests + 1);
      assert Count(Run(cfg, calls).log, AllowedIn(ip, 0)) > cfg.maxRequests;
    } else if cfg.maxRequests + n >= U32 {
      WrappingRunInOrder(cfg, ip);
      WrappingRunCounts(cfg, ip, AllowedIn(ip, 0));
      WrappingRunCounts(cfg, ip, FailureIn(ip, 0));
      assert Count(Run(cfg, WrappingRun(cfg, ip)).log, AllowedIn(ip, 0)) > cfg.maxRequests;
    } else {
      forall calls: seq<Call>, start: nat | InOrder(calls) && Failures(cfg, calls, ip, start) <= n
        ensures Count(Run(cfg, calls).log, AllowedIn(ip, start)) <= cfg.maxRequests
      {
        WindowLimit(cfg, calls, ip, start);
      }
    }
  }

  lemma RepeatInOrder(call: Call, n: nat)
    ensures InOrder(Repeat(call, n))
  {
  }

  /** Exactly when an interval is limited: as for a window, or trivially when it has no length. */
  lemma IntervalLimitIff(cfg: Config, ip: Ip, n: nat)
    requires cfg.maxRequests < U32
    ensures IntervalsLimited(cfg, ip, n)
       <==> cfg.maxRequests == 0 || cfg.window == 0 || cfg.maxRequests + n < U32
  {
    hide Run, Count, InOrder;
    if cfg.maxRequests > 0 && cfg.window > 0 && cfg.maxRequests + n >= U32 {
      WrappingRunInOrder(cfg, ip);
      WrappingRunCounts(cfg, ip, AllowedBetween(ip, 0, 0 + cfg.window));
      forall start: nat ensures Failures(cfg, WrappingRun(cfg, ip), ip, start) <= n {
        WrappingRunCounts(cfg, ip, FailureIn(ip, start));
      }
      assert AllowedFrom(cfg, WrappingRun(cfg, ip), ip, 0) == 2 * cfg.maxRequests;
    } else {
      forall calls: seq<Call>, from: nat | InOrder(calls) && FewFailures(cfg, calls, ip, from, n)
        ensures AllowedFrom(cfg, calls, ip, from) == 0 || AllowedFrom(cfg, calls, ip, from) <= 2 * cfg.maxRequests - 1
      {
        if cfg.maxRequests == 0 {
          NothingAllowed(cfg, calls, AllowedBetween(ip, from, from + cfg.window));
        } else if cfg.window == 0 {
          CountNone(Run(cfg, calls).log, AllowedBetween(ip, from, from + cfg.window));
        } else {
          IntervalLimit(cfg, calls, ip, from);
        }
      }
    }
  }

  /** One request, all but one as the first window closes, and all as the second opens. */
  function CrowdedRun(cfg: Config, ip: Ip): seq<Call>
    requires cfg.maxRequests > 0 && cfg.window > 0
  {
    Repeat(Check(ip, 0), 1) + Repeat(Check(ip, cfg.window - 1), cfg.maxRequests - 1)
    + Repeat(Check(ip, cfg.window), cfg.maxRequests)
  }

  lemma CrowdedRunShape(cfg: Config, ip: Ip)
    requires cfg.maxRequests > 0 && cfg.window > 0
    ensures var calls := CrowdedRun(cfg, ip);
      InOrder(calls) && forall i :: 0 <= i < |calls| ==> calls[i].Check?
  {
  }

  /** The interval bound is reached, with no failure, for every maximum and every window of more than one tick. */
  lemma IntervalLimitIsReached(cfg: Config, ip: Ip)
    requires 0 < cfg.maxRequests < U32 && cfg.window >= 2
    ensures InOrder(CrowdedRun(cfg, ip)) && FewFailures(cfg, CrowdedRun(cfg, ip), ip, 1, 0)
    ensures AllowedFrom(cfg, CrowdedRun(cfg, ip), ip, 1) == 2 * cfg.maxRequests - 1
  {
    hide Run, Count, Current, InOrder;
    CrowdedRunShape(cfg, ip);
    forall start: nat ensures Failures(cfg, CrowdedRun(cfg, ip), ip, start) == 0 {
      NoFailures(cfg, CrowdedRun(cfg, ip), ip, start);
    }
    var p := AllowedBetween(ip, 1, 1 + cfg.window);
    var (n, w) := (cfg.maxRequests, cfg.window);
    var (a, b) := (Repeat(Check(ip, 0), 1), Repeat(Check(ip, w - 1), n - 1));
    FirstEntry(cfg, ip, 0);
    CountNone([], p);
    assert [] + a == a;
    ChecksAllowed(cfg, [], ip, 0, 1, p);
    LaterInWindow(cfg, Run(cfg, a).entries, ip, 0, w - 1);
    ChecksAllowed(cfg, a, ip, w - 1, n - 1, p);
    hide Repeat;
    WindowOver(cfg, Run(cfg, a + b).entries, ip, w - 1, w);
    ChecksAllowed(cfg, a + b, ip, w, n, p);
  }

  /** An entry in use at one reading is still in use later in its window. */
  lemma LaterInWindow(cfg: Config, entries: Entries, ip: Ip, now: nat, later: nat)
    requires now <= later
    requires var e := Current(cfg, entries, ip, now); e.count > 0 && later < e.windowStart + cfg.window
    ensures Current(cfg, entries, ip, later) == Current(cfg, entries, ip, now)
  {
  }

  lemma WindowOver(cfg: Config, entries: Entries, ip: Ip, now: nat, later: nat)
    requires now <= later
    requires var e := Current(cfg, entries, ip, now); e.count > 0 && later >= e.windowStart + cfg.window
    ensures Current(cfg, entries, ip, later) == Entry(0, later)
  {
  }

  /** The time a refusal names is exact: left alone, the address is allowed again then and no earlier. */
  lemma RetryAfterIsExact(cfg: Config, entries: Entries, ip: Ip, now: nat, later: nat)
    requires 0 < cfg.maxRequests < U32 && now <= later
    requires ip in entries ==> entries[ip].windowStart <= now
    requires CheckStep(cfg, entries, ip, now).1.Err?
    ensures var (after, refusal) := CheckStep(cfg, entries, ip, now);
      CheckStep(cfg, after, ip, later).1.Ok? <==> later >= now + refusal.error
  {
    var e := Current(cfg, entries, ip, now);
    var after := CheckStep(cfg, entries, ip, now).0;
    assert after[ip] == e;
  }

  // ---------------------------------------------------------------------------------------------
  // Cleaning up
  // ---------------------------------------------------------------------------------------------

  function WithoutCleanups(calls: seq<Call>): seq<Call> {
    if calls == [] then []
    else
      WithoutCleanups(calls[..|calls| - 1]) +
      if calls[|calls| - 1].Cleanup? then [] else [calls[|calls| - 1]]
  }

  /** `b` is `a` with some entries missing whose windows are over. */
  predicate Trimmed(cfg: Config, a: Entries, b: Entries, clock: nat) {
    && (forall ip :: ip in b ==> ip in a && b[ip] == a[ip])
    && (forall ip :: ip in a && ip !in b ==> a[ip].windowStart + cfg.window <= clock)
    && (forall ip :: ip in a ==> a[ip].windowStart <= clock)
  }

  lemma TrimmedStep(cfg: Config, a: State, b: State, call: Call, clock: nat)
    requires Trimmed(cfg, a.entries, b.entries, clock) && clock <= call.at
    requires a.log == b.log && a.results == b.results
    ensures var b' := Step(cfg, b, call);
      var a' := if call.Cleanup? then a else Step(cfg, a, call);
      Trimmed(cfg, a'.entries, b'.entries, call.at) && a'.log == b'.log && a'.results == b'.results
  {
    if !call.Cleanup? {
      assert Current(cfg, a.entries, call.ip, call.at) == Current(cfg, b.entries, call.ip, call.at);
    }
  }

  /** Leaving out every cleanup changes no result. */
  lemma {:induction false} CleanupIsInvisible(cfg: Config, calls: seq<Call>)
    requires InOrder(calls)
    ensures var a, b := Run(cfg, WithoutCleanups(calls)), Run(cfg, calls);
      Trimmed(cfg, a.entries, b.entries, LastReading(calls)) && a.log == b.log && a.results == b.results
  {
    hide Step;
    if calls != [] {
      var earlier, call := calls[..|calls| - 1], calls[|calls| - 1];
      CleanupIsInvisible(cfg, earlier);
      TrimmedStep(cfg, Run(cfg, WithoutCleanups(earlier)), Run(cfg, earlier), call, LastReading(earlier));
      if !call.Cleanup? {
        var kept := WithoutCleanups(earlier) + [call];
        assert kept[..|kept| - 1] == WithoutCleanups(earlier);
      } else {
        assert WithoutCleanups(earlier) + [] == WithoutCleanups(earlier);
      }
    }
  }
}
