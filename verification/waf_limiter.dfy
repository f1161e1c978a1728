/** The firewall's rate limiter: one counter per address, restarted by the first request that comes
    more than a window after the counter was started. Times are in milliseconds. */
module WafLimiter {
  import opened Outcomes
  import SlidingLimiter

  const RATE_LIMIT_WINDOW := 60000
  const MAX_REQUESTS := 60

  /** `lastRequest` is set when a counter is started and not moved by later requests. */
  datatype Record = Record(count: int, lastRequest: int)

  function Hit(record: Option<Record>, now: int): (Record, bool) {
    match record
    case None => (Record(1, now), false)
    case Some(r) =>
      if now - r.lastRequest > RATE_LIMIT_WINDOW then (Record(1, now), false)
      else (Record(r.count + 1, r.lastRequest), r.count + 1 > MAX_REQUESTS)
  }

  function Lookup(limits: map<string, Record>, ip: string): Option<Record> {
    if ip in limits then Some(limits[ip]) else None
  }

  class Firewall {
    var rateLimits: map<string, Record>

    constructor ()
      ensures rateLimits == map[]
    {
      rateLimits := map[];
    }

    method IsRateLimited(ip: string, now: int) returns (limited: bool)
      modifies this
      ensures ip in rateLimits && (rateLimits[ip], limited) == Hit(Lookup(old(rateLimits), ip), now)
      ensures rateLimits - {ip} == old(rateLimits) - {ip}
    {
      if ip !in rateLimits {
        rateLimits := rateLimits[ip := Record(1, now)];
        return false;
      }
      var record := rateLimits[ip];
      if now - record.lastRequest > RATE_LIMIT_WINDOW {
        rateLimits := rateLimits[ip := Record(1, now)];
        return false;
      }
      rateLimits := rateLimits[ip := record.(count := record.count + 1)];
      return record.count + 1 > MAX_REQUESTS;
    }
  }

  // ------------------------------------------------------------------------------------------ runs

  /** One address: its counter, the time and the counter start of every request let through. */
  datatype State = State(record: Option<Record>, times: seq<int>, windows: seq<int>, clock: int)

  function Step(s: State, now: int): State {
    var (record, limited) := Hit(s.record, now);
    if limited then s.(record := Some(record), clock := now)
    else State(Some(record), s.times + [now], s.windows + [record.lastRequest], now)
  }

  /** Requests at times that do not decrease. */
  predicate Legal(clock: int, requests: seq<int>)
    decreases |requests|
  {
    requests != [] ==> clock <= requests[0] && Legal(requests[0], requests[1..])
  }

  function Run(s: State, requests: seq<int>): State
    decreases |requests|
  {
    if requests == [] then s else Run(Step(s, requests[0]), requests[1..])
  }

  function Start(clock: int): State { State(None, [], [], clock) }

  /** How many requests of a run were let through in the closed interval of one window. */
  function LetThrough(from: int, clock: int, requests: seq<int>): nat {
    SlidingLimiter.CountIn(Run(Start(clock), requests).times, from, from + RATE_LIMIT_WINDOW + 1)
  }

  ghost predicate Bounded(bound: int) {
    forall from, clock, requests | Legal(clock, requests) :: LetThrough(from, clock, requests) <= bound
  }

  // ------------------------------------------------------------------------------------- invariants

  /** The first request let through by its counter. */
  predicate Opens(windows: seq<int>, i: nat)
    requires i < |windows|
  {
    i == 0 || windows[i - 1] != windows[i]
  }

  /** Each request let through lies in its counter's window; a later counter starts more than a window
      after an earlier one, and its first request is the one that starts it. */
  ghost predicate Windowed(times: seq<int>, windows: seq<int>) {
    && |times| == |windows|
    && (forall i | 0 <= i < |times| :: windows[i] <= times[i] <= windows[i] + RATE_LIMIT_WINDOW)
    && (forall i, j | 0 <= i < j < |times| :: windows[i] == windows[j] || windows[i] + RATE_LIMIT_WINDOW < windows[j])
    && (forall i | 0 <= i < |times| && Opens(windows, i) :: times[i] == windows[i])
  }

  /** No counter lets through more than the maximum. */
  ghost predicate Counted(windows: seq<int>) {
    forall i, j | 0 <= i && i + MAX_REQUESTS <= j < |windows| :: windows[i] != windows[j]
  }

  /** The counter is at least the number let through since it was started. */
  ghost predicate Current(s: State) {
    match s.record
    case None => s.times == []
    case Some(r) =>
      && r.count >= 1 && s.windows != [] && s.windows[|s.windows| - 1] == r.lastRequest <= s.clock
      && forall i | 0 <= i < |s.windows| - r.count :: s.windows[i] != r.lastRequest
  }

  ghost predicate Inv(s: State) {
    && SlidingLimiter.Sorted(s.times) && (forall i | 0 <= i < |s.times| :: s.times[i] <= s.clock)
    && Windowed(s.times, s.windows) && Counted(s.windows) && Current(s)
  }

  lemma AppendWindowed(times: seq<int>, windows: seq<int>, now: int, start: int)
    requires Windowed(times, windows) && start <= now <= start + RATE_LIMIT_WINDOW
    requires (windows != [] && windows[|windows| - 1] == start) || (start == now && Before(windows, now))
    ensures Windowed(times + [now], windows + [start])
  {
    var n, after := |times|, windows + [start];
    forall i, j | 0 <= i < j <= n ensures after[i] == after[j] || after[i] + RATE_LIMIT_WINDOW < after[j] {
      if j == n && i < n - 1 { assert windows[i] == windows[n - 1] || windows[i] + RATE_LIMIT_WINDOW < windows[n - 1]; }
    }
    forall i: nat | i <= n && Opens(after, i) ensures (times + [now])[i] == after[i] {
      if i < n { assert Opens(windows, i); }
    }
  }

  /** Every counter started more than a window ago. */
  ghost predicate Before(windows: seq<int>, now: int) {
    forall i | 0 <= i < |windows| :: windows[i] + RATE_LIMIT_WINDOW < now
  }

  lemma AllBefore(times: seq<int>, windows: seq<int>, now: int)
    requires Windowed(times, windows)
    requires windows != [] ==> windows[|windows| - 1] + RATE_LIMIT_WINDOW < now
    ensures Before(windows, now)
  {
  }

  lemma AppendCounted(windows: seq<int>, now: int)
    requires Counted(windows) && Before(windows, now)
    ensures Counted(windows + [now])
  {
  }

  /** A request that starts a counter. */
  lemma StartKeepsInv(s: State, now: int)
    requires Inv(s) && s.clock <= now && (s.record.Some? ==> now - s.record.value.lastRequest > RATE_LIMIT_WINDOW)
    ensures Inv(State(Some(Record(1, now)), s.times + [now], s.windows + [now], now))
  {
    AllBefore(s.times, s.windows, now);
    hide SlidingLimiter.Sorted, Windowed, Counted;
    AppendSorted(s.times, now);
    AppendWindowed(s.times, s.windows, now, now);
    AppendCounted(s.windows, now);
  }

  /** A request let through by a running counter. */
  lemma JoinKeepsInv(s: State, now: int, r: Record)
    requires Inv(s) && s.clock <= now && s.record == Some(r)
    requires now - r.lastRequest <= RATE_LIMIT_WINDOW && r.count < MAX_REQUESTS
    ensures Inv(State(Some(Record(r.count + 1, r.lastRequest)), s.times + [now], s.windows + [r.lastRequest], now))
  {
    hide SlidingLimiter.Sorted, Windowed;
    AppendSorted(s.times, now);
    var windows := s.windows + [r.lastRequest];
    assert forall i | 0 <= i < |s.windows| :: windows[i] == s.windows[i];
    AppendWindowed(s.times, s.windows, now, r.lastRequest);
  }

  lemma AppendSorted(times: seq<int>, now: int)
    requires SlidingLimiter.Sorted(times) && forall i | 0 <= i < |times| :: times[i] <= now
    ensures SlidingLimiter.Sorted(times + [now]) && forall i | 0 <= i <= |times| :: (times + [now])[i] <= now
  {
  }

  /** A request that a running counter turns away. */
  lemma RefusalKeepsInv(s: State, now: int, r: Record)
    requires Inv(s) && s.clock <= now && s.record == Some(r)
    ensures Inv(s.(record := Some(Record(r.count + 1, r.lastRequest)), clock := now))
  {
  }

  lemma StepKeepsInv(s: State, now: int)
    requires Inv(s) && s.clock <= now
    ensures Inv(Step(s, now))
  {
    hide Inv;
    match s.record
    case None => StartKeepsInv(s, now);
    case Some(r) =>
      if now - r.lastRequest > RATE_LIMIT_WINDOW {
        StartKeepsInv(s, now);
      } else if r.count < MAX_REQUESTS {
        JoinKeepsInv(s, now, r);
      } else {
        RefusalKeepsInv(s, now, r);
      }
  }

  lemma {:induction false} RunKeepsInv(s: State, requests: seq<int>)
    requires Inv(s) && Legal(s.clock, requests)
    ensures Inv(Run(s, requests))
    decreases |requests|
  {
    hide Inv;
    if requests != [] {
      StepKeepsInv(s, requests[0]);
      RunKeepsInv(Step(s, requests[0]), requests[1..]);
    }
  }

  // ----------------------------------------------------------------------------------- main results

  /** Twice the maximum, let through in a row, take more than a window: either the first counter's
      requests are all among them, and then the second counter starts more than a window after the
      first of them, or three counters are involved. */
  lemma TwoFullCounters(times: seq<int>, windows: seq<int>, i: nat)
    requires Windowed(times, windows) && Counted(windows) && i + 2 * MAX_REQUESTS <= |times|
    requires SlidingLimiter.Sorted(times)
    ensures times[i + 2 * MAX_REQUESTS - 1] - times[i] > RATE_LIMIT_WINDOW
  {
    var j, k, l := i + MAX_REQUESTS - 1, i + MAX_REQUESTS, i + 2 * MAX_REQUESTS - 1;
    assert windows[i] != windows[k] && windows[j] != windows[l];
    if windows[i] == windows[j] {
      assert Opens(windows, i);
      assert windows[k] <= times[k] <= times[l];
    }
  }

  lemma AtMost119(from: int, clock: int, requests: seq<int>)
    requires Legal(clock, requests)
    ensures LetThrough(from, clock, requests) <= 2 * MAX_REQUESTS - 1
  {
    hide Run, Legal, SlidingLimiter.CountIn;
    RunKeepsInv(Start(clock), requests);
    var s := Run(Start(clock), requests);
    var lo, hi := SlidingLimiter.CountIsRange(s.times, from, from + RATE_LIMIT_WINDOW + 1);
    if hi - lo >= 2 * MAX_REQUESTS {
      TwoFullCounters(s.times, s.windows, lo);
    }
  }

  /** `n` more requests at one moment are let through while the counter has room. */
  lemma {:induction false} Burst(s: State, n: nat, now: int, from: int) returns (requests: seq<int>)
    requires s.clock <= now && from <= now <= from + RATE_LIMIT_WINDOW
    requires s.record.Some? && now - s.record.value.lastRequest <= RATE_LIMIT_WINDOW
    requires s.record.value.count + n <= MAX_REQUESTS
    ensures Legal(s.clock, requests)
    ensures var t := Run(s, requests); var to := from + RATE_LIMIT_WINDOW + 1;
            && SlidingLimiter.CountIn(t.times, from, to) == SlidingLimiter.CountIn(s.times, from, to) + n
            && t.record == Some(Record(s.record.value.count + n, s.record.value.lastRequest))
            && t.clock == if n == 0 then s.clock else now
    decreases n
  {
    if n == 0 { return []; }
    var t := Step(s, now);
    assert t.times[..|s.times|] == s.times;
    var rest := Burst(t, n - 1, now, from);
    requests := [now] + rest;
    assert requests[1..] == rest;
  }

  lemma {:induction false} RunConcat(s: State, a: seq<int>, b: seq<int>)
    requires Legal(s.clock, a) && Legal(Run(s, a).clock, b)
    ensures Legal(s.clock, a + b) && Run(s, a + b) == Run(Run(s, a), b)
    decreases |a|
  {
    if a == [] {
      assert a + b == b;
    } else {
      assert (a + b)[1..] == a[1..] + b;
      RunConcat(Step(s, a[0]), a[1..], b);
    }
  }

  /** One request starts a counter, the rest of its share comes a window later, and one millisecond
      after that the next counter starts with its full share. */
  lemma Reaches119() returns (requests: seq<int>)
    ensures Legal(0, requests) && LetThrough(1, 0, requests) == 2 * MAX_REQUESTS - 1
  {
    var s := Step(Start(0), 0);
    assert [0][..0] == [];
    assert SlidingLimiter.CountIn(s.times, 1, RATE_LIMIT_WINDOW + 2) == 0;
    var first := Burst(s, MAX_REQUESTS - 1, RATE_LIMIT_WINDOW, 1);
    var t := Run(s, first);
    var u := Step(t, RATE_LIMIT_WINDOW + 1);
    assert u.times[..|t.times|] == t.times;
    var second := Burst(u, MAX_REQUESTS - 1, RATE_LIMIT_WINDOW + 1, 1);
    var after := [RATE_LIMIT_WINDOW + 1] + second;
    assert after[1..] == second;
    RunConcat(s, first, after);
    requests := [0] + (first + after);
    assert requests[1..] == first + after;
  }

  /** The least number that bounds the requests let through in every closed interval of one window is
      119, one short of two full counters. */
  lemma BoundedExactly(bound: int)
    ensures Bounded(bound) <==> bound >= 2 * MAX_REQUESTS - 1
  {
    hide Legal, LetThrough;
    var requests := Reaches119();
    if bound >= 2 * MAX_REQUESTS - 1 {
      forall from, clock, other | Legal(clock, other) ensures LetThrough(from, clock, other) <= bound {
        AtMost119(from, clock, other);
      }
    }
  }

  /** A counter lets through at most the maximum. */
  lemma AtMostMaxPerCounter(clock: int, requests: seq<int>, i: nat, j: nat)
    requires Legal(clock, requests) && i <= j < |Run(Start(clock), requests).windows|
    requires Run(Start(clock), requests).windows[i] == Run(Start(clock), requests).windows[j]
    ensures j - i < MAX_REQUESTS
  {
    RunKeepsInv(Start(clock), requests);
  }
}
