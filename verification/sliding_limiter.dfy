/** The access policy engine's rate limiter: a pruned list of accepted times per key, kept in a store
    that forgets it some time after it was written. Times are in milliseconds. */
module SlidingLimiter {
  datatype Limit = Limit(requests: int, perSeconds: nat)

  function Window(limit: Limit): nat { limit.perSeconds * 1000 }

  /** One key in one store: its list (empty when there is no entry) and the times at which a deletion falls
      due. */
  datatype Slot = Slot(stamps: seq<int>, deadlines: multiset<int>)

  const EMPTY := Slot([], multiset{})

  /** One key in the shared store, and in the memory of the process, which a call falls back to when the
      shared store is not there or throws. */
  datatype Slots = Slots(shared: Slot, memory: Slot)

  /** Where the write of one check goes: to the shared store, to memory because the shared store refused it,
      or to both because the shared store's answer was lost. */
  datatype Write = ToShared | ToMemory | ToBoth

  /** What the calls of one check meet: whether the read reaches the shared store, and where the write
      goes. */
  datatype Reach = Reach(read: bool, write: Write)

  /** The times less than a window old. */
  function Recent(stamps: seq<int>, now: int, window: int): seq<int> {
    if stamps == [] then []
    else (if now - stamps[0] < window then [stamps[0]] else []) + Recent(stamps[1..], now, window)
  }

  /** A write with a time to live; a zero time to live sets no deadline. The shared store replaces the
      deadline at every write, memory starts one more deletion timer and cancels none. */
  function Due(now: int, limit: Limit): multiset<int> {
    if limit.perSeconds == 0 then multiset{} else multiset{now + Window(limit)}
  }

  function Written(slots: Slots, stamps: seq<int>, now: int, limit: Limit, write: Write): Slots {
    Slots(if write.ToMemory? then slots.shared else Slot(stamps, Due(now, limit)),
          if write.ToShared? then slots.memory else Slot(stamps, slots.memory.deadlines + Due(now, limit)))
  }

  function StampsRead(slots: Slots, reach: Reach): seq<int> {
    if reach.read then slots.shared.stamps else slots.memory.stamps
  }

  function Check(slots: Slots, now: int, limit: Limit, reach: Reach): (Slots, bool) {
    var recent := Recent(StampsRead(slots, reach), now, Window(limit));
    if |recent| >= limit.requests then (slots, false)
    else (Written(slots, recent + [now], now, limit, reach.write), true)
  }

  function Dropped(slot: Slot, due: int): Slot { Slot([], slot.deadlines - multiset{due}) }

  function Lookup(slots: map<string, Slot>, key: string): Slot { if key in slots then slots[key] else EMPTY }

  class Limiter {
    var shared: map<string, Slot>
    var memory: map<string, Slot>

    constructor ()
      ensures shared == map[] && memory == map[]
    {
      shared, memory := map[], map[];
    }

    function At(key: string): Slots
      reads this
    {
      Slots(Lookup(shared, key), Lookup(memory, key))
    }

    /** A store carries out a deletion that has fallen due. */
    method Expire(key: string, inMemory: bool, due: int, now: int)
      requires due in (if inMemory then At(key).memory else At(key).shared).deadlines && due <= now
      modifies this
      ensures At(key) == if inMemory then old(At(key)).(memory := Dropped(old(At(key)).memory, due))
                         else old(At(key)).(shared := Dropped(old(At(key)).shared, due))
      ensures forall k | k != key :: At(k) == old(At(k))
    {
      if inMemory {
        memory := memory[key := Slot([], Lookup(memory, key).deadlines - multiset{due})];
      } else {
        shared := shared[key := Slot([], Lookup(shared, key).deadlines - multiset{due})];
      }
    }

    method Get(key: string, read: bool) returns (stamps: seq<int>)
      ensures stamps == if read then At(key).shared.stamps else At(key).memory.stamps
    {
      return if read then Lookup(shared, key).stamps else Lookup(memory, key).stamps;
    }

    method Set(key: string, stamps: seq<int>, limit: Limit, now: int, write: Write)
      modifies this
      ensures At(key) == Written(old(At(key)), stamps, now, limit, write)
      ensures forall k | k != key :: At(k) == old(At(k))
    {
      var due := if limit.perSeconds != 0 then multiset{now + limit.perSeconds * 1000} else multiset{};
      if write != ToMemory { shared := shared[key := Slot(stamps, due)]; }
      if write != ToShared { memory := memory[key := Slot(stamps, Lookup(memory, key).deadlines + due)]; }
    }

    method CheckRateLimit(key: string, limit: Limit, now: int, reach: Reach) returns (allowed: bool)
      modifies this
      ensures (At(key), allowed) == Check(old(At(key)), now, limit, reach)
      ensures forall k | k != key :: At(k) == old(At(k))
    {
      var window := limit.perSeconds * 1000;
      var timestamps := Get(key, reach.read);
      timestamps := Recent(timestamps, now, window);
      if |timestamps| >= limit.requests { return false; }
      timestamps := timestamps + [now];
      Set(key, timestamps, limit, now, reach.write);
      return true;
    }
  }

  // ------------------------------------------------------------------------------------------ runs

  /** What happens to one key: a check, or a deletion that has fallen due in one of the stores. */
  datatype Event = Request(time: int, reach: Reach) | Deletion(time: int, inMemory: bool, due: int)

  /** The key's slots, every time accepted since the beginning, and the time of the last event. */
  datatype State = State(slots: Slots, accepted: seq<int>, clock: int)

  predicate Possible(s: State, e: Event) {
    && s.clock <= e.time
    && (e.Deletion? ==> e.due in (if e.inMemory then s.slots.memory else s.slots.shared).deadlines && e.due <= e.time)
  }

  function Step(s: State, e: Event, limit: Limit): State {
    match e
    case Deletion(time, inMemory, due) =>
      State(if inMemory then s.slots.(memory := Dropped(s.slots.memory, due))
            else s.slots.(shared := Dropped(s.slots.shared, due)), s.accepted, time)
    case Request(time, reach) =>
      var (slots, ok) := Check(s.slots, time, limit, reach);
      State(slots, if ok then s.accepted + [time] else s.accepted, time)
  }

  predicate Legal(s: State, events: seq<Event>, limit: Limit)
    decreases |events|
  {
    events != [] ==> Possible(s, events[0]) && Legal(Step(s, events[0], limit), events[1..], limit)
  }

  function Run(s: State, events: seq<Event>, limit: Limit): State
    decreases |events|
  {
    if events == [] then s else Run(Step(s, events[0], limit), events[1..], limit)
  }

  function Start(clock: int): State { State(Slots(EMPTY, EMPTY), [], clock) }

  /** No read, or no write, misses the shared store unless it is allowed to. */
  predicate Misses(events: seq<Event>, missReads: bool, missWrites: bool) {
    forall e | e in events && e.Request? :: (e.reach.read || missReads) && (!e.reach.write.ToMemory? || missWrites)
  }

  /** How many of the times lie in [from, to). */
  function CountIn(a: seq<int>, from: int, to: int): nat {
    if a == [] then 0 else CountIn(a[..|a| - 1], from, to) + (if from <= a[|a| - 1] < to then 1 else 0)
  }

  /** How many times of a run lie in the window that begins at `from`. */
  function AcceptedFrom(from: int, clock: int, events: seq<Event>, limit: Limit): nat {
    CountIn(Run(Start(clock), events, limit).accepted, from, from + limit.perSeconds * 1000)
  }

  // ------------------------------------------------------------------------------------- invariants

  ghost predicate Sorted(a: seq<int>) { forall i, j | 0 <= i < j < |a| :: a[i] <= a[j] }

  /** The stored times end the accepted ones, and the others are too old to matter. */
  ghost predicate Covers(s: State, limit: Limit) {
    var cut := |s.accepted| - |s.slots.shared.stamps|;
    cut >= 0 && s.accepted[cut..] == s.slots.shared.stamps && forall i | 0 <= i < cut :: s.clock - s.accepted[i] >= Window(limit)
  }

  /** A deletion falls due only when every stored time is a window old. */
  ghost predicate DeletesLate(slot: Slot, limit: Limit) {
    forall due, i | due in slot.deadlines && 0 <= i < |slot.stamps| :: due - slot.stamps[i] >= Window(limit)
  }

  /** Accepted times `requests` places apart are at least a window apart. */
  ghost predicate Spaced(a: seq<int>, limit: Limit) {
    forall i, j | 0 <= i < j < |a| && i + limit.requests <= j :: a[j] - a[i] >= Window(limit)
  }

  ghost predicate Inv(s: State, limit: Limit) {
    && Sorted(s.accepted) && (forall i | 0 <= i < |s.accepted| :: s.accepted[i] <= s.clock)
    && Covers(s, limit) && DeletesLate(s.slots.shared, limit) && Spaced(s.accepted, limit)
  }

  lemma {:induction false} RecentConcat(a: seq<int>, b: seq<int>, now: int, window: int)
    ensures Recent(a + b, now, window) == Recent(a, now, window) + Recent(b, now, window)
  {
    if a == [] {
      assert a + b == b;
    } else {
      assert (a + b)[1..] == a[1..] + b;
      RecentConcat(a[1..], b, now, window);
    }
  }

  lemma {:induction false} RecentOfStale(a: seq<int>, now: int, window: int)
    requires forall i | 0 <= i < |a| :: now - a[i] >= window
    ensures Recent(a, now, window) == []
  {
    if a != [] { RecentOfStale(a[1..], now, window); }
  }

  lemma {:induction false} RecentOfRecent(a: seq<int>, now: int, window: int)
    requires forall i | 0 <= i < |a| :: now - a[i] < window
    ensures Recent(a, now, window) == a
  {
    if a != [] { RecentOfRecent(a[1..], now, window); }
  }

  /** The recent times are those of the last window. */
  lemma {:induction false} RecentCounts(a: seq<int>, now: int, window: int)
    requires forall i | 0 <= i < |a| :: a[i] <= now
    ensures |Recent(a, now, window)| == CountIn(a, now - window + 1, now + 1)
  {
    if a != [] {
      var n := |a| - 1;
      RecentCounts(a[..n], now, window);
      RecentConcat(a[..n], [a[n]], now, window);
      assert a == a[..n] + [a[n]] && [a[n]][1..] == [];
    }
  }

  /** In a sorted list the recent times are the end of the list. */
  lemma {:induction false} RecentIsSuffix(a: seq<int>, now: int, window: int)
    requires Sorted(a)
    ensures var recent := Recent(a, now, window);
            && |recent| <= |a| && recent == a[|a| - |recent|..]
            && forall i | 0 <= i < |a| - |recent| :: now - a[i] >= window
  {
    if a != [] {
      if now - a[0] < window {
        RecentOfRecent(a, now, window);
      } else {
        RecentIsSuffix(a[1..], now, window);
        assert forall i | 1 <= i < |a| :: a[i] == a[1..][i - 1];
      }
    }
  }

  /** What the store still holds gives the same recent times as the full list. */
  lemma SameRecent(s: State, now: int, limit: Limit)
    requires Inv(s, limit) && s.clock <= now
    ensures Recent(s.slots.shared.stamps, now, Window(limit)) == Recent(s.accepted, now, Window(limit))
  {
    var past := s.accepted[..|s.accepted| - |s.slots.shared.stamps|];
    assert s.accepted == past + s.slots.shared.stamps;
    RecentConcat(past, s.slots.shared.stamps, now, Window(limit));
    RecentOfStale(past, now, Window(limit));
  }

  /** The end of a list of times, of which those before are at least a window older than `now`. */
  ghost predicate Rest(a: seq<int>, recent: seq<int>, now: int, limit: Limit) {
    && |recent| <= |a| && recent == a[|a| - |recent|..]
    && forall i | 0 <= i < |a| - |recent| :: now - a[i] >= Window(limit)
  }

  lemma AppendSpaced(a: seq<int>, recent: seq<int>, now: int, limit: Limit)
    requires Spaced(a, limit) && Rest(a, recent, now, limit) && |recent| < limit.requests
    ensures Spaced(a + [now], limit)
  {
  }

  lemma AppendSorted(a: seq<int>, now: int)
    requires Sorted(a) && forall i | 0 <= i < |a| :: a[i] <= now
    ensures Sorted(a + [now])
  {
  }

  lemma AppendCovers(s: State, t: State, recent: seq<int>, now: int, limit: Limit)
    requires Rest(s.accepted, recent, now, limit) && now <= t.clock
    requires t.accepted == s.accepted + [now] && t.slots.shared.stamps == recent + [now]
    ensures Covers(t, limit)
  {
    var cut := |s.accepted| - |recent|;
    assert t.accepted[cut..] == t.slots.shared.stamps;
  }

  /** One more accepted time, of a check that read the list at that time and writes it now. */
  lemma AppendKeepsInv(s: State, t: State, recent: seq<int>, now: int, limit: Limit)
    requires Inv(s, limit) && now <= t.clock && |recent| < limit.requests && Rest(s.accepted, recent, now, limit)
    requires forall i | 0 <= i < |s.accepted| :: s.accepted[i] <= now
    requires t.accepted == s.accepted + [now] && t.slots.shared.stamps == recent + [now]
    requires t.slots.shared.deadlines <= multiset{t.clock + Window(limit)}
    ensures Inv(t, limit)
  {
    hide Spaced, Sorted, Covers;
    AppendSpaced(s.accepted, recent, now, limit);
    AppendSorted(s.accepted, now);
    AppendCovers(s, t, recent, now, limit);
    assert forall due | due in t.slots.shared.deadlines :: due == t.clock + Window(limit);
    assert forall i | 0 <= i < |recent| :: recent[i] <= now;
  }

  lemma LaterKeepsInv(s: State, now: int, limit: Limit)
    requires Inv(s, limit) && s.clock <= now
    ensures Inv(s.(clock := now), limit)
  {
  }

  lemma DeletionKeepsInv(s: State, time: int, inMemory: bool, due: int, limit: Limit)
    requires Inv(s, limit) && Possible(s, Deletion(time, inMemory, due))
    ensures Inv(Step(s, Deletion(time, inMemory, due), limit), limit)
  {
    if !inMemory {
      var cut := |s.accepted| - |s.slots.shared.stamps|;
      forall i | cut <= i < |s.accepted| ensures time - s.accepted[i] >= Window(limit) {
        assert s.accepted[i] == s.slots.shared.stamps[i - cut];
      }
    }
  }

  // ------------------------------------------------------------------------------------ counting in windows

  /** The times of a sorted list in an interval stand next to each other. */
  lemma {:induction false} CountIsRange(a: seq<int>, from: int, to: int) returns (lo: nat, hi: nat)
    requires Sorted(a) && from <= to
    ensures lo <= hi <= |a| && hi - lo == CountIn(a, from, to)
    ensures forall i | lo <= i < hi :: from <= a[i] < to
    ensures forall i | 0 <= i < lo :: a[i] < from
    ensures forall i | hi <= i < |a| :: a[i] >= to
    decreases |a|
  {
    if a == [] { return 0, 0; }
    var n := |a| - 1;
    lo, hi := CountIsRange(a[..n], from, to);
    if a[n] < from {
      lo, hi := n + 1, n + 1;
    } else if a[n] < to {
      hi := n + 1;
    }
  }

  lemma CountOne(a: seq<int>, stamp: int, from: int, to: int)
    ensures CountIn(a + [stamp], from, to) == CountIn(a, from, to) + if from <= stamp < to then 1 else 0
  {
    assert (a + [stamp])[..|a|] == a;
  }

  lemma Crowded(a: seq<int>, limit: Limit, from: int) returns (i: nat)
    requires Sorted(a) && limit.requests > 0 && CountIn(a, from, from + Window(limit)) > limit.requests
    ensures i + limit.requests < |a| && a[i + limit.requests] - a[i] < Window(limit)
  {
    var lo, hi := CountIsRange(a, from, from + Window(limit));
    i := lo;
  }

  lemma StartInv(clock: int, limit: Limit)
    ensures Inv(Start(clock), limit)
  {
  }

  lemma {:induction false} NoneWithin(a: seq<int>, from: int)
    ensures CountIn(a, from, from) == 0
  {
    if a != [] { NoneWithin(a[..|a| - 1], from); }
  }

  lemma NoneIn(from: int, to: int)
    ensures CountIn([], from, to) == 0
  {
  }

  // ------------------------------------------------------------------------------- runs that pass the limit

  const SHARED := Reach(true, ToShared)
  const MEMORY := Reach(false, ToMemory)

  /** `n` more checks at one moment in one store are all accepted while there is room for them. */
  lemma {:induction false} Burst(s: State, n: nat, now: int, limit: Limit, reach: Reach) returns (events: seq<Event>)
    requires reach == SHARED || reach == MEMORY
    requires s.clock <= now && |StampsRead(s.slots, reach)| + n <= limit.requests && limit.perSeconds > 0
    requires forall i | 0 <= i < |StampsRead(s.slots, reach)| :: StampsRead(s.slots, reach)[i] == now
    ensures Legal(s, events, limit) && forall e | e in events :: e == Request(now, reach)
    ensures var t := Run(s, events, limit);
            && CountIn(t.accepted, now, now + Window(limit)) == CountIn(s.accepted, now, now + Window(limit)) + n
            && t.clock <= now && (reach == SHARED ==> t.slots.memory == s.slots.memory)
            && |StampsRead(t.slots, reach)| == |StampsRead(s.slots, reach)| + n
            && forall i | 0 <= i < |StampsRead(t.slots, reach)| :: StampsRead(t.slots, reach)[i] == now
    decreases n
  {
    if n == 0 { return []; }
    var t := Step(s, Request(now, reach), limit);
    RecentOfRecent(StampsRead(s.slots, reach), now, Window(limit));
    assert t.accepted[..|s.accepted|] == s.accepted;
    var rest := Burst(t, n - 1, now, limit, reach);
    events := [Request(now, reach)] + rest;
    assert events[1..] == rest;
  }

  lemma FirstEvent(s: State, e: Event, rest: seq<Event>, limit: Limit)
    requires Possible(s, e) && Legal(Step(s, e, limit), rest, limit)
    ensures Legal(s, [e] + rest, limit) && Run(s, [e] + rest, limit) == Run(Step(s, e, limit), rest, limit)
  {
    assert ([e] + rest)[1..] == rest;
  }

  lemma {:induction false} LastEvent(s: State, events: seq<Event>, e: Event, limit: Limit)
    requires Legal(s, events, limit) && Possible(Run(s, events, limit), e)
    ensures Legal(s, events + [e], limit) && Run(s, events + [e], limit) == Step(Run(s, events, limit), e, limit)
    decreases |events|
  {
    hide Step, Possible;
    if events == [] {
      assert events + [e] == [e] + [];
      FirstEvent(s, e, [], limit);
    } else {
      LastEvent(Step(s, events[0], limit), events[1..], e, limit);
      assert events + [e] == [events[0]] + (events[1..] + [e]);
      FirstEvent(s, events[0], events[1..] + [e], limit);
    }
  }

  const MISSED_READ := Request(0, Reach(false, ToShared))

  lemma MissedReadAccepts(s: State, limit: Limit)
    requires s.slots.memory == EMPTY && limit.requests > 0
    ensures Step(s, MISSED_READ, limit).accepted == s.accepted + [0]
  {
  }

  lemma FullBurst(limit: Limit) returns (full: seq<Event>)
    requires limit.requests > 0 && limit.perSeconds > 0
    ensures Legal(Start(0), full, limit) && forall e | e in full :: e == Request(0, SHARED)
    ensures var s := Run(Start(0), full, limit);
            s.slots.memory == EMPTY && s.clock <= 0 && CountIn(s.accepted, 0, 0 + Window(limit)) == limit.requests
  {
    NoneIn(0, 0 + Window(limit));
    hide Run, Legal, CountIn, Window;
    full := Burst(Start(0), limit.requests, 0, limit, SHARED);
  }

  /** One read that misses the full list in the shared store accepts one request too many. */
  lemma MissedReadExceeds(limit: Limit) returns (full: seq<Event>, events: seq<Event>)
    requires limit.requests > 0 && limit.perSeconds > 0
    ensures Legal(Start(0), events, limit) && Misses(events, true, false)
    ensures events == full + [MISSED_READ] && forall e | e in full :: e == Request(0, SHARED)
    ensures AcceptedFrom(0, 0, events, limit) == limit.requests + 1
  {
    hide Run, Legal, Step, Start, CountIn;
    full := FullBurst(limit);
    var s := Run(Start(0), full, limit);
    events := full + [MISSED_READ];
    LastEvent(Start(0), full, MISSED_READ, limit);
    MissedReadAccepts(s, limit);
    CountOne(s.accepted, 0, 0, 0 + Window(limit));
  }

  const MISSED_WRITE := Request(0, Reach(true, ToMemory))

  lemma BurstAfterMissedWrite(limit: Limit) returns (full: seq<Event>)
    requires limit.requests > 0 && limit.perSeconds > 0
    ensures var s := Step(Start(0), MISSED_WRITE, limit);
            Legal(s, full, limit) && CountIn(Run(s, full, limit).accepted, 0, 0 + Window(limit)) == limit.requests + 1
    ensures forall e | e in full :: e == Request(0, SHARED)
  {
    hide *;
    OneAccepted(limit);
    full := Burst(Step(Start(0), MISSED_WRITE, limit), limit.requests, 0, limit, SHARED);
  }

  /** One write that misses the shared store is not counted against the requests that follow. */
  lemma MissedWriteExceeds(limit: Limit) returns (full: seq<Event>, events: seq<Event>)
    requires limit.requests > 0 && limit.perSeconds > 0
    ensures Legal(Start(0), events, limit) && Misses(events, false, true)
    ensures events == [MISSED_WRITE] + full && forall e | e in full :: e == Request(0, SHARED)
    ensures AcceptedFrom(0, 0, events, limit) == limit.requests + 1
  {
    assert Possible(Start(0), MISSED_WRITE);
    hide Run, Legal, Step, CountIn, Window, Possible;
    full := BurstAfterMissedWrite(limit);
    events := [MISSED_WRITE] + full;
    FirstEvent(Start(0), MISSED_WRITE, full, limit);
  }

  lemma OneAccepted(limit: Limit)
    requires limit.requests > 0 && limit.perSeconds > 0
    ensures var s := Step(Start(0), MISSED_WRITE, limit);
            && StampsRead(s.slots, SHARED) == [] && s.clock == 0 && CountIn(s.accepted, 0, 0 + Window(limit)) == 1
  {
    assert [0][..0] == [];
    NoneIn(0, Window(limit));
  }

  /** With no shared store at all, a timer left over from an earlier write deletes later times: one request,
      another a window later, the first one's timer, and then a full burst. */
  lemma MemoryExceeds(limit: Limit) returns (events: seq<Event>)
    requires limit.requests > 0 && limit.perSeconds > 0
    ensures Legal(Start(0), events, limit)
    ensures forall e | e in events && e.Request? :: e.reach == MEMORY
    ensures AcceptedFrom(Window(limit), 0, events, limit) == limit.requests + 1
  {
    hide CountIn, Run, Legal, Step;
    var w := Window(limit);
    var s := State(Slots(EMPTY, Slot([], multiset{w + w})), [0, w], w);
    OneOfTwo(w);
    var rest := Burst(s, limit.requests, w, limit, MEMORY);
    events := [Request(0, MEMORY), Request(w, MEMORY), Deletion(w, true, w)] + rest;
    Leftover(rest, limit);
  }

  lemma OneOfTwo(w: int)
    requires w > 0
    ensures CountIn([0, w], w, w + w) == 1
  {
    assert [0, w][..1] == [0];
    assert CountIn([0], w, w + w) == 0;
  }

  lemma FirstInMemory(limit: Limit)
    requires limit.requests > 0 && limit.perSeconds > 0
    ensures Step(Start(0), Request(0, MEMORY), limit) == State(Slots(EMPTY, Slot([0], multiset{Window(limit)})), [0], 0)
  {
  }

  lemma SecondInMemory(limit: Limit)
    requires limit.requests > 0 && limit.perSeconds > 0
    ensures var w := Window(limit);
            Step(State(Slots(EMPTY, Slot([0], multiset{w})), [0], 0), Request(w, MEMORY), limit)
            == State(Slots(EMPTY, Slot([w], multiset{w, w + w})), [0, w], w)
  {
    var w := Window(limit);
    RecentOfStale([0], w, w);
    hide Recent;
    assert multiset{w} + multiset{w + w} == multiset{w, w + w};
  }

  lemma TimerFires(limit: Limit)
    requires limit.perSeconds > 0
    ensures var w := Window(limit); var s := State(Slots(EMPTY, Slot([w], multiset{w, w + w})), [0, w], w);
            Step(s, Deletion(w, true, w), limit) == State(Slots(EMPTY, Slot([], multiset{w + w})), [0, w], w)
  {
    var w := Window(limit);
    assert multiset{w, w + w} - multiset{w} == multiset{w + w};
  }

  lemma Leftover(rest: seq<Event>, limit: Limit)
    requires limit.requests > 0 && limit.perSeconds > 0
    requires var w := Window(limit); Legal(State(Slots(EMPTY, Slot([], multiset{w + w})), [0, w], w), rest, limit)
    ensures var w := Window(limit);
            var events := [Request(0, MEMORY), Request(w, MEMORY), Deletion(w, true, w)] + rest;
            && Legal(Start(0), events, limit)
            && Run(Start(0), events, limit) == Run(State(Slots(EMPTY, Slot([], multiset{w + w})), [0, w], w), rest, limit)
  {
    var w := Window(limit);
    var s1 := State(Slots(EMPTY, Slot([0], multiset{w})), [0], 0);
    var s2 := State(Slots(EMPTY, Slot([w], multiset{w, w + w})), [0, w], w);
    var s3 := State(Slots(EMPTY, Slot([], multiset{w + w})), [0, w], w);
    var e0, e1, e2 := Request(0, MEMORY), Request(w, MEMORY), Deletion(w, true, w);
    FirstInMemory(limit);
    SecondInMemory(limit);
    TimerFires(limit);
    assert Possible(Start(0), e0) && Possible(s1, e1) && Possible(s2, e2);
    hide *;
    FirstEvent(s2, e2, rest, limit);
    FirstEvent(s1, e1, [e2] + rest, limit);
    FirstEvent(Start(0), e0, [e1] + ([e2] + rest), limit);
    assert [e0] + ([e1] + ([e2] + rest)) == [e0, e1, e2] + rest;
  }
}
