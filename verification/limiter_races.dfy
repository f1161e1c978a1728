/** The sliding limiter with any number of checks of one key at work at the same time: a check reads the list in one
    step, and writes it back in a later one. */
module LimiterRaces {
  import S = SlidingLimiter

  type Worker = nat

  /** A check that is about to write: when it read the list, and what it kept of it. */
  datatype Pending = Pending(now: int, recent: seq<int>)

  datatype State = State(core: S.State, pending: map<Worker, Pending>)

  datatype Event =
    | Read(worker: Worker, time: int, shared: bool)
    | Write(worker: Worker, time: int, write: S.Write)
    | Crash(worker: Worker, time: int)
    | Deletion(time: int, inMemory: bool, due: int)

  predicate Possible(s: State, e: Event) {
    && s.core.clock <= e.time
    && match e
       case Read(w, _, _) => w !in s.pending
       case Write(w, _, _) => w in s.pending
       case Crash(w, _) => w in s.pending
       case Deletion(time, inMemory, due) => S.Possible(s.core, S.Deletion(time, inMemory, due))
  }

  function AfterRead(s: State, w: Worker, time: int, shared: bool, limit: S.Limit): State {
    var recent := S.Recent(S.StampsRead(s.core.slots, S.Reach(shared, S.ToShared)), time, S.Window(limit));
    State(s.core.(clock := time), if |recent| >= limit.requests then s.pending else s.pending[w := Pending(time, recent)])
  }

  function AfterWrite(s: State, w: Worker, time: int, write: S.Write, limit: S.Limit): State
    requires w in s.pending
  {
    var p := s.pending[w];
    State(S.State(S.Written(s.core.slots, p.recent + [p.now], time, limit, write), s.core.accepted + [p.now], time), s.pending - {w})
  }

  function Step(s: State, e: Event, limit: S.Limit): State
    requires Possible(s, e)
  {
    match e
    case Read(w, time, shared) => AfterRead(s, w, time, shared, limit)
    case Write(w, time, write) => AfterWrite(s, w, time, write, limit)
    case Crash(w, time) => State(s.core.(clock := time), s.pending - {w})
    case Deletion(time, inMemory, due) => s.(core := S.Step(s.core, S.Deletion(time, inMemory, due), limit))
  }

  predicate Legal(s: State, events: seq<Event>, limit: S.Limit)
    decreases |events|
  {
    events != [] ==> Possible(s, events[0]) && Legal(Step(s, events[0], limit), events[1..], limit)
  }

  function Run(s: State, events: seq<Event>, limit: S.Limit): State
    requires Legal(s, events, limit)
    decreases |events|
  {
    if events == [] then s else Run(Step(s, events[0], limit), events[1..], limit)
  }

  function Start(clock: int): State { State(S.Start(clock), map[]) }

  /** What may go wrong: a read or a write that misses the shared store, and a read while another check is between
      its read and its write. */
  datatype Lapse = MissedRead | MissedWrite | Overlap

  predicate Happens(s: State, e: Event, lapse: Lapse) {
    match lapse
    case MissedRead => e.Read? && !e.shared
    case MissedWrite => e.Write? && e.write.ToMemory?
    case Overlap => e.Read? && s.pending != map[]
  }

  predicate Within(s: State, events: seq<Event>, limit: S.Limit, allowed: set<Lapse>)
    requires Legal(s, events, limit)
    decreases |events|
  {
    events != [] ==>
      && (forall lapse: Lapse | Happens(s, events[0], lapse) :: lapse in allowed)
      && Within(Step(s, events[0], limit), events[1..], limit, allowed)
  }

  // --------------------------------------------------------------------------------------------- the invariant

  /** The one check at work kept the accepted times less than a window old. */
  ghost predicate Kept(s: State, p: Pending, limit: S.Limit) {
    var accepted := s.core.accepted;
    && p.now <= s.core.clock && |p.recent| < limit.requests && (forall i | 0 <= i < |accepted| :: accepted[i] <= p.now)
    && S.Rest(accepted, p.recent, p.now, limit)
  }

  ghost predicate Inv(s: State, limit: S.Limit) {
    && S.Inv(s.core, limit)
    && (forall w, v | w in s.pending && v in s.pending :: w == v)
    && (forall w | w in s.pending :: Kept(s, s.pending[w], limit))
  }

  lemma ReadKeepsInv(s: State, w: Worker, time: int, limit: S.Limit)
    requires Inv(s, limit) && s.core.clock <= time && s.pending == map[]
    ensures Inv(AfterRead(s, w, time, true, limit), limit)
  {
    hide S.Inv, S.Recent;
    S.LaterKeepsInv(s.core, time, limit);
    S.SameRecent(s.core, time, limit);
    SortedAndPast(s.core, limit);
    S.RecentIsSuffix(s.core.accepted, time, S.Window(limit));
  }

  lemma SortedAndPast(s: S.State, limit: S.Limit)
    requires S.Inv(s, limit)
    ensures S.Sorted(s.accepted) && forall i | 0 <= i < |s.accepted| :: s.accepted[i] <= s.clock
  {
  }

  lemma WriteKeepsInv(s: State, w: Worker, time: int, write: S.Write, limit: S.Limit)
    requires Inv(s, limit) && w in s.pending && s.core.clock <= time && !write.ToMemory?
    ensures Inv(AfterWrite(s, w, time, write, limit), limit)
  {
    hide S.Inv;
    var p, t := s.pending[w], AfterWrite(s, w, time, write, limit);
    S.AppendKeepsInv(s.core, t.core, p.recent, p.now, limit);
    assert t.pending == map[];
  }

  lemma StepKeepsInv(s: State, e: Event, limit: S.Limit)
    requires Inv(s, limit) && Possible(s, e) && forall lapse: Lapse :: !Happens(s, e, lapse)
    ensures Inv(Step(s, e, limit), limit)
  {
    assert !Happens(s, e, MissedRead) && !Happens(s, e, MissedWrite) && !Happens(s, e, Overlap);
    match e
    case Read(w, time, _) => ReadKeepsInv(s, w, time, limit);
    case Write(w, time, write) => WriteKeepsInv(s, w, time, write, limit);
    case Crash(_, time) =>
      S.LaterKeepsInv(s.core, time, limit);
      hide S.Inv;
    case Deletion(time, inMemory, due) =>
      S.DeletionKeepsInv(s.core, time, inMemory, due, limit);
      hide S.Inv;
  }

  lemma {:induction false} RunKeepsInv(s: State, events: seq<Event>, limit: S.Limit)
    requires Inv(s, limit) && Legal(s, events, limit) && Within(s, events, limit, {})
    ensures Inv(Run(s, events, limit), limit)
    decreases |events|
  {
    hide Inv, Step, Possible, Happens;
    if events != [] {
      StepKeepsInv(s, events[0], limit);
      RunKeepsInv(Step(s, events[0], limit), events[1..], limit);
    }
  }

  // -------------------------------------------------------------------------------------------- main results

  lemma StartInv(clock: int, limit: S.Limit)
    ensures Inv(Start(clock), limit)
  {
    S.StartInv(clock, limit);
  }

  /** In every run without lapses, the pruned and expiring list decides every read as the full list of accepted times
      would: a check is allowed exactly when fewer than `requests` of them lie in the window that ends with it. */
  lemma DecidesAsFullLog(clock: int, events: seq<Event>, now: int, limit: S.Limit)
    requires Legal(Start(clock), events, limit) && Within(Start(clock), events, limit, {})
    requires Run(Start(clock), events, limit).core.clock <= now
    ensures var s := Run(Start(clock), events, limit).core;
            S.Check(s.slots, now, limit, S.SHARED).1
            <==> S.CountIn(s.accepted, now - limit.perSeconds * 1000 + 1, now + 1) < limit.requests
  {
    hide Run, Legal, Within, S.Recent, S.CountIn;
    StartInv(clock, limit);
    RunKeepsInv(Start(clock), events, limit);
    S.SameRecent(Run(Start(clock), events, limit).core, now, limit);
    SortedAndPast(Run(Start(clock), events, limit).core, limit);
    S.RecentCounts(Run(Start(clock), events, limit).core.accepted, now, S.Window(limit));
  }

  /** How many times of a run lie in the window that begins at `from`. */
  function AcceptedFrom(from: int, clock: int, events: seq<Event>, limit: S.Limit): nat
    requires Legal(Start(clock), events, limit)
  {
    S.CountIn(Run(Start(clock), events, limit).core.accepted, from, from + limit.perSeconds * 1000)
  }

  /** In every run with no other lapses, every half-open interval of one window holds at most `requests` accepted
      times. */
  ghost predicate Limits(limit: S.Limit, allowed: set<Lapse>) {
    forall from, clock, events | Legal(Start(clock), events, limit) && Within(Start(clock), events, limit, allowed) ::
      AcceptedFrom(from, clock, events, limit) <= if limit.requests < 0 then 0 else limit.requests
  }

  lemma WithoutLapses(from: int, clock: int, events: seq<Event>, limit: S.Limit)
    requires Legal(Start(clock), events, limit) && Within(Start(clock), events, limit, {}) && limit.requests > 0
    ensures AcceptedFrom(from, clock, events, limit) <= limit.requests
  {
    hide Run, Legal, Within, Start;
    StartInv(clock, limit);
    RunKeepsInv(Start(clock), events, limit);
    hide S.CountIn, S.Sorted, S.Covers, S.DeletesLate;
    if AcceptedFrom(from, clock, events, limit) > limit.requests {
      var i := S.Crowded(Run(Start(clock), events, limit).core.accepted, limit, from);
    }
  }

  lemma {:induction false} NothingAccepted(s: State, events: seq<Event>, limit: S.Limit)
    requires s.core.accepted == [] && s.pending == map[] && limit.requests <= 0 && Legal(s, events, limit)
    ensures Run(s, events, limit).core.accepted == []
    decreases |events|
  {
    if events != [] { NothingAccepted(Step(s, events[0], limit), events[1..], limit); }
  }

  // -------------------------------------------------------------------------------- checks one after another

  /** The steps of a check with no other at work. */
  function Steps(s: S.State, e: S.Event, limit: S.Limit): seq<Event> {
    match e
    case Deletion(time, inMemory, due) => [Deletion(time, inMemory, due)]
    case Request(time, reach) =>
      [Read(0, time, reach.read)]
      + if S.Check(s.slots, time, limit, reach).1 then [Write(0, time, reach.write)] else []
  }

  lemma {:induction false} RunsOn(s: State, events: seq<Event>, rest: seq<Event>, limit: S.Limit, allowed: set<Lapse>)
    requires Legal(s, events, limit) && Within(s, events, limit, allowed)
    requires Legal(Run(s, events, limit), rest, limit) && Within(Run(s, events, limit), rest, limit, allowed)
    ensures Legal(s, events + rest, limit) && Within(s, events + rest, limit, allowed)
    ensures Run(s, events + rest, limit) == Run(Run(s, events, limit), rest, limit)
    decreases |events|
  {
    hide Step, Possible, Happens;
    if events == [] {
      assert events + rest == rest;
    } else {
      RunsOn(Step(s, events[0], limit), events[1..], rest, limit, allowed);
      assert (events + rest)[1..] == events[1..] + rest;
    }
  }

  /** What its reads and writes may do. */
  predicate Allows(e: S.Event, allowed: set<Lapse>) {
    e.Request? ==> (e.reach.read || MissedRead in allowed) && (!e.reach.write.ToMemory? || MissedWrite in allowed)
  }

  /** A check with no other at work does what its steps do. */
  lemma CheckIsSteps(s: State, e: S.Event, limit: S.Limit, allowed: set<Lapse>)
    requires s.pending == map[] && S.Possible(s.core, e) && Allows(e, allowed)
    ensures var events := Steps(s.core, e, limit);
            && Legal(s, events, limit) && Within(s, events, limit, allowed)
            && Run(s, events, limit) == State(S.Step(s.core, e, limit), map[])
  {
    var events := Steps(s.core, e, limit);
    var t := Step(s, events[0], limit);
    NoSteps(t, limit, allowed);
    if e.Deletion? {
      assert events[1..] == [];
    } else if S.Check(s.core.slots, e.time, limit, e.reach).1 {
      var u := Step(t, events[1], limit);
      assert u.pending == map[] && u.core == S.Step(s.core, e, limit);
      NoSteps(u, limit, allowed);
      assert events[1..] == [events[1]] && [events[1]][1..] == [];
      assert Legal(t, [events[1]], limit) && Run(t, [events[1]], limit) == u;
    } else {
      assert events == [events[0]] && events[1..] == [];
      assert t.pending == map[] && t.core == S.Step(s.core, e, limit);
    }
  }

  lemma NoSteps(s: State, limit: S.Limit, allowed: set<Lapse>)
    ensures Legal(s, [], limit) && Within(s, [], limit, allowed) && Run(s, [], limit) == s
  {
  }

  /** So does a run of checks one after another. */
  lemma {:induction false} SerialRun(s: State, events: seq<S.Event>, limit: S.Limit, allowed: set<Lapse>) returns (run: seq<Event>)
    requires s.pending == map[] && S.Legal(s.core, events, limit) && forall e | e in events :: Allows(e, allowed)
    ensures Legal(s, run, limit) && Within(s, run, limit, allowed)
    ensures Run(s, run, limit) == State(S.Run(s.core, events, limit), map[])
    decreases |events|
  {
    hide S.Step, S.Possible, Steps, Step, Possible, Happens;
    run := [];
    if events != [] {
      var first := Steps(s.core, events[0], limit);
      CheckIsSteps(s, events[0], limit, allowed);
      var rest := SerialRun(State(S.Step(s.core, events[0], limit), map[]), events[1..], limit, allowed);
      RunsOn(s, first, rest, limit, allowed);
      run := first + rest;
    }
  }

  // ------------------------------------------------------------------------------------- runs that pass the limit

  /** Two checks that both read before either writes, with room for one. */
  lemma TwoAtOnce(s: State, limit: S.Limit) returns (run: seq<Event>)
    requires s.pending == map[] && s.core.clock <= 0 && limit.perSeconds > 0
    requires |S.Recent(s.core.slots.shared.stamps, 0, S.Window(limit))| < limit.requests
    ensures Legal(s, run, limit) && Within(s, run, limit, {Overlap})
    ensures Run(s, run, limit).core.accepted == s.core.accepted + [0] + [0]
  {
    hide S.Recent, S.Window;
    run := [Read(0, 0, true), Read(1, 0, true), Write(0, 0, S.ToShared), Write(1, 0, S.ToShared)];
    var t1 := Step(s, run[0], limit);
    var t2 := Step(t1, run[1], limit);
    var t3 := Step(t2, run[2], limit);
    var t4 := Step(t3, run[3], limit);
    assert run[1..][1..][1..][1..] == [];
    assert run[1..][1..][1..][0] == run[3] && run[1..][1..][0] == run[2] && run[1..][0] == run[1];
    hide Step, Possible, Happens;
    assert Legal(t3, run[1..][1..][1..], limit);
    assert Legal(t2, run[1..][1..], limit);
    assert Legal(t1, run[1..], limit);
  }

  lemma {:induction false} MoreAllowed(s: State, events: seq<Event>, limit: S.Limit, few: set<Lapse>, many: set<Lapse>)
    requires Legal(s, events, limit) && Within(s, events, limit, few) && few <= many
    ensures Within(s, events, limit, many)
    decreases |events|
  {
    hide Step, Possible, Happens;
    if events != [] { MoreAllowed(Step(s, events[0], limit), events[1..], limit, few, many); }
  }

  /** Checks one after another that leave room for one. */
  lemma AlmostFull(limit: S.Limit) returns (serial: seq<S.Event>)
    requires limit.requests > 0 && limit.perSeconds > 0
    ensures S.Legal(S.Start(0), serial, limit) && forall e | e in serial :: e == S.Request(0, S.SHARED)
    ensures var s := S.Run(S.Start(0), serial, limit);
            && s.clock <= 0 && S.CountIn(s.accepted, 0, 0 + S.Window(limit)) == limit.requests - 1
            && |S.Recent(s.slots.shared.stamps, 0, S.Window(limit))| < limit.requests
  {
    serial := S.Burst(S.Start(0), limit.requests - 1, 0, limit, S.SHARED);
    S.NoneIn(0, 0 + S.Window(limit));
    hide S.Run, S.Legal, S.CountIn;
    S.RecentOfRecent(S.Run(S.Start(0), serial, limit).slots.shared.stamps, 0, S.Window(limit));
  }

  /** Two checks at once, after as many as leave room for one, pass the limit though every call reaches the shared
      store. */
  lemma OverlapExceeds(limit: S.Limit) returns (events: seq<Event>)
    requires limit.requests > 0 && limit.perSeconds > 0
    ensures Legal(Start(0), events, limit) && Within(Start(0), events, limit, {Overlap})
    ensures AcceptedFrom(0, 0, events, limit) == limit.requests + 1
  {
    var serial := AlmostFull(limit);
    hide Run, Legal, Within, S.Run, S.Legal, S.CountIn, S.Recent;
    var first := SerialRun(Start(0), serial, limit, {Overlap});
    var s := Run(Start(0), first, limit);
    var two := TwoAtOnce(s, limit);
    RunsOn(Start(0), first, two, limit, {Overlap});
    events := first + two;
    S.CountOne(s.core.accepted, 0, 0, 0 + S.Window(limit));
    S.CountOne(s.core.accepted + [0], 0, 0, 0 + S.Window(limit));
  }

  /** The same of one missed read, and of one missed write. */
  lemma MissExceeds(limit: S.Limit, lapse: Lapse) returns (events: seq<Event>)
    requires limit.requests > 0 && limit.perSeconds > 0 && lapse != Overlap
    ensures Legal(Start(0), events, limit) && Within(Start(0), events, limit, {lapse})
    ensures AcceptedFrom(0, 0, events, limit) == limit.requests + 1
  {
    var full, serial;
    if lapse == MissedRead {
      full, serial := S.MissedReadExceeds(limit);
    } else {
      full, serial := S.MissedWriteExceeds(limit);
    }
    hide Run, Legal, Within, S.Run, S.Legal, S.CountIn;
    events := SerialRun(Start(0), serial, limit, {lapse});
  }

  /** The limit holds in every run of any number of checks exactly when every call reaches the shared store and no
      check reads while another is between its read and its write, or the limit admits nothing, or its window is
      empty. */
  lemma LimitsExactly(limit: S.Limit, allowed: set<Lapse>)
    ensures Limits(limit, allowed) <==> allowed == {} || limit.requests <= 0 || limit.perSeconds == 0
  {
    hide Run, Legal, Within, S.CountIn;
    if allowed != {} && limit.requests > 0 && limit.perSeconds > 0 {
      var lapse :| lapse in allowed;
      var events;
      if lapse == Overlap { events := OverlapExceeds(limit); } else { events := MissExceeds(limit, lapse); }
      MoreAllowed(Start(0), events, limit, {lapse}, allowed);
      assert AcceptedFrom(0, 0, events, limit) > limit.requests;
    } else {
      forall from, clock, events | Legal(Start(clock), events, limit) && Within(Start(clock), events, limit, allowed)
        ensures AcceptedFrom(from, clock, events, limit) <= if limit.requests < 0 then 0 else limit.requests
      {
        if limit.requests <= 0 {
          NothingAccepted(Start(clock), events, limit);
          S.NoneIn(from, from + limit.perSeconds * 1000);
        } else if limit.perSeconds == 0 {
          S.NoneWithin(Run(Start(clock), events, limit).core.accepted, from);
        } else {
          WithoutLapses(from, clock, events, limit);
        }
      }
    }
  }
}
