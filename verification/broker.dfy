/** The background job queue: many workers read a row, compare-and-set its status, run the job and
    write the outcome, each of these a separate step of an interleaving. */
module Broker {
  import opened Basics
  import opened Outcomes

  const MAX_ATTEMPTS: nat := 3

  datatype Status = Pending | Processing | Completed | Failed

  datatype Job = Job(status: Status, attempts: nat, maxAttempts: nat, updatedAt: Option<int>)

  /** Retry base delay and idle time after which a claim counts as abandoned, in milliseconds. */
  datatype Config = Config(retryBase: nat, claimIdle: nat)

  // --------------------------------------------------------------------------------- pure helpers

  function Pow2(n: nat): nat { if n == 0 then 1 else 2 * Pow2(n - 1) }

  function RetryDelay(attempt: int, cfg: Config): int {
    cfg.retryBase * Max(1, Pow2(Max(0, attempt - 1)))
  }

  predicate OlderThan(timestamp: Option<int>, threshold: int, now: int) {
    match timestamp case None => true case Some(t) => now - t >= threshold
  }

  function AttemptLimit(job: Job): nat { if job.maxAttempts == 0 then MAX_ATTEMPTS else job.maxAttempts }

  predicate IsRecoverable(job: Job, now: int, cfg: Config) {
    match job.status
    case Pending => true
    case Failed => job.attempts < AttemptLimit(job) && OlderThan(job.updatedAt, RetryDelay(job.attempts + 1, cfg), now)
    case Processing => OlderThan(job.updatedAt, cfg.claimIdle, now)
    case Completed => false
  }

  // ------------------------------------------------------------------------------ the job table

  type Id = nat
  type Jobs = map<Id, Job>

  function NewJob(now: int): Job { Job(Pending, 0, MAX_ATTEMPTS, Some(now)) }

  /** UPDATE ... SET status = PROCESSING WHERE id AND status = seen. */
  predicate CasSucceeds(jobs: Jobs, id: Id, seen: Status) { id in jobs && jobs[id].status == seen }

  function CasRow(jobs: Jobs, id: Id, seen: Status, now: int): Jobs {
    if CasSucceeds(jobs, id, seen) then jobs[id := jobs[id].(status := Processing, updatedAt := Some(now))] else jobs
  }

  function CompletedRow(jobs: Jobs, id: Id, now: int): Jobs {
    if id in jobs then jobs[id := jobs[id].(status := Completed, updatedAt := Some(now))] else jobs
  }

  function FailedRow(jobs: Jobs, id: Id, attempts: nat, now: int): Jobs {
    if id in jobs then jobs[id := jobs[id].(status := Failed, attempts := attempts, updatedAt := Some(now))] else jobs
  }

  /** The table and the statements a worker issues against it. */
  class JobTable {
    var jobs: Jobs

    constructor ()
      ensures jobs == map[]
    {
      jobs := map[];
    }

    method Push(id: Id, now: int)
      requires id !in jobs
      modifies this
      ensures jobs == old(jobs)[id := NewJob(now)]
    {
      jobs := jobs[id := Job(Pending, 0, MAX_ATTEMPTS, Some(now))];
    }

    /** The status a worker will compare against, if the row exists and may be claimed. */
    method ReadForClaim(id: Id, now: int, cfg: Config) returns (seen: Option<Status>)
      ensures seen.Some? <==> id in jobs && IsRecoverable(jobs[id], now, cfg)
      ensures seen.Some? ==> seen.value == jobs[id].status
    {
      if id !in jobs { return None; }
      var job := jobs[id];
      var recoverable := false;
      match job.status {
        case Pending => recoverable := true;
        case Failed =>
          var limit := if job.maxAttempts == 0 then MAX_ATTEMPTS else job.maxAttempts;
          recoverable := job.attempts < limit && OlderThan(job.updatedAt, RetryDelay(job.attempts + 1, cfg), now);
        case Processing => recoverable := OlderThan(job.updatedAt, cfg.claimIdle, now);
        case Completed =>
      }
      return if recoverable then Some(job.status) else None;
    }

    method CompareAndSet(id: Id, seen: Status, now: int) returns (locked: Option<Job>)
      modifies this
      ensures jobs == CasRow(old(jobs), id, seen, now)
      ensures locked == if CasSucceeds(old(jobs), id, seen) then Some(jobs[id]) else None
    {
      if id !in jobs || jobs[id].status != seen { return None; }
      jobs := jobs[id := jobs[id].(status := Processing, updatedAt := Some(now))];
      return Some(jobs[id]);
    }

    method WriteCompleted(id: Id, now: int)
      modifies this
      ensures jobs == CompletedRow(old(jobs), id, now)
    {
      if id in jobs { jobs := jobs[id := jobs[id].(status := Completed, updatedAt := Some(now))]; }
    }

    /** The attempt count comes from the row as it was when claimed, not from the row now. */
    method WriteFailed(id: Id, claimedAttempts: nat, now: int)
      modifies this
      ensures jobs == FailedRow(old(jobs), id, claimedAttempts + 1, now)
    {
      if id in jobs {
        jobs := jobs[id := jobs[id].(status := Failed, attempts := claimedAttempts + 1, updatedAt := Some(now))];
      }
    }
  }

  // ------------------------------------------------------------------------------- interleavings

  /** Between steps a worker is idle, has read a claimable row, or runs a job it claimed. */
  datatype Phase = Idle | Holding(id: Id, seen: Status) | Running(id: Id, attempts: nat)

  /** What happened to a job so far: claims that found it PENDING or FAILED, failures written, and
      whether some run of it ended without any outcome being written. */
  datatype History = History(claims: nat, failures: nat, abandoned: bool)

  datatype State = State(jobs: Jobs, workers: map<nat, Phase>, histories: map<Id, History>, now: int)

  datatype Action =
    | Push(job: Id)
    | Tick(time: int)
    | Read(worker: nat, job: Id)
    | Update(worker: nat)
    | Claim(worker: nat, job: Id)   // read and update with nothing in between
    | Complete(worker: nat)
    | Fail(worker: nat)
    | Lose(worker: nat)             // the worker stops, or its last write never arrives

  predicate Enabled(s: State, a: Action) {
    match a
    case Push(id) => id !in s.jobs
    case Tick(t) => s.now <= t
    case Read(w, _) => w in s.workers && s.workers[w] == Idle
    case Claim(w, _) => w in s.workers && s.workers[w] == Idle
    case Update(w) => w in s.workers && s.workers[w].Holding?
    case Complete(w) => w in s.workers && s.workers[w].Running?
    case Fail(w) => w in s.workers && s.workers[w].Running?
    case Lose(w) => w in s.workers
  }

  function HistoryOf(s: State, id: Id): History {
    if id in s.histories then s.histories[id] else History(0, 0, false)
  }

  function AfterRead(s: State, w: nat, id: Id, cfg: Config): State {
    if id in s.jobs && IsRecoverable(s.jobs[id], s.now, cfg)
    then s.(workers := s.workers[w := Holding(id, s.jobs[id].status)])
    else s
  }

  function AfterUpdate(s: State, w: nat): State
    requires w in s.workers && s.workers[w].Holding?
  {
    var Holding(id, seen) := s.workers[w];
    if !CasSucceeds(s.jobs, id, seen) then s.(workers := s.workers[w := Idle]) else
    var h := HistoryOf(s, id);
    s.(jobs := CasRow(s.jobs, id, seen, s.now),
       workers := s.workers[w := Running(id, s.jobs[id].attempts)],
       histories := s.histories[id := if seen == Processing then h else h.(claims := h.claims + 1)])
  }

  function Step(s: State, a: Action, cfg: Config): State
    requires Enabled(s, a)
  {
    match a
    case Push(id) => s.(jobs := s.jobs[id := NewJob(s.now)], histories := s.histories[id := History(0, 0, false)])
    case Tick(t) => s.(now := t)
    case Read(w, id) => AfterRead(s, w, id, cfg)
    case Update(w) => AfterUpdate(s, w)
    case Claim(w, id) =>
      var read := AfterRead(s, w, id, cfg);
      if read.workers[w].Holding? then AfterUpdate(read, w) else s
    case Complete(w) =>
      var id := s.workers[w].id;
      s.(jobs := CompletedRow(s.jobs, id, s.now), workers := s.workers[w := Idle])
    case Fail(w) =>
      var Running(id, attempts) := s.workers[w];
      var h := HistoryOf(s, id);
      s.(jobs := FailedRow(s.jobs, id, attempts + 1, s.now), workers := s.workers[w := Idle],
         histories := s.histories[id := h.(failures := h.failures + 1)])
    case Lose(w) =>
      if !s.workers[w].Running? then s.(workers := s.workers[w := Idle]) else
      var id := s.workers[w].id;
      s.(workers := s.workers[w := Idle], histories := s.histories[id := HistoryOf(s, id).(abandoned := true)])
  }

  predicate Legal(s: State, actions: seq<Action>, cfg: Config)
    decreases |actions|
  {
    actions != [] ==> Enabled(s, actions[0]) && Legal(Step(s, actions[0], cfg), actions[1..], cfg)
  }

  function Run(s: State, actions: seq<Action>, cfg: Config): State
    requires Legal(s, actions, cfg)
    decreases |actions|
  {
    if actions == [] then s else Run(Step(s, actions[0], cfg), actions[1..], cfg)
  }

  /** No jobs yet, all workers idle. */
  predicate Initial(s: State) {
    s.jobs == map[] && s.histories == map[] && s.workers.Keys != {} && forall w | w in s.workers :: s.workers[w] == Idle
  }

  /** No claim looks abandoned. */
  predicate NoStaleClaim(s: State, cfg: Config) {
    forall id | id in s.jobs && s.jobs[id].status == Processing :: !OlderThan(s.jobs[id].updatedAt, cfg.claimIdle, s.now)
  }

  /** The run meets NoStaleClaim in every state it passes. */
  predicate Timely(s: State, actions: seq<Action>, cfg: Config)
    requires Legal(s, actions, cfg)
    decreases |actions|
  {
    NoStaleClaim(s, cfg) && (actions != [] ==> Timely(Step(s, actions[0], cfg), actions[1..], cfg))
  }

  // ------------------------------------------------- what every run keeps, takeovers or not

  /** Everything a worker is busy with exists and was claimable when read; and every claim from
      PENDING or FAILED, but for the first, is paid for by a recorded failure. */
  predicate Sound(s: State) {
    && (forall w | w in s.workers && s.workers[w].Holding? :: s.workers[w].id in s.jobs && s.workers[w].seen != Completed)
    && (forall w | w in s.workers && s.workers[w].Running? :: s.workers[w].id in s.jobs)
    && s.histories.Keys == s.jobs.Keys
    && (forall id | id in s.jobs :: Paid(s.jobs[id], s.histories[id]))
  }

  predicate Paid(job: Job, h: History) {
    h.claims + (if job.status == Pending || job.status == Failed then 1 else 0) <= 1 + h.failures
  }

  lemma StepKeepsSound(s: State, a: Action, cfg: Config)
    requires Sound(s) && Enabled(s, a)
    ensures Sound(Step(s, a, cfg))
  {
  }

  lemma {:induction false} RunKeepsSound(s: State, actions: seq<Action>, cfg: Config)
    requires Sound(s) && Legal(s, actions, cfg)
    ensures Sound(Run(s, actions, cfg))
    decreases |actions|
  {
    if actions != [] {
      StepKeepsSound(s, actions[0], cfg);
      RunKeepsSound(Step(s, actions[0], cfg), actions[1..], cfg);
    }
  }

  predicate Runs(s: State, w: nat, id: Id) { w in s.workers && s.workers[w].Running? && s.workers[w].id == id }

  /** The row goes from PENDING or FAILED to PROCESSING. */
  predicate TakenUp(s: State, t: State, id: Id) {
    && id in s.jobs && id in t.jobs && (s.jobs[id].status == Pending || s.jobs[id].status == Failed)
    && t.jobs[id].status == Processing
  }

  /** How often a run takes the job up, how often a worker that runs it writes a failure, and whether one stops without
      writing anything. */
  function Counted(s: State, actions: seq<Action>, cfg: Config, id: Id): History
    requires Legal(s, actions, cfg)
    decreases |actions|
  {
    if actions == [] then History(0, 0, false)
    else
      var a, t := actions[0], Step(s, actions[0], cfg);
      var later := Counted(t, actions[1..], cfg, id);
      History(later.claims + (if TakenUp(s, t, id) then 1 else 0),
              later.failures + (if a.Fail? && Runs(s, a.worker, id) then 1 else 0),
              later.abandoned || (a.Lose? && Runs(s, a.worker, id)))
  }

  lemma StepCounts(s: State, a: Action, cfg: Config, id: Id)
    requires Sound(s) && Enabled(s, a)
    ensures var h, t := HistoryOf(s, id), Step(s, a, cfg);
            HistoryOf(t, id) == History(h.claims + (if TakenUp(s, t, id) then 1 else 0),
                                        h.failures + (if a.Fail? && Runs(s, a.worker, id) then 1 else 0),
                                        h.abandoned || (a.Lose? && Runs(s, a.worker, id)))
  {
    hide OlderThan, RetryDelay;
  }

  lemma {:induction false} HistoriesCount(s: State, actions: seq<Action>, cfg: Config, id: Id)
    requires Sound(s) && Legal(s, actions, cfg)
    ensures var h, n := HistoryOf(s, id), Counted(s, actions, cfg, id);
            HistoryOf(Run(s, actions, cfg), id)
            == History(h.claims + n.claims, h.failures + n.failures, h.abandoned || n.abandoned)
    decreases |actions|
  {
    hide Sound, Step, Enabled, HistoryOf, TakenUp, Runs;
    if actions != [] {
      StepKeepsSound(s, actions[0], cfg);
      StepCounts(s, actions[0], cfg, id);
      HistoriesCount(Step(s, actions[0], cfg), actions[1..], cfg, id);
    }
  }

  /** In every interleaving, takeovers and crashes included, a job is taken up from PENDING or FAILED at most once more
      than failures are written for it. */
  lemma ClaimsArePaid(s: State, actions: seq<Action>, cfg: Config, id: Id)
    requires Initial(s) && Legal(s, actions, cfg) && id in Run(s, actions, cfg).jobs
    ensures Counted(s, actions, cfg, id).claims <= 1 + Counted(s, actions, cfg, id).failures
  {
    RunKeepsSound(s, actions, cfg);
    assert Paid(Run(s, actions, cfg).jobs[id], Run(s, actions, cfg).histories[id]);
    HistoriesCount(s, actions, cfg, id);
  }

  // -------------------------------------------------------------- COMPLETED is final, exactly when

  predicate HasRunner(s: State, id: Id) { exists w | w in s.workers :: Runs(s, w, id) }

  lemma StepKeepsCompleted(s: State, a: Action, cfg: Config, id: Id)
    requires Sound(s) && Enabled(s, a)
    requires id in s.jobs && s.jobs[id].status == Completed && !HasRunner(s, id)
    ensures var t := Step(s, a, cfg); id in t.jobs && t.jobs[id] == s.jobs[id] && !HasRunner(t, id)
  {
    assert forall w | w in s.workers :: !Runs(s, w, id);
    var t := Step(s, a, cfg);
    assert forall w | w in t.workers :: !Runs(t, w, id);
  }

  lemma {:induction false} RunKeepsCompleted(s: State, actions: seq<Action>, cfg: Config, id: Id)
    requires Sound(s) && Legal(s, actions, cfg)
    requires id in s.jobs && s.jobs[id].status == Completed && !HasRunner(s, id)
    ensures var t := Run(s, actions, cfg); id in t.jobs && t.jobs[id] == s.jobs[id]
    decreases |actions|
  {
    if actions != [] {
      StepKeepsSound(s, actions[0], cfg);
      StepKeepsCompleted(s, actions[0], cfg, id);
      RunKeepsCompleted(Step(s, actions[0], cfg), actions[1..], cfg, id);
    }
  }

  predicate RowKept(s: State, actions: seq<Action>, cfg: Config, id: Id)
    requires Legal(s, actions, cfg) && id in s.jobs
  {
    id in Run(s, actions, cfg).jobs && Run(s, actions, cfg).jobs[id] == s.jobs[id]
  }

  /** A COMPLETED row can still become FAILED exactly when a worker is running the job: outcomes are
      written by id alone, so a worker whose claim was taken over overwrites the other's result. */
  lemma CompletedIsFinalExactly(s: State, cfg: Config, id: Id)
    requires Sound(s) && id in s.jobs && s.jobs[id].status == Completed
    ensures (forall actions | Legal(s, actions, cfg) :: RowKept(s, actions, cfg, id)) <==> !HasRunner(s, id)
  {
    if HasRunner(s, id) {
      var w :| w in s.workers && Runs(s, w, id);
      var t := Step(s, Fail(w), cfg);
      var actions := [Fail(w)];
      assert actions[1..] == [] && Legal(t, [], cfg);
      assert Legal(s, actions, cfg) && Run(s, actions, cfg) == Run(t, [], cfg);
      assert t.jobs[id].status == Failed;
      assert !RowKept(s, actions, cfg, id);
    } else {
      forall actions | Legal(s, actions, cfg)
        ensures RowKept(s, actions, cfg, id)
      {
        RunKeepsCompleted(s, actions, cfg, id);
      }
    }
  }

  // ------------------------------------------------------------------- exclusion in timely runs

  /** Between steps of a timely run: nobody is about to take a claim over, at most one worker runs a
      job, and it is PROCESSING exactly while it has a runner or its run was abandoned. */
  predicate Exclusive(s: State) {
    && (forall w | w in s.workers && s.workers[w].Holding? :: s.workers[w].seen == Pending || s.workers[w].seen == Failed)
    && (forall w | w in s.workers && s.workers[w].Running? :: RunnerAgrees(s, w))
    && (forall w, v | w in s.workers && v in s.workers && s.workers[w].Running? && s.workers[v].Running?
                      && s.workers[w].id == s.workers[v].id :: w == v)
    && (forall id | id in s.jobs :: Owned(s, id))
  }

  predicate RunnerAgrees(s: State, w: nat)
    requires w in s.workers && s.workers[w].Running?
  {
    var Running(id, attempts) := s.workers[w];
    id in s.jobs && s.jobs[id].attempts == attempts
  }

  predicate Owned(s: State, id: Id)
    requires id in s.jobs
  {
    && (s.jobs[id].status == Processing <==> HasRunner(s, id) || HistoryOf(s, id).abandoned)
    && !(HasRunner(s, id) && HistoryOf(s, id).abandoned)
    && (s.jobs[id].status == Pending ==> s.jobs[id].attempts == 0)
  }

  lemma UpdateKeepsExclusive(s: State, w: nat)
    requires Sound(s) && Exclusive(s) && w in s.workers && s.workers[w].Holding?
    ensures Exclusive(AfterUpdate(s, w))
  {
    var t := AfterUpdate(s, w);
    var Holding(id, seen) := s.workers[w];
    assert Owned(s, id);
    assert forall v, k | v != w :: Runs(t, v, k) <==> Runs(s, v, k);
    assert forall k :: !Runs(s, w, k);
    forall k | k in t.jobs ensures Owned(t, k) {
      assert Owned(s, k);
      if k == id && CasSucceeds(s.jobs, id, seen) {
        assert Runs(t, w, k);
      } else {
        assert HasRunner(t, k) <==> HasRunner(s, k) by {
          if HasRunner(s, k) { var v :| v in s.workers && Runs(s, v, k); assert Runs(t, v, k); }
          if HasRunner(t, k) { var v :| v in t.workers && Runs(t, v, k); assert Runs(s, v, k); }
        }
      }
    }
  }

  lemma ReadKeepsExclusive(s: State, w: nat, id: Id, cfg: Config)
    requires Sound(s) && Exclusive(s) && NoStaleClaim(s, cfg) && Enabled(s, Read(w, id))
    ensures Exclusive(AfterRead(s, w, id, cfg)) && Sound(AfterRead(s, w, id, cfg))
  {
    var t := AfterRead(s, w, id, cfg);
    SameRunners(s, t, w);
  }

  /** A worker that runs nothing before or after a step that leaves rows and histories alone. */
  lemma SameRunners(s: State, t: State, w: nat)
    requires w in s.workers && !s.workers[w].Running?
    requires t.workers.Keys == s.workers.Keys && !t.workers[w].Running?
    requires forall v | v in s.workers && v != w :: t.workers[v] == s.workers[v]
    ensures forall k :: HasRunner(t, k) <==> HasRunner(s, k)
  {
    forall k ensures HasRunner(t, k) <==> HasRunner(s, k) {
      if HasRunner(s, k) { var v :| v in s.workers && Runs(s, v, k); assert Runs(t, v, k); }
      if HasRunner(t, k) { var v :| v in t.workers && Runs(t, v, k); assert Runs(s, v, k); }
    }
  }

  /** The only runner of a job stops running it. */
  lemma RunnerStops(s: State, t: State, w: nat)
    requires Exclusive(s) && w in s.workers && s.workers[w].Running?
    requires t.workers == s.workers[w := Idle]
    ensures !HasRunner(t, s.workers[w].id) && HasRunner(s, s.workers[w].id)
    ensures forall k | k != s.workers[w].id :: HasRunner(t, k) <==> HasRunner(s, k)
  {
    assert Runs(s, w, s.workers[w].id);
    forall k | k != s.workers[w].id ensures HasRunner(t, k) <==> HasRunner(s, k) {
      if HasRunner(s, k) { var v :| v in s.workers && Runs(s, v, k); assert Runs(t, v, k); }
      if HasRunner(t, k) { var v :| v in t.workers && Runs(t, v, k); assert Runs(s, v, k); }
    }
  }

  lemma StopKeepsExclusive(s: State, a: Action, w: nat, cfg: Config)
    requires Sound(s) && Exclusive(s) && Enabled(s, a) && a in {Complete(w), Fail(w), Lose(w)}
    requires s.workers[w].Running?
    ensures Exclusive(Step(s, a, cfg))
  {
    var t := Step(s, a, cfg);
    var id := s.workers[w].id;
    RunnerStops(s, t, w);
    assert Owned(s, id);
    forall k | k in t.jobs ensures Owned(t, k) {
      assert Owned(s, k);
      assert k != id ==> t.jobs[k] == s.jobs[k] && HistoryOf(t, k) == HistoryOf(s, k);
    }
  }

  lemma StepKeepsExclusive(s: State, a: Action, cfg: Config)
    requires Sound(s) && Exclusive(s) && NoStaleClaim(s, cfg) && Enabled(s, a)
    ensures Exclusive(Step(s, a, cfg))
  {
    var t := Step(s, a, cfg);
    match a
    case Push(id) =>
      assert !HasRunner(t, id);
      forall k | k in t.jobs ensures Owned(t, k) {
        if k != id {
          assert Owned(s, k);
          assert HasRunner(t, k) <==> HasRunner(s, k) by {
            if HasRunner(s, k) { var v :| v in s.workers && Runs(s, v, k); assert Runs(t, v, k); }
            if HasRunner(t, k) { var v :| v in t.workers && Runs(t, v, k); assert Runs(s, v, k); }
          }
        }
      }
    case Tick(_) =>
      forall k | k in t.jobs ensures Owned(t, k) {
        assert Owned(s, k);
        if HasRunner(s, k) { var v :| v in s.workers && Runs(s, v, k); assert Runs(t, v, k); }
        if HasRunner(t, k) { var v :| v in t.workers && Runs(t, v, k); assert Runs(s, v, k); }
      }
    case Read(w, id) => ReadKeepsExclusive(s, w, id, cfg);
    case Claim(w, id) =>
      ReadKeepsExclusive(s, w, id, cfg);
      var read := AfterRead(s, w, id, cfg);
      if read.workers[w].Holding? { UpdateKeepsExclusive(read, w); }
    case Update(w) => UpdateKeepsExclusive(s, w);
    case Complete(w) => StopKeepsExclusive(s, a, w, cfg);
    case Fail(w) => StopKeepsExclusive(s, a, w, cfg);
    case Lose(w) =>
      if s.workers[w].Running? { StopKeepsExclusive(s, a, w, cfg); } else { SameRunners(s, t, w); }
  }

  // ------------------------------------------------------------------------------- attempt bounds

  function EngagedWith(s: State, id: Id): set<nat> {
    set w | w in s.workers && s.workers[w] != Idle && s.workers[w].id == id
  }

  /** The attempts used plus the workers engaged with the job stay below limit plus workers. */
  predicate WithinBudget(s: State) {
    forall id | id in s.jobs :: s.jobs[id].attempts + |EngagedWith(s, id)| < AttemptLimit(s.jobs[id]) + |s.workers|
  }

  lemma {:induction false} SubsetSize(a: set<nat>, b: set<nat>)
    requires a <= b
    ensures |a| <= |b|
  {
    if a != {} {
      var x :| x in a;
      SubsetSize(a - {x}, b - {x});
    }
  }

  /** Fewer (or as many) engaged workers and as many attempts. */
  lemma NoMoreEngaged(s: State, t: State, id: Id)
    requires EngagedWith(t, id) <= EngagedWith(s, id)
    ensures |EngagedWith(t, id)| <= |EngagedWith(s, id)|
  {
    SubsetSize(EngagedWith(t, id), EngagedWith(s, id));
  }

  lemma ReadKeepsBudget(s: State, w: nat, id: Id, cfg: Config)
    requires Exclusive(s) && NoStaleClaim(s, cfg) && WithinBudget(s) && Enabled(s, Read(w, id))
    ensures WithinBudget(AfterRead(s, w, id, cfg))
  {
    var t := AfterRead(s, w, id, cfg);
    assert t.workers.Keys == s.workers.Keys;
    forall k | k in t.jobs
      ensures t.jobs[k].attempts + |EngagedWith(t, k)| < AttemptLimit(t.jobs[k]) + |t.workers|
    {
      if k == id && t != s {
        SubsetSize(EngagedWith(t, k), t.workers.Keys);
        assert Owned(s, k);
        assert t.jobs[k].attempts < AttemptLimit(t.jobs[k]);
      } else {
        NoMoreEngaged(s, t, k);
      }
    }
  }

  lemma UpdateKeepsBudget(s: State, w: nat)
    requires WithinBudget(s) && w in s.workers && s.workers[w].Holding?
    ensures WithinBudget(AfterUpdate(s, w))
  {
    var t := AfterUpdate(s, w);
    assert t.workers.Keys == s.workers.Keys;
    forall k | k in t.jobs
      ensures t.jobs[k].attempts + |EngagedWith(t, k)| < AttemptLimit(t.jobs[k]) + |t.workers|
    {
      NoMoreEngaged(s, t, k);
    }
  }

  lemma FailKeepsBudget(s: State, w: nat, cfg: Config)
    requires Exclusive(s) && WithinBudget(s) && Enabled(s, Fail(w))
    ensures WithinBudget(Step(s, Fail(w), cfg))
  {
    var t := Step(s, Fail(w), cfg);
    assert t.workers.Keys == s.workers.Keys;
    var id := s.workers[w].id;
    assert EngagedWith(t, id) == EngagedWith(s, id) - {w};
    assert RunnerAgrees(s, w);
    forall k | k in t.jobs
      ensures t.jobs[k].attempts + |EngagedWith(t, k)| < AttemptLimit(t.jobs[k]) + |t.workers|
    {
      if k != id { NoMoreEngaged(s, t, k); }
    }
  }

  /** Nobody new is engaged and no attempt is counted. */
  lemma QuietKeepsBudget(s: State, t: State)
    requires WithinBudget(s) && t.workers.Keys == s.workers.Keys && s.workers.Keys != {}
    requires forall w | w in s.workers :: t.workers[w] == s.workers[w] || t.workers[w] == Idle
    requires forall k | k in t.jobs && k in s.jobs ::
               t.jobs[k].attempts == s.jobs[k].attempts && t.jobs[k].maxAttempts == s.jobs[k].maxAttempts
    requires forall k | k in t.jobs && k !in s.jobs :: t.jobs[k].attempts == 0 && EngagedWith(s, k) == {}
    ensures WithinBudget(t)
  {
    forall k | k in t.jobs
      ensures t.jobs[k].attempts + |EngagedWith(t, k)| < AttemptLimit(t.jobs[k]) + |t.workers|
    {
      NoMoreEngaged(s, t, k);
    }
  }

  lemma StepKeepsBudget(s: State, a: Action, cfg: Config)
    requires Sound(s) && Exclusive(s) && NoStaleClaim(s, cfg) && WithinBudget(s) && Enabled(s, a) && s.workers.Keys != {}
    ensures WithinBudget(Step(s, a, cfg))
  {
    hide WithinBudget, RetryDelay, AttemptLimit, Owned;
    match a
    case Read(w, id) => ReadKeepsBudget(s, w, id, cfg);
    case Update(w) => UpdateKeepsBudget(s, w);
    case Claim(w, id) =>
      ReadKeepsBudget(s, w, id, cfg);
      var read := AfterRead(s, w, id, cfg);
      if read.workers[w].Holding? { UpdateKeepsBudget(read, w); }
    case Fail(w) => FailKeepsBudget(s, w, cfg);
    case Push(id) =>
      assert EngagedWith(s, id) == {};
      QuietKeepsBudget(s, Step(s, a, cfg));
    case Complete(w) => QuietKeepsBudget(s, Step(s, a, cfg));
    case Tick(_) => QuietKeepsBudget(s, Step(s, a, cfg));
    case Lose(w) => QuietKeepsBudget(s, Step(s, a, cfg));
  }

  lemma {:induction false} TimelyRunKeeps(s: State, actions: seq<Action>, cfg: Config)
    requires Sound(s) && Exclusive(s) && WithinBudget(s) && s.workers.Keys != {}
    requires Legal(s, actions, cfg) && Timely(s, actions, cfg)
    ensures var t := Run(s, actions, cfg); Sound(t) && Exclusive(t) && WithinBudget(t) && |t.workers| == |s.workers|
    decreases |actions|
  {
    if actions != [] {
      var t := Step(s, actions[0], cfg);
      assert t.workers.Keys == s.workers.Keys;
      StepKeepsSound(s, actions[0], cfg);
      StepKeepsExclusive(s, actions[0], cfg);
      StepKeepsBudget(s, actions[0], cfg);
      TimelyRunKeeps(t, actions[1..], cfg);
    }
  }

  lemma InitialKeeps(s: State)
    requires Initial(s)
    ensures Sound(s) && Exclusive(s) && WithinBudget(s)
  {
  }

  /** In every interleaving in which no PROCESSING row ages past the idle time: a job has at most one
      runner, and it is PROCESSING exactly when it has one or its run was abandoned. */
  lemma AtMostOneRunner(s: State, actions: seq<Action>, cfg: Config, id: Id)
    requires Initial(s) && Legal(s, actions, cfg) && Timely(s, actions, cfg) && id in Run(s, actions, cfg).jobs
    ensures var t := Run(s, actions, cfg);
            && (forall w, v | Runs(t, w, id) && Runs(t, v, id) :: w == v)
            && (t.jobs[id].status == Processing <==> HasRunner(t, id) || Counted(s, actions, cfg, id).abandoned)
            && !(HasRunner(t, id) && Counted(s, actions, cfg, id).abandoned)
  {
    InitialKeeps(s);
    TimelyRunKeeps(s, actions, cfg);
    HistoriesCount(s, actions, cfg, id);
    assert Owned(Run(s, actions, cfg), id);
  }

  /** Once COMPLETED in such a run, a row never changes again, timely or not. */
  lemma CompletedStaysInTimelyRuns(s: State, before: seq<Action>, after: seq<Action>, cfg: Config, id: Id)
    requires Initial(s) && Legal(s, before, cfg) && Timely(s, before, cfg)
    requires var t := Run(s, before, cfg); Legal(t, after, cfg) && id in t.jobs && t.jobs[id].status == Completed
    ensures var t := Run(s, before, cfg); id in Run(t, after, cfg).jobs && Run(t, after, cfg).jobs[id] == t.jobs[id]
  {
    AtMostOneRunner(s, before, cfg, id);
    InitialKeeps(s);
    TimelyRunKeeps(s, before, cfg);
    RunKeepsCompleted(Run(s, before, cfg), after, cfg, id);
  }

  /** In such a run with W workers a job is attempted at most limit + W - 1 times. */
  lemma AttemptsAreBounded(s: State, actions: seq<Action>, cfg: Config, id: Id)
    requires Initial(s) && Legal(s, actions, cfg) && Timely(s, actions, cfg) && id in Run(s, actions, cfg).jobs
    ensures var job := Run(s, actions, cfg).jobs[id]; job.attempts <= AttemptLimit(job) + |s.workers| - 1
  {
    InitialKeeps(s);
    TimelyRunKeeps(s, actions, cfg);
  }

  // --------------------------------------------------------------- with an atomic read and update

  predicate Undivided(actions: seq<Action>) { forall a | a in actions :: !a.Read? && !a.Update? }

  /** Claims in one step: the limit is never passed, takeovers or not. */
  predicate WithinLimit(s: State) {
    && (forall w | w in s.workers :: !s.workers[w].Holding?)
    && (forall w | w in s.workers && s.workers[w].Running? ::
          s.workers[w].id in s.jobs && s.workers[w].attempts < AttemptLimit(s.jobs[s.workers[w].id]))
    && (forall id | id in s.jobs :: UnderLimit(s.jobs[id]))
  }

  predicate UnderLimit(job: Job) {
    && job.attempts <= AttemptLimit(job)
    && (job.status == Processing ==> job.attempts < AttemptLimit(job))
    && (job.status == Pending ==> job.attempts == 0)
  }

  lemma StepKeepsLimit(s: State, a: Action, cfg: Config)
    requires WithinLimit(s) && Enabled(s, a) && !a.Read? && !a.Update?
    ensures WithinLimit(Step(s, a, cfg))
  {
    hide OlderThan, RetryDelay;
  }

  lemma {:induction false} UndividedRunKeeps(s: State, actions: seq<Action>, cfg: Config)
    requires WithinLimit(s) && Undivided(actions) && Legal(s, actions, cfg)
    ensures WithinLimit(Run(s, actions, cfg))
    decreases |actions|
  {
    if actions != [] {
      StepKeepsLimit(s, actions[0], cfg);
      UndividedRunKeeps(Step(s, actions[0], cfg), actions[1..], cfg);
    }
  }

  /** With read and update as one step a job is attempted at most limit times in every interleaving. */
  lemma AtomicClaimsMeetTheLimit(s: State, actions: seq<Action>, cfg: Config, id: Id)
    requires Initial(s) && Undivided(actions) && Legal(s, actions, cfg) && id in Run(s, actions, cfg).jobs
    ensures Run(s, actions, cfg).jobs[id].attempts <= AttemptLimit(Run(s, actions, cfg).jobs[id])
  {
    UndividedRunKeeps(s, actions, cfg);
  }

  // ------------------------------------------------------------------------------ retry scheduling

  lemma DelayDoubles(n: nat, cfg: Config)
    requires n >= 1
    ensures RetryDelay(n, cfg) == cfg.retryBase * Pow2(n - 1)
    ensures RetryDelay(n + 1, cfg) == 2 * RetryDelay(n, cfg)
    ensures RetryDelay(n, cfg) >= cfg.retryBase
  {
    Pow2Positive(n - 1);
    assert cfg.retryBase * (2 * Pow2(n - 1)) == 2 * (cfg.retryBase * Pow2(n - 1));
    assert cfg.retryBase * Pow2(n - 1) >= cfg.retryBase * 1;
  }

  lemma {:induction false} Pow2Positive(n: nat)
    ensures Pow2(n) >= 1
  {
    if n > 0 { Pow2Positive(n - 1); }
  }

  /** A job may be claimed exactly when it waits for its first attempt, when it failed with attempts left and the delay of
      its next attempt has passed, or when it has been worked on for the idle time; the delay is the base for the first
      attempt and doubles with every further one. */
  lemma ClaimableExactly(job: Job, now: int, cfg: Config, n: nat)
    ensures IsRecoverable(job, now, cfg)
       <==> || job.status == Pending
            || (&& job.status == Failed && job.attempts < (if job.maxAttempts == 0 then 3 else job.maxAttempts)
                && (job.updatedAt.Some? ==> now >= job.updatedAt.value + RetryDelay(job.attempts + 1, cfg)))
            || (job.status == Processing && (job.updatedAt.Some? ==> now >= job.updatedAt.value + cfg.claimIdle))
    ensures RetryDelay(1, cfg) == cfg.retryBase
    ensures n > 0 ==> RetryDelay(n + 1, cfg) == 2 * RetryDelay(n, cfg)
  {
    hide RetryDelay;
    assert RetryDelay(1, cfg) == cfg.retryBase by { FirstDelay(cfg); }
    if n > 0 { DelayDoubles(n, cfg); }
  }

  lemma FirstDelay(cfg: Config)
    ensures RetryDelay(1, cfg) == cfg.retryBase
  {
  }

  /** After its update a worker runs the job if the status was still the one it had read, with the attempts of the row, and
      is idle otherwise; after an outcome, written or lost, it is idle. Other workers stay where they were. */
  lemma WorkerGoesOn(s: State, a: Action, w: nat, cfg: Config)
    requires Enabled(s, a) && (a.Update? || a.Complete? || a.Fail? || a.Lose?) && a.worker == w
    ensures var t, phase := Step(s, a, cfg), s.workers[w];
            t.workers == s.workers[w := if a.Update? && phase.id in s.jobs && s.jobs[phase.id].status == phase.seen
                                        then Running(phase.id, s.jobs[phase.id].attempts) else Idle]
  {
  }

  /** Each write of a worker changes the row of its job alone and says when it was made. */
  lemma WritesAreTimed(jobs: Jobs, id: Id, attempts: nat, now: int)
    requires id in jobs
    ensures CompletedRow(jobs, id, now) == jobs[id := Job(Completed, jobs[id].attempts, jobs[id].maxAttempts, Some(now))]
    ensures FailedRow(jobs, id, attempts, now) == jobs[id := Job(Failed, attempts, jobs[id].maxAttempts, Some(now))]
    ensures forall seen :: CasRow(jobs, id, seen, now)
                           == if jobs[id].status == seen
                              then jobs[id := Job(Processing, jobs[id].attempts, jobs[id].maxAttempts, Some(now))]
                              else jobs
  {
  }

  /** The retry of a job whose n-th attempt failed at time t is scheduled for t + delay(n), but the
      row can be claimed only from t + 2 * delay(n) on: a retry delivered when it is due is refused,
      and the message is then acknowledged. */
  lemma ScheduledRetryIsRefused(job: Job, t: int, now: int, cfg: Config)
    requires job.status == Failed && job.updatedAt == Some(t) && 1 <= job.attempts < AttemptLimit(job)
    ensures IsRecoverable(job, now, cfg) <==> now >= t + 2 * RetryDelay(job.attempts, cfg)
    ensures cfg.retryBase > 0 ==> !IsRecoverable(job, t + RetryDelay(job.attempts, cfg), cfg)
  {
    DelayDoubles(job.attempts, cfg);
  }

  // ------------------------------------------------------------------------------------ witnesses

  lemma {:induction false} RunConcat(s: State, first: seq<Action>, later: seq<Action>, cfg: Config)
    requires Legal(s, first, cfg) && Legal(Run(s, first, cfg), later, cfg)
    ensures Legal(s, first + later, cfg) && Run(s, first + later, cfg) == Run(Run(s, first, cfg), later, cfg)
    ensures Timely(s, first, cfg) && Timely(Run(s, first, cfg), later, cfg) ==> Timely(s, first + later, cfg)
    decreases |first|
  {
    if first == [] {
      assert first + later == later;
    } else {
      assert (first + later)[1..] == first[1..] + later;
      RunConcat(Step(s, first[0], cfg), first[1..], later, cfg);
    }
  }

  lemma OneStep(s: State, a: Action, cfg: Config)
    requires Enabled(s, a)
    ensures Legal(s, [a], cfg) && Run(s, [a], cfg) == Step(s, a, cfg)
    ensures NoStaleClaim(s, cfg) && NoStaleClaim(Step(s, a, cfg), cfg) ==> Timely(s, [a], cfg)
  {
    assert [a][1..] == [];
    assert Legal(Step(s, a, cfg), [], cfg);
  }

  /** Appends one step to a known run. */
  lemma Extend(s: State, actions: seq<Action>, t: State, a: Action, cfg: Config) returns (longer: seq<Action>, u: State)
    requires Legal(s, actions, cfg) && Run(s, actions, cfg) == t && Enabled(t, a)
    ensures longer == actions + [a] && u == Step(t, a, cfg)
    ensures Legal(s, longer, cfg) && Run(s, longer, cfg) == u
    ensures Timely(s, actions, cfg) && NoStaleClaim(t, cfg) && NoStaleClaim(u, cfg) ==> Timely(s, longer, cfg)
  {
    longer, u := actions + [a], Step(t, a, cfg);
    OneStep(t, a, cfg);
    RunConcat(s, actions, [a], cfg);
  }

  /** Without the timing condition two workers can hold the same job: one completes it while the
      other still runs it, so the COMPLETED row is not final. */
  lemma TakeoverSharesAJob(cfg: Config) returns (s: State, actions: seq<Action>)
    ensures Initial(s) && Legal(s, actions, cfg)
    ensures var t := Run(s, actions, cfg); 0 in t.jobs && t.jobs[0].status == Completed && HasRunner(t, 0)
  {
    hide Legal, Run, Timely, NoStaleClaim;
    s := State(map[], map[0 := Idle, 1 := Idle], map[], 0);
    var t := Step(s, Push(0), cfg);
    OneStep(s, Push(0), cfg);
    actions := [Push(0)];
    actions, t := Extend(s, actions, t, Claim(0, 0), cfg);
    actions, t := Extend(s, actions, t, Tick(cfg.claimIdle), cfg);
    actions, t := Extend(s, actions, t, Claim(1, 0), cfg);
    actions, t := Extend(s, actions, t, Complete(1), cfg);
    assert Runs(t, 0, 0);
  }

  function IdleWorkers(count: nat): (r: map<nat, Phase>)
    ensures |r| == count && forall w: nat :: (w in r <==> w < count) && (w in r ==> r[w] == Idle)
  {
    if count == 0 then map[]
    else
      var front := IdleWorkers(count - 1);
      assert count - 1 !in front;
      front[count - 1 := Idle]
  }

  /** One job with this status and count, due if it has failed; workers in [lo, hi) hold it as read FAILED, the
      others are idle. */
  predicate Queue(t: State, count: nat, status: Status, attempts: nat, lo: nat, hi: nat, cfg: Config) {
    && t.jobs.Keys == {0} && t.jobs[0].status == status && t.jobs[0].attempts == attempts && t.jobs[0].maxAttempts == 3
    && (status == Failed ==> OlderThan(t.jobs[0].updatedAt, RetryDelay(attempts + 1, cfg), t.now))
    && t.workers.Keys == IdleWorkers(count).Keys
    && forall w | w in t.workers :: t.workers[w] == if lo <= w < hi then Holding(0, Failed) else Idle
  }

  /** Worker w may claim the job in one step, or may update after having read. */
  predicate MayClaim(t: State, count: nat, w: nat, a: Action, status: Status, attempts: nat, lo: nat, hi: nat, cfg: Config) {
    && Queue(t, count, status, attempts, lo, hi, cfg) && w < count
    && (|| (a == Claim(w, 0) && lo == hi && (status == Pending || (status == Failed && attempts < 3)))
        || (a == Update(w) && w == lo < hi && status == Failed))
  }

  lemma ClaimStep(t: State, count: nat, w: nat, a: Action, status: Status, attempts: nat, lo: nat, hi: nat, cfg: Config)
    requires cfg.claimIdle > 0 && MayClaim(t, count, w, a, status, attempts, lo, hi, cfg)
    ensures Enabled(t, a) && NoStaleClaim(t, cfg) && NoStaleClaim(Step(t, a, cfg), cfg)
    ensures var u := Step(t, a, cfg);
            && u.now == t.now && u.jobs == map[0 := Job(Processing, attempts, 3, Some(t.now))]
            && u.workers == t.workers[w := Running(0, attempts)]
  {
    hide RetryDelay;
    assert w in t.workers && 0 in t.jobs;
  }

  /** Worker w claims the job and fails, and the delay before the next attempt passes. */
  lemma FailOnce(s: State, actions: seq<Action>, t: State, w: nat, a: Action, count: nat,
                 status: Status, attempts: nat, lo: nat, hi: nat, cfg: Config)
    returns (longer: seq<Action>, u: State)
    requires cfg.claimIdle > 0 && MayClaim(t, count, w, a, status, attempts, lo, hi, cfg)
    requires Legal(s, actions, cfg) && Run(s, actions, cfg) == t && Timely(s, actions, cfg)
    ensures Legal(s, longer, cfg) && Run(s, longer, cfg) == u && Timely(s, longer, cfg)
    ensures Queue(u, count, Failed, attempts + 1, if lo < hi then lo + 1 else lo, hi, cfg)
  {
    hide Legal, Run, Timely, AfterUpdate, AfterRead, CasRow, RetryDelay;
    ClaimStep(t, count, w, a, status, attempts, lo, hi, cfg);
    longer, u := Extend(s, actions, t, a, cfg);
    longer, u := Extend(s, longer, u, Fail(w), cfg);
    DelayPositive(attempts + 2, cfg);
    longer, u := Extend(s, longer, u, Tick(u.now + RetryDelay(attempts + 2, cfg)), cfg);
  }

  lemma DelayPositive(n: nat, cfg: Config)
    ensures RetryDelay(n, cfg) >= 0
  {
    assert cfg.retryBase * Max(1, Pow2(Max(0, n - 1))) >= 0;
  }

  lemma ReadOnce(s: State, actions: seq<Action>, t: State, w: nat, count: nat, cfg: Config)
    returns (longer: seq<Action>, u: State)
    requires w < count && Queue(t, count, Failed, 2, 0, w, cfg)
    requires Legal(s, actions, cfg) && Run(s, actions, cfg) == t && Timely(s, actions, cfg)
    ensures Legal(s, longer, cfg) && Run(s, longer, cfg) == u && Timely(s, longer, cfg)
    ensures Queue(u, count, Failed, 2, 0, w + 1, cfg)
  {
    hide Legal, Run, Timely, RetryDelay;
    assert w in t.workers && 0 in t.jobs;
    longer, u := Extend(s, actions, t, Read(w, 0), cfg);
  }

  /** A job whose first two attempts have failed, with every worker idle. */
  lemma TwoFailures(count: nat, cfg: Config) returns (s: State, actions: seq<Action>, t: State)
    requires count >= 1 && cfg.claimIdle > 0
    ensures Initial(s) && s.workers == IdleWorkers(count) && Legal(s, actions, cfg) && Run(s, actions, cfg) == t
    ensures Timely(s, actions, cfg) && Queue(t, count, Failed, 2, 0, 0, cfg)
  {
    hide Legal, Run, Timely, RetryDelay;
    s := State(map[], IdleWorkers(count), map[], 0);
    assert 0 in s.workers;
    t := Step(s, Push(0), cfg);
    OneStep(s, Push(0), cfg);
    actions := [Push(0)];
    actions, t := FailOnce(s, actions, t, 0, Claim(0, 0), count, Pending, 0, 0, 0, cfg);
    actions, t := FailOnce(s, actions, t, 0, Claim(0, 0), count, Failed, 1, 0, 0, cfg);
  }

  /** The bound limit + W - 1 is reached for every number of workers, retry base and positive idle time, in a
      run without any stale claim: all workers read the row before its last allowed attempt, then claim and
      fail in turn. */
  lemma AttemptBoundIsReached(count: nat, cfg: Config) returns (s: State, actions: seq<Action>)
    requires count >= 1 && cfg.claimIdle > 0
    ensures Initial(s) && |s.workers| == count && Legal(s, actions, cfg) && Timely(s, actions, cfg)
    ensures var t := Run(s, actions, cfg);
            0 in t.jobs && AttemptLimit(t.jobs[0]) == 3 && t.jobs[0].attempts == AttemptLimit(t.jobs[0]) + count - 1
  {
    hide Legal, Run, Timely, Step, Enabled, NoStaleClaim, Initial, IdleWorkers, RetryDelay, OlderThan;
    var t;
    s, actions, t := TwoFailures(count, cfg);
    for w := 0 to count
      invariant Legal(s, actions, cfg) && Run(s, actions, cfg) == t && Timely(s, actions, cfg)
      invariant Queue(t, count, Failed, 2, 0, w, cfg)
    {
      actions, t := ReadOnce(s, actions, t, w, count, cfg);
    }
    for w := 0 to count
      invariant Legal(s, actions, cfg) && Run(s, actions, cfg) == t && Timely(s, actions, cfg)
      invariant Queue(t, count, Failed, 2 + w, w, count, cfg)
    {
      actions, t := FailOnce(s, actions, t, w, Update(w), count, Failed, 2 + w, w, count, cfg);
    }
  }
}
