/** The execution of an approved treasury withdrawal: several workers may carry it out, crash anywhere and
    be replaced, each reading and writing the database in separate steps. */
module TreasuryWithdrawal {
  import opened Outcomes
  import opened TransactionStatus

  datatype Direction = Debit | Credit

  datatype Side = Goal | Destination

  datatype Leg = Leg(side: Side, direction: Direction, amount: int)

  /** What an append leaves on record besides its legs. */
  datatype Marker = Marker(key: string, phase: string)

  const APPEND := Marker("treasury-withdrawal", "TREASURY_WITHDRAWAL_EXECUTION")

  type User = nat

  /** The rows of one withdrawal: `lease` ends the current claim and `claimed` says whether the execution
      state is one a claim may take over. `locked` says whether an account of the pair is locked, frozen,
      blocked or suspended, or is gone; the last two fields add up what others have moved to the goal and to
      the destination since the request. */
  datatype Rows = Rows(
    status: Status, amount: int, maker: User, approvedBy: set<User>, required: nat, claimed: bool, lease: int,
    legs: seq<Leg>, markers: seq<Marker>, goal: int, destination: int, locked: bool, goalMoved: int, destinationMoved: int)

  /** The two unique indexes over the markers of a transaction. */
  datatype Indexes = Indexes(key: bool, phase: bool)

  const BOTH := Indexes(true, true)

  function Pair(amount: int): seq<Leg> { [Leg(Goal, Debit, amount), Leg(Destination, Credit, amount)] }

  /** Both directions are there already. */
  predicate Applied(legs: seq<Leg>) {
    (exists leg :: leg in legs && leg.side == Goal && leg.direction == Debit)
    && (exists leg :: leg in legs && leg.side == Destination && leg.direction == Credit)
  }

  function CountOf(legs: seq<Leg>, side: Side, direction: Direction): nat {
    if legs == [] then 0
    else (if legs[0].side == side && legs[0].direction == direction then 1 else 0) + CountOf(legs[1..], side, direction)
  }

  lemma {:induction false} CountsExactly(legs: seq<Leg>, side: Side, direction: Direction)
    ensures CountOf(legs, side, direction) > 0 <==> exists leg :: leg in legs && leg.side == side && leg.direction == direction
  {
    if legs != [] {
      CountsExactly(legs[1..], side, direction);
      assert legs == [legs[0]] + legs[1..];
    }
  }

  /** The pair counts as posted exactly when the goal has a debit and the destination a credit. */
  lemma AppliedExactly(legs: seq<Leg>)
    ensures Applied(legs) <==> CountOf(legs, Goal, Debit) > 0 && CountOf(legs, Destination, Credit) > 0
  {
    CountsExactly(legs, Goal, Debit);
    CountsExactly(legs, Destination, Credit);
  }

  /** No two markers agree where an index asks for a difference. */
  predicate Unique(markers: seq<Marker>, indexes: Indexes) {
    forall i, j | 0 <= i < j < |markers| ::
      (indexes.key ==> markers[i].key != markers[j].key) && (indexes.phase ==> markers[i].phase != markers[j].phase)
  }

  /** The indexes refuse an append exactly when its marker would break them. */
  lemma RefusedExactly(markers: seq<Marker>, indexes: Indexes)
    requires Unique(markers, indexes)
    ensures Refused(markers, indexes) <==> !Unique(markers + [APPEND], indexes)
  {
    var after := markers + [APPEND];
    assert after[|markers|] == APPEND;
    if m :| m in markers && ((indexes.key && m.key == APPEND.key) || (indexes.phase && m.phase == APPEND.phase)) {
      var i :| 0 <= i < |markers| && markers[i] == m;
      assert after[i] == m;
    }
  }

  /** A unique index refuses the marker of an append. */
  predicate Refused(markers: seq<Marker>, indexes: Indexes) {
    exists m | m in markers :: (indexes.key && m.key == APPEND.key) || (indexes.phase && m.phase == APPEND.phase)
  }

  predicate CanAppend(r: Rows, indexes: Indexes) {
    !Refused(r.markers, indexes) && !r.locked && r.amount > 0 && r.goal >= r.amount
  }

  function Appended(r: Rows): Rows {
    r.(legs := r.legs + Pair(r.amount), markers := r.markers + [APPEND],
       goal := r.goal - r.amount, destination := r.destination + r.amount)
  }

  function Quorum(required: nat): nat { if required < 2 then 2 else required }

  /** An approval, and whether it reaches the quorum and so starts the execution. */
  function Approved(r: Rows, admin: User, eligible: bool, now: int): (Rows, bool) {
    if !r.status.HeldForReview? || admin == r.maker || !eligible || admin in r.approvedBy then (r, false)
    else
      var approvers := r.approvedBy + {admin};
      if |approvers| < Quorum(r.required) then (r.(approvedBy := approvers), false)
      else (r.(approvedBy := approvers, status := Processing, claimed := true, lease := now + 120), true)
  }

  function Reclaimed(r: Rows, now: int): Option<Rows> {
    if r.status.Processing? && r.claimed && r.lease <= now then Some(r.(lease := now + 120)) else None
  }

  function Closed(r: Rows): Rows { if r.status.Completed? then r.(claimed := false, lease := 0) else r }

  function NewRows(amount: int, maker: User, required: nat, goal: int, destination: int): Rows {
    Rows(HeldForReview, amount, maker, {}, required, false, 0, [], [], goal, destination, false, 0, 0)
  }

  class Withdrawal {
    var rows: Rows

    constructor (amount: int, maker: User, required: nat, goal: int, destination: int)
      ensures rows == NewRows(amount, maker, required, goal, destination)
    {
      rows := Rows(HeldForReview, amount, maker, {}, required, false, 0, [], [], goal, destination, false, 0, 0);
    }

    method Approve(admin: User, eligible: bool, now: int) returns (execute: bool)
      modifies this
      ensures (rows, execute) == Approved(old(rows), admin, eligible, now)
      ensures var before := old(rows);
              var counts := before.status == HeldForReview && eligible && admin != before.maker && admin !in before.approvedBy;
              && rows.approvedBy == (if counts then before.approvedBy + {admin} else before.approvedBy)
              && (execute <==> counts && |before.approvedBy| + 1 >= 2 && |before.approvedBy| + 1 >= before.required)
    {
      if rows.status != HeldForReview || rows.maker == admin { return false; }
      if !eligible || admin in rows.approvedBy { return false; }
      rows := rows.(approvedBy := rows.approvedBy + {admin});
      var required := if rows.required < 2 then 2 else rows.required;
      execute := |rows.approvedBy| >= required;
      if execute { rows := rows.(status := Processing, claimed := true, lease := now + 120); }
    }

    /** The claim of a recovering worker. */
    method ClaimExecution(now: int) returns (claimed: bool)
      modifies this
      ensures claimed == Reclaimed(old(rows), now).Some?
      ensures rows == if claimed then Reclaimed(old(rows), now).value else old(rows)
    {
      if rows.status != Processing || !rows.claimed || rows.lease > now { return false; }
      rows := rows.(lease := now + 120);
      return true;
    }

    method LedgerAlreadyApplied(unreadable: bool) returns (applied: bool)
      ensures applied == (!unreadable && Applied(rows.legs))
      ensures applied <==> !unreadable && CountOf(rows.legs, Goal, Debit) > 0 && CountOf(rows.legs, Destination, Credit) > 0
    {
      var debit, credit, i := false, false, 0;
      var legs := if unreadable then [] else rows.legs;
      while i < |legs|
        invariant i <= |legs|
        invariant debit <==> exists leg :: leg in legs[..i] && leg.side == Goal && leg.direction == Debit
        invariant credit <==> exists leg :: leg in legs[..i] && leg.side == Destination && leg.direction == Credit
      {
        assert legs[..i + 1] == legs[..i] + [legs[i]];
        debit := debit || (legs[i].side == Goal && legs[i].direction == Debit);
        credit := credit || (legs[i].side == Destination && legs[i].direction == Credit);
        i := i + 1;
      }
      assert legs[..i] == legs;
      AppliedExactly(rows.legs);
      return debit && credit;
    }

    method AppendLedgerEntries(indexes: Indexes) returns (ok: bool)
      modifies this
      ensures ok == CanAppend(old(rows), indexes)
      ensures rows == if ok then Appended(old(rows)) else old(rows)
    {
      if indexes.key && exists m | m in rows.markers :: m.key == APPEND.key { return false; }
      if indexes.phase && exists m | m in rows.markers :: m.phase == APPEND.phase { return false; }
      if rows.locked { return false; }
      if rows.amount <= 0 || rows.goal < rows.amount { return false; }
      rows := rows.(legs := rows.legs + Pair(rows.amount), markers := rows.markers + [APPEND],
                    goal := rows.goal - rows.amount, destination := rows.destination + rows.amount);
      return true;
    }

    /** The write that follows a valid transition. */
    method Complete()
      modifies this
      ensures rows == old(rows).(status := Completed)
    {
      rows := rows.(status := Completed);
    }

    method CloseExecution()
      modifies this
      ensures rows == Closed(old(rows))
    {
      if rows.status == Completed { rows := rows.(claimed := false, lease := 0); }
    }
  }

  // ----------------------------------------------------------------------------------------- interleavings

  /** How far a worker is. `Deciding` has read the legs, `Posted` has posted or found them posted, and
      `Finishing` has found that the status may become completed. */
  datatype Place = Idle | Claimed | Reading | Deciding(applied: bool) | Posted | Finishing | Closing

  type Worker = nat

  datatype State = State(rows: Rows, places: map<Worker, Place>)

  function PlaceOf(s: State, w: Worker): Place { if w in s.places then s.places[w] else Idle }

  function Move(s: State, w: Worker, place: Place): State { s.(places := s.places[w := place]) }

  datatype Action =
    | Approval(admin: User, eligible: bool, now: int)
    | Recovery(now: int)
    | ReadTransaction
    | ReadLegs(unreadable: bool)
    | Append(answered: bool)
    | CheckStatus(readable: bool)
    | WriteStatus(works: bool)
    | Close
    | Crash
    | StatusChange(status: Status)
    | Movement(toGoal: int, toDestination: int)
    | Lock(on: bool)

  /** Anybody may change the status, except that only this execution completes the withdrawal; and anybody may
      lock the accounts and move money, except below zero. */
  predicate Enabled(s: State, w: Worker, a: Action) {
    match a
    case Approval(_, _, _) => PlaceOf(s, w).Idle?
    case Recovery(_) => PlaceOf(s, w).Idle?
    case ReadTransaction => PlaceOf(s, w).Claimed?
    case ReadLegs(_) => PlaceOf(s, w).Reading?
    case Append(_) => PlaceOf(s, w).Deciding?
    case CheckStatus(_) => PlaceOf(s, w).Posted?
    case WriteStatus(_) => PlaceOf(s, w).Finishing?
    case Close => PlaceOf(s, w).Closing?
    case Crash => true
    case StatusChange(status) => !status.Completed?
    case Movement(toGoal, toDestination) => toGoal >= 0 || s.rows.goal + toGoal >= 0
    case Lock(_) => true
  }

  function Step(s: State, w: Worker, a: Action, indexes: Indexes): State {
    var r := s.rows;
    match a
    case Approval(admin, eligible, now) =>
      var (rows, execute) := Approved(r, admin, eligible, now);
      if execute then Move(s.(rows := rows), w, Claimed) else s.(rows := rows)
    case Recovery(now) =>
      if Reclaimed(r, now).Some? then Move(s.(rows := Reclaimed(r, now).value), w, Claimed) else s
    case ReadTransaction => Move(s, w, if r.status.Processing? then Reading else Idle)
    case ReadLegs(unreadable) => Move(s, w, Deciding(!unreadable && Applied(r.legs)))
    case Append(answered) =>
      if PlaceOf(s, w).Deciding? && PlaceOf(s, w).applied then Move(s, w, Posted)
      else if CanAppend(r, indexes) then Move(s.(rows := Appended(r)), w, if answered then Posted else Idle)
      else Move(s, w, Idle)
    case CheckStatus(readable) => Move(s, w, if readable && IsValidTransition(r.status, Completed) then Finishing else Closing)
    case WriteStatus(works) => Move(if works then s.(rows := r.(status := Completed)) else s, w, Closing)
    case Close => Move(s.(rows := Closed(r)), w, Idle)
    case Crash => Move(s, w, Idle)
    case StatusChange(status) => s.(rows := r.(status := status))
    case Movement(toGoal, toDestination) =>
      s.(rows := r.(goal := r.goal + toGoal, goalMoved := r.goalMoved + toGoal,
                    destination := r.destination + toDestination, destinationMoved := r.destinationMoved + toDestination))
    case Lock(on) => s.(rows := r.(locked := on))
  }

  predicate Legal(s: State, run: seq<(Worker, Action)>, indexes: Indexes)
    decreases |run|
  {
    run != [] ==> Enabled(s, run[0].0, run[0].1) && Legal(Step(s, run[0].0, run[0].1, indexes), run[1..], indexes)
  }

  function Run(s: State, run: seq<(Worker, Action)>, indexes: Indexes): State
    decreases |run|
  {
    if run == [] then s else Run(Step(s, run[0].0, run[0].1, indexes), run[1..], indexes)
  }

  /** What a request records: who made it, for how much, how many approvals it asks for, and the balances
      then. */
  datatype Request = Request(amount: int, maker: User, required: nat, goal: int, destination: int)

  function Requested(q: Request): State { State(NewRows(q.amount, q.maker, q.required, q.goal, q.destination), map[]) }

  // --------------------------------------------------------------------------------------------- invariants

  predicate Past(place: Place) { place.Posted? || place.Finishing? || (place.Deciding? && place.applied) }

  predicate Paid(r: Rows) { r.markers != [] }

  ghost predicate Inv(s: State, q: Request) {
    && s.rows.amount == q.amount
    && s.rows.markers == (if Paid(s.rows) then [APPEND] else [])
    && s.rows.legs == (if Paid(s.rows) then Pair(q.amount) else [])
    && s.rows.goal == q.goal + s.rows.goalMoved - (if Paid(s.rows) then q.amount else 0)
    && s.rows.destination == q.destination + s.rows.destinationMoved + (if Paid(s.rows) then q.amount else 0)
    && (Paid(s.rows) ==> q.amount > 0) && (q.goal >= 0 ==> s.rows.goal >= 0)
    && (s.rows.status.Completed? ==> Paid(s.rows))
    && (forall w | w in s.places && Past(s.places[w]) :: Paid(s.rows))
  }

  lemma StepKeepsInv(s: State, w: Worker, a: Action, q: Request, indexes: Indexes)
    requires Inv(s, q) && Enabled(s, w, a) && (indexes.key || indexes.phase)
    ensures Inv(Step(s, w, a, indexes), q)
  {
    if Paid(s.rows) { assert APPEND in s.rows.markers; } else { assert !Applied(s.rows.legs); }
  }

  lemma {:induction false} RunKeepsInv(s: State, run: seq<(Worker, Action)>, q: Request, indexes: Indexes)
    requires Inv(s, q) && Legal(s, run, indexes) && (indexes.key || indexes.phase)
    ensures Inv(Run(s, run, indexes), q)
    decreases |run|
  {
    hide Inv, Step;
    if run != [] {
      StepKeepsInv(s, run[0].0, run[0].1, q, indexes);
      RunKeepsInv(Step(s, run[0].0, run[0].1, indexes), run[1..], q, indexes);
    }
  }

  /** The request is as it was made, its maker never approves, and nobody executes, nothing can be taken over
      and nothing is posted before enough others have approved. */
  ghost predicate Authorised(s: State, q: Request) {
    && s.rows.maker == q.maker && s.rows.required == q.required && q.maker !in s.rows.approvedBy
    && (s.rows.claimed || s.rows.legs != [] || (exists w | w in s.places :: !s.places[w].Idle?) ==>
          |s.rows.approvedBy| >= Quorum(q.required))
  }

  lemma StepKeepsAuthorised(s: State, w: Worker, a: Action, q: Request, indexes: Indexes)
    requires Authorised(s, q) && Enabled(s, w, a)
    ensures Authorised(Step(s, w, a, indexes), q)
  {
    if a.Approval? {
      ApprovalsGrow(s.rows.approvedBy, a.admin);
    }
  }

  lemma ApprovalsGrow(approvers: set<User>, admin: User)
    ensures |approvers + {admin}| >= |approvers|
  {
    if admin in approvers { assert approvers + {admin} == approvers; }
  }

  lemma {:induction false} RunKeepsAuthorised(s: State, run: seq<(Worker, Action)>, q: Request, indexes: Indexes)
    requires Authorised(s, q) && Legal(s, run, indexes)
    ensures Authorised(Run(s, run, indexes), q)
    decreases |run|
  {
    hide Authorised, Step;
    if run != [] {
      StepKeepsAuthorised(s, run[0].0, run[0].1, q, indexes);
      RunKeepsAuthorised(Step(s, run[0].0, run[0].1, indexes), run[1..], q, indexes);
    }
  }

  // ------------------------------------------------------------------------------------------- main results

  /** In every interleaving of any number of workers, crashes, takeovers and lost answers, with accounts locked
      and money moved by others meanwhile: the ledger holds no leg, or exactly the pair of the requested amount;
      the balances are what others made them but for that pair, and the goal's is not negative; and a completed
      withdrawal has its pair. */
  lemma PaidOnceInAllRuns(q: Request, run: seq<(Worker, Action)>, indexes: Indexes)
    requires Legal(Requested(q), run, indexes) && (indexes.key || indexes.phase)
    ensures var r := Run(Requested(q), run, indexes).rows;
            var paid := if r.legs == [] then 0 else q.amount;
            && (r.legs == [] || r.legs == [Leg(Goal, Debit, q.amount), Leg(Destination, Credit, q.amount)])
            && (r.status.Completed? ==> r.legs == [Leg(Goal, Debit, q.amount), Leg(Destination, Credit, q.amount)])
            && r.goal == q.goal + r.goalMoved - paid && r.destination == q.destination + r.destinationMoved + paid
            && (q.goal >= 0 ==> r.goal >= 0)
  {
    hide Run, Legal;
    RunKeepsInv(Requested(q), run, q, indexes);
  }

  /** Somebody other than the maker, and eligible, has approved the withdrawal at a step of the run at which it was
      held. */
  predicate ApprovedInRun(s: State, run: seq<(Worker, Action)>, indexes: Indexes, maker: User, admin: User) {
    admin != maker
    && exists i | 0 <= i < |run| ::
         && run[i].1.Approval? && run[i].1.admin == admin && run[i].1.eligible
         && Run(s, run[..i], indexes).rows.status == HeldForReview
  }

  lemma NewApproval(s: State, w: Worker, a: Action, indexes: Indexes, admin: User)
    requires admin in Step(s, w, a, indexes).rows.approvedBy && admin !in s.rows.approvedBy
    ensures a.Approval? && a.admin == admin && a.eligible && s.rows.status == HeldForReview && admin != s.rows.maker
  {
  }

  lemma StepKeepsMaker(s: State, w: Worker, a: Action, indexes: Indexes)
    ensures Step(s, w, a, indexes).rows.maker == s.rows.maker
  {
  }

  lemma LaterApproval(s: State, run: seq<(Worker, Action)>, indexes: Indexes, maker: User, admin: User)
    requires run != [] && ApprovedInRun(Step(s, run[0].0, run[0].1, indexes), run[1..], indexes, maker, admin)
    ensures ApprovedInRun(s, run, indexes, maker, admin)
  {
    hide Step;
    var t := Step(s, run[0].0, run[0].1, indexes);
    var i :| 0 <= i < |run[1..]| && run[1..][i].1.Approval? && run[1..][i].1.admin == admin && run[1..][i].1.eligible
             && Run(t, run[1..][..i], indexes).rows.status == HeldForReview;
    assert run[..i + 1][1..] == run[1..][..i] && run[1..][i] == run[i + 1];
    assert Run(s, run[..i + 1], indexes) == Run(t, run[1..][..i], indexes);
  }

  /** In every run, whoever counts as an approver has approved in it, was eligible then, and is not the maker. */
  lemma {:induction false} ApproversWereEligible(s: State, run: seq<(Worker, Action)>, indexes: Indexes, admin: User)
    requires admin in Run(s, run, indexes).rows.approvedBy && admin !in s.rows.approvedBy
    ensures ApprovedInRun(s, run, indexes, s.rows.maker, admin)
    decreases |run|
  {
    hide Step, ApprovedInRun;
    if run != [] {
      var t := Step(s, run[0].0, run[0].1, indexes);
      StepKeepsMaker(s, run[0].0, run[0].1, indexes);
      if admin in t.rows.approvedBy {
        NewApproval(s, run[0].0, run[0].1, indexes, admin);
        FirstApproval(s, run, indexes, admin);
      } else {
        ApproversWereEligible(t, run[1..], indexes, admin);
        LaterApproval(s, run, indexes, s.rows.maker, admin);
      }
    }
  }

  lemma FirstApproval(s: State, run: seq<(Worker, Action)>, indexes: Indexes, admin: User)
    requires run != [] && run[0].1.Approval? && run[0].1.admin == admin && run[0].1.eligible
    requires s.rows.status == HeldForReview && admin != s.rows.maker
    ensures ApprovedInRun(s, run, indexes, s.rows.maker, admin)
  {
    assert run[..0] == [] && Run(s, run[..0], indexes) == s;
  }

  /** In every run, whatever the indexes, no leg is posted before at least two people, and as many as the
      request asks for, have approved while they were eligible, none of them its maker. */
  lemma PaidOnlyAfterQuorum(q: Request, run: seq<(Worker, Action)>, indexes: Indexes)
    requires Legal(Requested(q), run, indexes) && Run(Requested(q), run, indexes).rows.legs != []
    ensures var r := Run(Requested(q), run, indexes).rows;
            && |r.approvedBy| >= 2 && |r.approvedBy| >= q.required
            && forall admin | admin in r.approvedBy :: ApprovedInRun(Requested(q), run, indexes, q.maker, admin)
  {
    hide Run, Legal, ApprovedInRun;
    RunKeepsAuthorised(Requested(q), run, q, indexes);
    forall admin | admin in Run(Requested(q), run, indexes).rows.approvedBy
      ensures ApprovedInRun(Requested(q), run, indexes, q.maker, admin)
    {
      ApproversWereEligible(Requested(q), run, indexes, admin);
    }
  }

  /** In every run, an approval counts exactly when the withdrawal is held, and the approver is eligible, not its maker
      and new; and it starts the execution, with a lease of two minutes, exactly when it counts and makes at least two
      approvals, and as many as the request asks for. */
  lemma ApprovalCountsExactly(q: Request, run: seq<(Worker, Action)>, indexes: Indexes, w: Worker, admin: User, eligible: bool, now: int)
    requires Legal(Requested(q), run, indexes) && Enabled(Run(Requested(q), run, indexes), w, Approval(admin, eligible, now))
    ensures var s := Run(Requested(q), run, indexes); var t := Step(s, w, Approval(admin, eligible, now), indexes);
            var counts := s.rows.status == HeldForReview && eligible && admin != q.maker && admin !in s.rows.approvedBy;
            var starts := counts && |s.rows.approvedBy| + 1 >= 2 && |s.rows.approvedBy| + 1 >= q.required;
            && t.rows.approvedBy == (if counts then s.rows.approvedBy + {admin} else s.rows.approvedBy)
            && (PlaceOf(t, w) == Claimed <==> starts)
            && t.rows.(approvedBy := s.rows.approvedBy)
               == if starts then s.rows.(status := Processing, claimed := true, lease := now + 120) else s.rows
  {
    hide Run, Legal;
    RunKeepsAuthorised(Requested(q), run, q, indexes);
  }

  /** A recovery takes an execution over exactly when it is processing, claimed and out of its lease, and renews the
      lease by two minutes. */
  lemma RecoveryClaimsExactly(s: State, w: Worker, now: int, indexes: Indexes)
    requires Enabled(s, w, Recovery(now))
    ensures var t := Step(s, w, Recovery(now), indexes);
            var claims := s.rows.status == Processing && s.rows.claimed && s.rows.lease <= now;
            && (PlaceOf(t, w) == Claimed <==> claims)
            && t.rows == if claims then s.rows.(lease := now + 120) else s.rows
  {
  }

  ghost predicate PaysAtMostOnce(indexes: Indexes) {
    forall q, run | Legal(Requested(q), run, indexes) :: |Run(Requested(q), run, indexes).rows.legs| <= |Pair(q.amount)|
  }

  const NONE := Indexes(false, false)

  lemma FirstStep(s: State, w: Worker, a: Action, rest: seq<(Worker, Action)>)
    requires Enabled(s, w, a) && Legal(Step(s, w, a, NONE), rest, NONE)
    ensures Legal(s, [(w, a)] + rest, NONE) && Run(s, [(w, a)] + rest, NONE) == Run(Step(s, w, a, NONE), rest, NONE)
  {
    assert ([(w, a)] + rest)[1..] == rest;
  }

  lemma LastStep(s: State, w: Worker, a: Action)
    requires Enabled(s, w, a)
    ensures Legal(s, [(w, a)], NONE) && Run(s, [(w, a)], NONE) == Step(s, w, a, NONE)
  {
    hide Step;
    assert [(w, a)][1..] == [];
  }

  /** A withdrawal of 1 that two people have approved. */
  function Executing(lease: int): Rows { Rows(Processing, 1, 0, {1, 2}, 2, true, lease, [], [], 2, 0, false, 0, 0) }

  /** Two workers that have both read no legs. */
  lemma BothPost(s: State) returns (run: seq<(Worker, Action)>)
    requires s.rows == Executing(240) && PlaceOf(s, 0) == Deciding(false) && PlaceOf(s, 1) == Deciding(false)
    ensures Legal(s, run, NONE) && |Run(s, run, NONE).rows.legs| == 2 * |Pair(1)|
  {
    hide Legal, Run, Step;
    var s1 := Step(s, 0, Append(true), NONE);
    AppendWithoutIndexes(s, 0, 1);
    AppendWithoutIndexes(s1, 1, 0);
    var t1 := [(1, Append(true))];
    LastStep(s1, 1, Append(true));
    run := [(0, Append(true))] + t1;
    FirstStep(s, 0, Append(true), t1);
  }

  lemma AppendWithoutIndexes(s: State, w: Worker, other: Worker)
    requires s.rows.goal >= s.rows.amount > 0 && !s.rows.locked && PlaceOf(s, w) == Deciding(false) && other != w
    ensures var t := Step(s, w, Append(true), NONE);
            t.rows == Appended(s.rows) && |t.rows.legs| == |s.rows.legs| + |Pair(1)| && PlaceOf(t, other) == PlaceOf(s, other)
  {
  }

  /** The takeover of a worker that has read no legs. */
  lemma TakeOver(s: State) returns (run: seq<(Worker, Action)>)
    requires s.rows == Executing(120) && PlaceOf(s, 0) == Deciding(false) && PlaceOf(s, 1) == Idle
    ensures Legal(s, run, NONE) && |Run(s, run, NONE).rows.legs| == 2 * |Pair(1)|
  {
    hide Legal, Run, Pair;
    var s1 := Step(s, 1, Recovery(120), NONE);
    var s2 := Step(s1, 1, ReadTransaction, NONE);
    var s3 := Step(s2, 1, ReadLegs(false), NONE);
    assert PlaceOf(s3, 1) == Deciding(false);
    var t3 := BothPost(s3);
    var t2 := [(1, ReadLegs(false))] + t3;
    FirstStep(s2, 1, ReadLegs(false), t3);
    var t1 := [(1, ReadTransaction)] + t2;
    FirstStep(s1, 1, ReadTransaction, t2);
    run := [(1, Recovery(120))] + t1;
    FirstStep(s, 1, Recovery(120), t1);
  }

  lemma ReadFirst(s: State) returns (run: seq<(Worker, Action)>)
    requires s.rows == Executing(120) && PlaceOf(s, 0) == Claimed && PlaceOf(s, 1) == Idle
    ensures Legal(s, run, NONE) && |Run(s, run, NONE).rows.legs| == 2 * |Pair(1)|
  {
    hide Legal, Run, Pair;
    var s1 := Step(s, 0, ReadTransaction, NONE);
    var s2 := Step(s1, 0, ReadLegs(false), NONE);
    var t2 := TakeOver(s2);
    var t1 := [(0, ReadLegs(false))] + t2;
    FirstStep(s1, 0, ReadLegs(false), t2);
    run := [(0, ReadTransaction)] + t1;
    FirstStep(s, 0, ReadTransaction, t1);
  }

  const SMALL := Request(1, 0, 2, 2, 0)

  /** Without the indexes, reading the legs first is not enough: a worker whose lease runs out between its
      reading and its posting, and the worker that takes over, post one pair each. */
  lemma ReadingIsNotEnough() returns (run: seq<(Worker, Action)>)
    ensures Legal(Requested(SMALL), run, NONE) && |Run(Requested(SMALL), run, NONE).rows.legs| == 2 * |Pair(1)|
  {
    hide Legal, Run, Pair;
    var s0, a, b := Requested(SMALL), Approval(1, true, 0), Approval(2, true, 0);
    var s1 := Step(s0, 0, a, NONE);
    assert s1.rows.approvedBy == {1} && s1.places == map[];
    var s2 := Step(s1, 0, b, NONE);
    assert {1} + {2} == {1, 2};
    var t2 := ReadFirst(s2);
    var t1 := [(0, b)] + t2;
    FirstStep(s1, 0, b, t2);
    run := [(0, a)] + t1;
    FirstStep(s0, 0, a, t1);
  }

  /** It is the two unique indexes, either of them, and not the reading of the legs, that keep a withdrawal
      from being paid twice. */
  lemma PaysAtMostOnceExactly(indexes: Indexes)
    ensures PaysAtMostOnce(indexes) <==> indexes.key || indexes.phase
  {
    hide Legal, Run;
    if indexes.key || indexes.phase {
      forall q, run | Legal(Requested(q), run, indexes)
        ensures |Run(Requested(q), run, indexes).rows.legs| <= |Pair(q.amount)|
      {
        PaidOnceInAllRuns(q, run, indexes);
      }
    } else {
      var run := ReadingIsNotEnough();
      assert indexes == NONE && |Run(Requested(SMALL), run, indexes).rows.legs| == 2 * |Pair(1)| > |Pair(SMALL.amount)|;
    }
  }

  /** A recovery by one worker, from its claim to its last write, with nothing failing and nobody else
      acting; it ends where the pair is not there and cannot be posted. */
  function Recovering(s: State, w: Worker, now: int): seq<(Worker, Action)> {
    var s1 := Step(s, w, Recovery(now), BOTH);
    var s2 := Step(s1, w, ReadTransaction, BOTH);
    var s3 := Step(s2, w, ReadLegs(false), BOTH);
    [(w, Recovery(now)), (w, ReadTransaction), (w, ReadLegs(false)), (w, Append(true))]
    + if PlaceOf(Step(s3, w, Append(true), BOTH), w).Idle? then []
      else [(w, CheckStatus(true)), (w, WriteStatus(true)), (w, Close)]
  }

  /** Wherever earlier workers have crashed, a recovery whose claim succeeds completes the withdrawal
      exactly when the pair is already there, or no account of the pair is locked and the goal can still pay it. */
  lemma RecoveryCompletesExactly(q: Request, run: seq<(Worker, Action)>, w: Worker, now: int)
    requires Legal(Requested(q), run, BOTH)
    requires var s := Run(Requested(q), run, BOTH);
             PlaceOf(s, w).Idle? && s.rows.status.Processing? && s.rows.claimed && s.rows.lease <= now
    ensures var s := Run(Requested(q), run, BOTH);
            && Legal(s, Recovering(s, w, now), BOTH)
            && var r := Run(s, Recovering(s, w, now), BOTH).rows;
            && (r.status.Completed? <==> s.rows.legs == Pair(q.amount) || (!s.rows.locked && 0 < q.amount <= s.rows.goal))
            && (r.status.Completed? ==> r.legs == Pair(q.amount) && !r.claimed)
            && (!r.status.Completed? ==> r == s.rows.(lease := now + 120))
  {
    hide Run, Legal, Step, Recovering;
    RunKeepsInv(Requested(q), run, q, BOTH);
    RecoveryFrom(q, Run(Requested(q), run, BOTH), w, now);
  }

  lemma AppliedWhenPaid(q: Request, s: State)
    requires Inv(s, q)
    ensures Applied(s.rows.legs) <==> Paid(s.rows)
    ensures s.rows.legs == Pair(q.amount) <==> Paid(s.rows)
  {
    if Paid(s.rows) {
      var pair := Pair(q.amount);
      assert pair[0] in pair && pair[1] in pair;
    } else {
      assert !Applied(s.rows.legs);
    }
  }

  lemma RecoveryFrom(q: Request, s: State, w: Worker, now: int)
    requires Inv(s, q) && PlaceOf(s, w).Idle? && s.rows.status.Processing? && s.rows.claimed && s.rows.lease <= now
    ensures && Legal(s, Recovering(s, w, now), BOTH)
            && var r := Run(s, Recovering(s, w, now), BOTH).rows;
            && (r.status.Completed? <==> s.rows.legs == Pair(q.amount) || (!s.rows.locked && 0 < q.amount <= s.rows.goal))
            && (r.status.Completed? ==> r.legs == Pair(q.amount) && !r.claimed)
            && (!r.status.Completed? ==> r == s.rows.(lease := now + 120))
  {
    hide Run, Legal, Applied;
    AppliedWhenPaid(q, s);
    var s1 := Step(s, w, Recovery(now), BOTH);
    var s2 := Step(s1, w, ReadTransaction, BOTH);
    var s3 := Step(s2, w, ReadLegs(false), BOTH);
    var s4 := Step(s3, w, Append(true), BOTH);
    FourSteps(s, w, Recovery(now), ReadTransaction, ReadLegs(false), Append(true));
    if !PlaceOf(s4, w).Idle? {
      ThreeSteps(s4, w, CheckStatus(true), WriteStatus(true), Close);
      RunsOn(s, [(w, Recovery(now)), (w, ReadTransaction), (w, ReadLegs(false)), (w, Append(true))],
             [(w, CheckStatus(true)), (w, WriteStatus(true)), (w, Close)]);
    } else {
      assert Recovering(s, w, now) == [(w, Recovery(now)), (w, ReadTransaction), (w, ReadLegs(false)), (w, Append(true))];
    }
  }

  lemma {:induction false} RunsOn(s: State, first: seq<(Worker, Action)>, rest: seq<(Worker, Action)>)
    requires Legal(s, first, BOTH) && Legal(Run(s, first, BOTH), rest, BOTH)
    ensures Legal(s, first + rest, BOTH) && Run(s, first + rest, BOTH) == Run(Run(s, first, BOTH), rest, BOTH)
    decreases |first|
  {
    hide Step, Enabled;
    if first == [] {
      assert first + rest == rest;
    } else {
      RunsOn(Step(s, first[0].0, first[0].1, BOTH), first[1..], rest);
      assert (first + rest)[1..] == first[1..] + rest;
    }
  }

  lemma ThreeSteps(s: State, w: Worker, a: Action, b: Action, c: Action)
    requires var t := Step(s, w, a, BOTH); Enabled(s, w, a) && Enabled(t, w, b) && Enabled(Step(t, w, b, BOTH), w, c)
    ensures Legal(s, [(w, a), (w, b), (w, c)], BOTH)
    ensures Run(s, [(w, a), (w, b), (w, c)], BOTH) == Step(Step(Step(s, w, a, BOTH), w, b, BOTH), w, c, BOTH)
  {
    hide Step, Enabled;
    var t := Step(s, w, a, BOTH);
    var u := Step(t, w, b, BOTH);
    assert [(w, c)][1..] == [] && [(w, b), (w, c)][1..] == [(w, c)] && [(w, a), (w, b), (w, c)][1..] == [(w, b), (w, c)];
    assert Legal(u, [(w, c)], BOTH) && Run(u, [(w, c)], BOTH) == Step(u, w, c, BOTH);
    assert Legal(t, [(w, b), (w, c)], BOTH);
  }

  lemma FourSteps(s: State, w: Worker, a: Action, b: Action, c: Action, d: Action)
    requires Enabled(s, w, a)
    requires var t := Step(s, w, a, BOTH); var u := Step(t, w, b, BOTH);
             Enabled(t, w, b) && Enabled(u, w, c) && Enabled(Step(u, w, c, BOTH), w, d)
    ensures Legal(s, [(w, a), (w, b), (w, c), (w, d)], BOTH)
    ensures Run(s, [(w, a), (w, b), (w, c), (w, d)], BOTH)
         == Step(Step(Step(Step(s, w, a, BOTH), w, b, BOTH), w, c, BOTH), w, d, BOTH)
  {
    hide Step, Enabled;
    ThreeSteps(Step(s, w, a, BOTH), w, b, c, d);
    assert [(w, a), (w, b), (w, c), (w, d)][1..] == [(w, b), (w, c), (w, d)];
  }

  /** A worker goes on to write the status exactly when it can be read and may become completed; an execution whose
      status has moved on is closed without it. */
  lemma ChecksExactly(s: State, w: Worker, readable: bool, indexes: Indexes)
    requires Enabled(s, w, CheckStatus(readable))
    ensures var t := Step(s, w, CheckStatus(readable), indexes);
            t.rows == s.rows && PlaceOf(t, w) == if readable && Completed in NextStatuses(s.rows.status) then Finishing else Closing
  {
  }
}
