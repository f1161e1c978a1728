/** The caps on a goal while any number of runs allocate to it at the same time: what is allocated to it in a
    month, and what it holds in all. Each cap is kept exactly when certain slips do not happen. */
module AllocationTargets {
  import opened AllocationLaws
  import opened AutoAllocation
  import opened Outcomes
  import R = AllocationRaces

  /** A cap on a goal: a fixed monthly target, or the target itself. */
  datatype Cap = PerMonth(amount: int) | Overall(amount: int)

  predicate Keeps(g: Goal, cap: Cap) {
    match cap
    case PerMonth(amount) => g.strategy == FixedMonthly && g.monthlyTarget == amount
    case Overall(amount) => g.target == amount && g.current <= amount
  }

  /** The run has read the goal's month and not yet marked what it allocated. */
  predicate Open(s: R.State, r: nat, id: Id, month: int) {
    && r in s.runners && (s.runners[r].place.Deciding? || (s.runners[r].place.Marking? && s.runners[r].place.status == Completed))
    && s.runners[r].place.goal == id && s.runners[r].credit.month == month
  }

  /** The run has posted an allocation to the goal and heard of it. */
  predicate Completing(s: R.State, r: nat, id: Id) {
    r in s.runners && s.runners[r].place.Marking? && s.runners[r].place.status == Completed && s.runners[r].place.goal == id
  }

  /** The step moves money to the goal. */
  predicate Pays(s: R.State, a: R.Action, id: Id)
    requires R.Enabled(s, a)
  {
    a.Pay? && !a.fate.Refuses? && s.runners[a.runner].place.goal == id && R.DecisionOf(s.runners[a.runner]).Take?
  }

  /** What may go wrong: a month that cannot be read, an allocation that is not marked, one whose answer is lost, a
      month read while another run is between reading it and marking, and an allocation decided from a balance of
      the goal that has changed since the run started. */
  datatype Slip = Unread | Unmarked | Lost | Overlapped | Outdated

  predicate Happens(s: R.State, a: R.Action, id: Id, slip: Slip)
    requires R.Enabled(s, a)
  {
    match slip
    case Unread => a.ReadMonth? && !a.readable && s.runners[a.runner].place.goal == id
    case Unmarked => ((a.Mark? && !a.works) || a.Stop?) && Completing(s, a.runner, id)
    case Lost => Pays(s, a, id) && a.fate.Loses?
    case Overlapped =>
      && a.ReadMonth? && s.runners[a.runner].place.goal == id
      && exists q | q in s.runners :: q != a.runner && Open(s, q, id, s.runners[a.runner].credit.month)
    case Outdated => Pays(s, a, id) && id in s.books.goals && s.books.goals[id].current != s.runners[a.runner].rows[id].current
  }

  /** The step changes no cap, and nothing goes wrong in it but what is allowed. */
  predicate Calm(s: R.State, a: R.Action, id: Id, cap: Cap, allowed: set<Slip>)
    requires R.Enabled(s, a)
  {
    && (forall slip: Slip | Happens(s, a, id, slip) :: slip in allowed)
    && (a.EditGoal? && a.id == id ==> Keeps(a.edited, cap))
  }

  predicate AllCalm(s: R.State, actions: seq<R.Action>, id: Id, cap: Cap, allowed: set<Slip>)
    requires R.Legal(s, actions)
    decreases |actions|
  {
    actions != [] ==>
      && Calm(s, actions[0], id, cap, allowed)
      && AllCalm(R.Step(s, actions[0]), actions[1..], id, cap, allowed)
  }

  // ------------------------------------------------------------------------------------ goals and their rows

  /** The goal keeps its cap, in the table and in what every run read of it. */
  ghost predicate Kept(s: R.State, id: Id, cap: Cap) {
    && (id in s.books.goals ==> Keeps(s.books.goals[id], cap))
    && (forall r | r in s.runners && id in s.runners[r].rows :: Keeps(s.runners[r].rows[id], cap))
  }

  lemma StepKeepsCap(s: R.State, a: R.Action, id: Id, cap: Cap)
    requires Kept(s, id, cap) && R.Enabled(s, a) && (a.EditGoal? && a.id == id ==> Keeps(a.edited, cap))
    requires cap.Overall? ==> !Happens(s, a, id, Outdated)
    ensures Kept(R.Step(s, a), id, cap)
  {
    hide DecideGoal, MonthTotal, Reserved, PaidBefore;
  }

  lemma {:induction false} RunKeepsCap(s: R.State, actions: seq<R.Action>, id: Id, cap: Cap, allowed: set<Slip>)
    requires Kept(s, id, cap) && R.Legal(s, actions) && AllCalm(s, actions, id, cap, allowed)
    requires cap.Overall? ==> Outdated !in allowed
    ensures Kept(R.Run(s, actions), id, cap)
    decreases |actions|
  {
    hide R.Step, R.Enabled, Happens, Kept;
    if actions != [] {
      StepKeepsCap(s, actions[0], id, cap);
      RunKeepsCap(R.Step(s, actions[0]), actions[1..], id, cap, allowed);
    }
  }

  // ---------------------------------------------------------------------------------------- events of runs

  /** The run is in a turn. */
  predicate Busy(s: R.State, r: nat) { r in s.runners && !s.runners[r].place.Between? }

  function RowOf(s: R.State, r: nat): nat
    requires Busy(s, r)
  {
    s.runners[r].place.row
  }

  /** The event of the turn the run is in. */
  function EventOf(s: R.State, r: nat): Event
    requires Busy(s, r)
  {
    Event(s.runners[r].place.goal, s.runners[r].credit.tx, s.runners[r].credit.month, Processing, 0)
  }

  /** Every run in a turn has the event of its goal, unfinished, and no two runs have the same. */
  ghost predicate Assigned(s: R.State) {
    && (forall r | Busy(s, r) :: RowOf(s, r) < |s.books.events| && s.books.events[RowOf(s, r)] == EventOf(s, r))
    && (forall r, q | Busy(s, r) && Busy(s, q) && RowOf(s, r) == RowOf(s, q) :: r == q)
  }

  /** No turn begins, and the events of those that go on stay. */
  lemma QuietKeepsAssigned(s: R.State, t: R.State)
    requires Assigned(s)
    requires forall r | Busy(t, r) :: Busy(s, r) && RowOf(t, r) == RowOf(s, r) && EventOf(t, r) == EventOf(s, r)
    requires forall r | Busy(t, r) :: RowOf(s, r) < |t.books.events| && t.books.events[RowOf(s, r)] == s.books.events[RowOf(s, r)]
    ensures Assigned(t)
  {
    hide Busy, RowOf, EventOf;
  }

  lemma BudgetKeepsEvents(s: R.State, a: R.Action)
    requires R.Enabled(s, a) && a.PayBudget?
    ensures R.Step(s, a).books.events == s.books.events && R.Step(s, a).books.goals == s.books.goals
    ensures R.Step(s, a).runners.Keys == s.runners.Keys
    ensures forall r | r in s.runners :: 
      var n := R.Step(s, a).runners[r];
      n.place == s.runners[r].place && n.credit == s.runners[r].credit && n.rows == s.runners[r].rows
  {
    hide PaidBefore;
  }

  lemma StepKeepsAssigned(s: R.State, a: R.Action)
    requires Assigned(s) && R.Enabled(s, a)
    ensures Assigned(R.Step(s, a))
  {
    hide R.DecisionOf, MonthTotal, Reserved, Assigned;
    if a.Reserve? {
      ReserveKeepsAssigned(s, a.runner, a.goal, a.fate);
    } else if a.Mark? {
      MarkKeepsAssigned(s, a.runner, a.works);
    } else {
      RowsExist(s);
      if a.PayBudget? {
        BudgetKeepsEvents(s, a);
        hide R.Step;
        QuietKeepsAssigned(s, R.Step(s, a));
      } else {
        QuietKeepsAssigned(s, R.Step(s, a));
      }
    }
  }

  lemma RowsExist(s: R.State)
    ensures Assigned(s) ==> forall r | Busy(s, r) :: RowOf(s, r) < |s.books.events|
  {
    hide Busy, RowOf, EventOf;
  }

  lemma ReserveKeepsAssigned(s: R.State, r: nat, goal: Id, fate: Fate)
    requires Assigned(s) && R.Enabled(s, R.Reserve(r, goal, fate))
    ensures Assigned(R.AfterReserve(s, r, goal, fate))
  {
    hide Reserved, Assigned;
    RowsExist(s);
    var t := R.AfterReserve(s, r, goal, fate);
    if r in t.runners && t.runners[r].place.Held? {
      assert forall q | Busy(t, q) && q != r :: Busy(s, q) && RowOf(t, q) == RowOf(s, q) && EventOf(t, q) == EventOf(s, q);
      NewTurnKeepsAssigned(s, t, r);
    } else {
      QuietKeepsAssigned(s, t);
    }
  }

  lemma NewTurnKeepsAssigned(s: R.State, t: R.State, r: nat)
    requires Assigned(s) && Busy(t, r) && RowOf(t, r) == |s.books.events| && t.books.events == s.books.events + [EventOf(t, r)]
    requires forall q | Busy(t, q) && q != r :: Busy(s, q) && RowOf(t, q) == RowOf(s, q) && EventOf(t, q) == EventOf(s, q)
    ensures Assigned(t)
  {
    hide Busy, RowOf, EventOf;
  }

  lemma MarkKeepsAssigned(s: R.State, r: nat, works: bool)
    requires Assigned(s) && R.Enabled(s, R.Mark(r, works))
    ensures Assigned(R.AfterMark(s, r, works))
  {
    assert Busy(s, r);
    assert forall q | Busy(R.AfterMark(s, r, works), q) :: Busy(s, q) && q != r && RowOf(s, q) != RowOf(s, r);
    QuietKeepsAssigned(s, R.AfterMark(s, r, works));
  }

  function Counted(e: Event, id: Id, month: int): int { if e.goal == id && e.month == month && e.status == Completed then e.amount else 0 }

  lemma {:induction false} MonthUpdated(events: seq<Event>, row: nat, e: Event, id: Id, month: int)
    requires row < |events|
    ensures MonthTotal(events[row := e], id, month)
         == MonthTotal(events, id, month) - Counted(events[row], id, month) + Counted(e, id, month)
  {
    var last := |events| - 1;
    if row < last {
      MonthUpdated(events[..last], row, e, id, month);
      assert events[row := e][..last] == events[..last][row := e];
    } else {
      assert events[row := e][..last] == events[..last];
    }
  }

  // --------------------------------------------------------------------------------------- sums of a month

  /** The run has posted an allocation to the goal for this month, heard of it, and not yet marked it. */
  predicate Marks(s: R.State, r: nat, id: Id, month: int) { Completing(s, r, id) && s.runners[r].credit.month == month }

  function Total(s: R.State, id: Id, month: int): int { MonthTotal(s.books.events, id, month) }

  function Sum(s: R.State, id: Id, month: int): int { MovedIn(s.books.posts, id, month) }

  /** The month's completed allocations are within the monthly target, also with the one that is about to be
      marked; and at most one run is between reading the month and marking. */
  ghost predicate InMonth(s: R.State, id: Id, month: int, monthly: int) {
    && Total(s, id, month) <= monthly
    && (forall r | Open(s, r, id, month) ::
          if s.runners[r].place.Deciding? then s.runners[r].place.month == Total(s, id, month)
          else Total(s, id, month) + s.runners[r].place.amount <= monthly)
    && (forall r, q | Open(s, r, id, month) && Open(s, q, id, month) :: r == q)
  }

  /** The money moved in the month is what the completed allocations and the one about to be marked say. */
  ghost predicate Tallied(s: R.State, id: Id, month: int) {
    && (forall r | Marks(s, r, id, month) :: Sum(s, id, month) == Total(s, id, month) + s.runners[r].place.amount)
    && ((forall r :: !Marks(s, r, id, month)) ==> Sum(s, id, month) == Total(s, id, month))
  }

  lemma QuietKeepsMonth(s: R.State, t: R.State, id: Id, month: int, monthly: int)
    requires InMonth(s, id, month, monthly) && Total(t, id, month) == Total(s, id, month)
    requires forall r | Open(t, r, id, month) :: Open(s, r, id, month) && t.runners[r].place == s.runners[r].place
    ensures InMonth(t, id, month, monthly)
  {
    hide Total;
  }

  lemma QuietKeepsTally(s: R.State, t: R.State, id: Id, month: int)
    requires Tallied(s, id, month) && Total(t, id, month) == Total(s, id, month) && Sum(t, id, month) == Sum(s, id, month)
    requires forall r :: Marks(t, r, id, month) == Marks(s, r, id, month)
    requires forall r | Marks(t, r, id, month) :: t.runners[r].place == s.runners[r].place
    ensures Tallied(t, id, month)
  {
    hide Total, Sum;
  }

  lemma ReserveKeepsSums(s: R.State, r: nat, goal: Id, fate: Fate, id: Id, month: int)
    requires R.Enabled(s, R.Reserve(r, goal, fate))
    ensures var t := R.AfterReserve(s, r, goal, fate); Total(t, id, month) == Total(s, id, month) && Sum(t, id, month) == Sum(s, id, month)
  {
    hide Reserved, MonthTotal;
    var c := s.runners[r].credit;
    UncompletedAddsNothing(s.books.events, Event(goal, c.tx, c.month, Processing, 0), id, month);
  }

  lemma BudgetKeepsSums(s: R.State, r: nat, budget: Id, amount: int, fate: Fate, id: Id, month: int)
    requires R.Enabled(s, R.PayBudget(r, budget, amount, fate))
    ensures var t := R.AfterBudget(s, r, budget, amount, fate); Total(t, id, month) == Total(s, id, month) && Sum(t, id, month) == Sum(s, id, month)
  {
    hide PaidBefore, MonthTotal, MovedIn;
    var c := s.runners[r].credit;
    MovedInOne(s.books.posts, Posting(ToBudget(budget), c.tx, c.month, amount), id, month);
  }

  /** What a decision and its posting change of a month: nothing, or the sum by the amount. */
  lemma PaySums(s: R.State, r: nat, fate: Fate, id: Id, month: int)
    requires R.Enabled(s, R.Pay(r, fate))
    ensures var t, n := R.AfterPay(s, r, fate), s.runners[r];
            && Total(t, id, month) == Total(s, id, month)
            && Sum(t, id, month) == Sum(s, id, month)
                 + if Pays(s, R.Pay(r, fate), id) && n.credit.month == month then R.DecisionOf(n).amount else 0
  {
    hide R.DecisionOf, MonthTotal, MovedIn;
    var n := s.runners[r];
    if R.DecisionOf(n).Take? {
      MovedInOne(s.books.posts, Posting(ToGoal(n.place.goal), n.credit.tx, n.credit.month, R.DecisionOf(n).amount), id, month);
    }
  }

  lemma MarkSums(s: R.State, r: nat, works: bool, id: Id, month: int)
    requires Assigned(s) && R.Enabled(s, R.Mark(r, works))
    ensures var t := R.AfterMark(s, r, works);
            && Total(t, id, month) == Total(s, id, month) + (if works && Marks(s, r, id, month) then s.runners[r].place.amount else 0)
            && Sum(t, id, month) == Sum(s, id, month)
  {
    hide MonthTotal, MovedIn;
    var place := s.runners[r].place;
    assert Busy(s, r);
    MonthUpdated(s.books.events, place.row, s.books.events[place.row].(status := place.status, amount := place.amount), id, month);
  }

  /** A goal with a monthly target is allocated something only once its month has been read. */
  lemma FixedReadsMonth(n: R.Runner, monthly: int)
    requires R.Ready(n) && Keeps(n.rows[n.place.goal], PerMonth(monthly)) && R.DecisionOf(n).Take?
    ensures n.place.Deciding? && n.place.month + R.DecisionOf(n).amount <= monthly
  {
  }

  lemma PayKeepsMonth(s: R.State, r: nat, fate: Fate, id: Id, month: int, monthly: int)
    requires InMonth(s, id, month, monthly) && Kept(s, id, PerMonth(monthly)) && R.Enabled(s, R.Pay(r, fate))
    ensures InMonth(R.AfterPay(s, r, fate), id, month, monthly)
  {
    hide Total, Sum, R.DecisionOf;
    var t, n := R.AfterPay(s, r, fate), s.runners[r];
    PaySums(s, r, fate, id, month);
    assert forall q | Open(t, q, id, month) && q != r :: Open(s, q, id, month) && t.runners[q].place == s.runners[q].place;
    if Open(t, r, id, month) {
      FixedReadsMonth(n, monthly);
      assert Open(s, r, id, month);
    } else {
      QuietKeepsMonth(s, t, id, month, monthly);
    }
  }

  lemma MarkKeepsMonth(s: R.State, r: nat, works: bool, id: Id, month: int, monthly: int)
    requires InMonth(s, id, month, monthly) && Assigned(s) && R.Enabled(s, R.Mark(r, works))
    ensures InMonth(R.AfterMark(s, r, works), id, month, monthly)
  {
    MarkSums(s, r, works, id, month);
    hide Total, Sum, Assigned;
    var t := R.AfterMark(s, r, works);
    assert forall q | Open(t, q, id, month) :: Open(s, q, id, month) && q != r && t.runners[q].place == s.runners[q].place;
    if Marks(s, r, id, month) {
      assert Open(s, r, id, month);
    } else {
      QuietKeepsMonth(s, t, id, month, monthly);
    }
  }

  lemma ReadKeepsMonth(s: R.State, r: nat, id: Id, month: int, monthly: int)
    requires InMonth(s, id, month, monthly) && R.Enabled(s, R.ReadMonth(r, true)) && !Happens(s, R.ReadMonth(r, true), id, Overlapped)
    ensures InMonth(R.Step(s, R.ReadMonth(r, true)), id, month, monthly)
  {
    hide MonthTotal;
    var t := R.Step(s, R.ReadMonth(r, true));
    assert forall q | Open(t, q, id, month) && q != r :: Open(s, q, id, month) && t.runners[q].place == s.runners[q].place;
    if Open(t, r, id, month) {
      assert forall q | Open(t, q, id, month) :: q == r;
    } else {
      QuietKeepsMonth(s, t, id, month, monthly);
    }
  }

  /** As long as every month is read, and no two runs are between reading it and marking at once. */
  lemma StepKeepsMonth(s: R.State, a: R.Action, id: Id, month: int, monthly: int)
    requires InMonth(s, id, month, monthly) && Kept(s, id, PerMonth(monthly)) && Assigned(s) && R.Enabled(s, a)
    requires !Happens(s, a, id, Unread) && !Happens(s, a, id, Overlapped)
    ensures InMonth(R.Step(s, a), id, month, monthly)
  {
    hide InMonth, Kept, Assigned, R.AfterPay, R.AfterMark, MonthTotal, Reserved;
    match a
    case Pay(r, fate) => PayKeepsMonth(s, r, fate, id, month, monthly);
    case Mark(r, works) => MarkKeepsMonth(s, r, works, id, month, monthly);
    case ReadMonth(r, readable) =>
      if s.runners[r].place.goal == id {
        ReadKeepsMonth(s, r, id, month, monthly);
      } else {
        QuietKeepsMonth(s, R.Step(s, a), id, month, monthly);
      }
    case Reserve(r, goal, fate) =>
      ReserveKeepsSums(s, r, goal, fate, id, month);
      QuietKeepsMonth(s, R.Step(s, a), id, month, monthly);
    case PayBudget(r, budget, amount, fate) =>
      BudgetKeepsSums(s, r, budget, amount, fate, id, month);
      BudgetKeepsEvents(s, a);
      hide R.AfterBudget;
      QuietKeepsMonth(s, R.Step(s, a), id, month, monthly);
    case _ => QuietKeepsMonth(s, R.Step(s, a), id, month, monthly);
  }

  lemma NoneMarks(t: R.State, id: Id, month: int)
    requires (forall r :: !Marks(t, r, id, month)) && Sum(t, id, month) == Total(t, id, month)
    ensures Tallied(t, id, month)
  {
    hide Total, Sum, Marks;
  }

  lemma OneMarks(t: R.State, r: nat, id: Id, month: int)
    requires Marks(t, r, id, month) && forall q | Marks(t, q, id, month) :: q == r
    requires Sum(t, id, month) == Total(t, id, month) + t.runners[r].place.amount
    ensures Tallied(t, id, month)
  {
    hide Total, Sum;
  }

  lemma PayKeepsTally(s: R.State, r: nat, fate: Fate, id: Id, month: int, monthly: int)
    requires Tallied(s, id, month) && InMonth(s, id, month, monthly) && Kept(s, id, PerMonth(monthly)) && R.Enabled(s, R.Pay(r, fate))
    requires !Happens(s, R.Pay(r, fate), id, Lost)
    ensures Tallied(R.AfterPay(s, r, fate), id, month)
  {
    hide Total, Sum, R.DecisionOf;
    var t, n := R.AfterPay(s, r, fate), s.runners[r];
    PaySums(s, r, fate, id, month);
    if Pays(s, R.Pay(r, fate), id) && n.credit.month == month {
      FixedReadsMonth(n, monthly);
      assert Open(s, r, id, month) && Marks(t, r, id, month);
      assert forall q | Marks(s, q, id, month) :: Open(s, q, id, month) && q != r;
      assert Sum(s, id, month) == Total(s, id, month);
      assert forall q | Marks(t, q, id, month) && q != r :: Open(s, q, id, month);
      OneMarks(t, r, id, month);
    } else {
      assert forall q :: Marks(t, q, id, month) == Marks(s, q, id, month);
      QuietKeepsTally(s, t, id, month);
    }
  }

  lemma MarkKeepsTally(s: R.State, r: nat, works: bool, id: Id, month: int, monthly: int)
    requires Tallied(s, id, month) && InMonth(s, id, month, monthly) && Assigned(s) && R.Enabled(s, R.Mark(r, works))
    requires !Happens(s, R.Mark(r, works), id, Unmarked)
    ensures Tallied(R.AfterMark(s, r, works), id, month)
  {
    MarkSums(s, r, works, id, month);
    hide Total, Sum, Assigned;
    var t := R.AfterMark(s, r, works);
    if Marks(s, r, id, month) {
      assert works && Sum(s, id, month) == Total(s, id, month) + s.runners[r].place.amount;
      assert forall q | Marks(t, q, id, month) :: q != r && Open(s, q, id, month);
      assert Open(s, r, id, month);
      NoneMarks(t, id, month);
    } else {
      assert forall q :: Marks(t, q, id, month) == Marks(s, q, id, month);
      QuietKeepsTally(s, t, id, month);
    }
  }

  /** And as long as every allocation is marked and no answer is lost. */
  lemma StepKeepsTally(s: R.State, a: R.Action, id: Id, month: int, monthly: int)
    requires Tallied(s, id, month) && InMonth(s, id, month, monthly) && Kept(s, id, PerMonth(monthly)) && Assigned(s) && R.Enabled(s, a)
    requires !Happens(s, a, id, Unmarked) && !Happens(s, a, id, Lost)
    ensures Tallied(R.Step(s, a), id, month)
  {
    hide Tallied, InMonth, Kept, Assigned, R.AfterPay, R.AfterMark, MonthTotal, MovedIn, Reserved;
    var t := R.Step(s, a);
    match a
    case Pay(r, fate) => PayKeepsTally(s, r, fate, id, month, monthly);
    case Mark(r, works) => MarkKeepsTally(s, r, works, id, month, monthly);
    case Reserve(r, goal, fate) =>
      ReserveKeepsSums(s, r, goal, fate, id, month);
      QuietKeepsTally(s, t, id, month);
    case PayBudget(r, budget, amount, fate) =>
      BudgetKeepsSums(s, r, budget, amount, fate, id, month);
      BudgetKeepsEvents(s, a);
      hide R.AfterBudget;
      QuietKeepsTally(s, t, id, month);
    case _ => QuietKeepsTally(s, t, id, month);
  }

  // ------------------------------------------------------------------------------------------- whole runs

  /** Nobody is at work, and the goal keeps its cap. */
  predicate Idle(s: R.State, id: Id, cap: Cap) { s.runners == map[] && (id in s.books.goals ==> Keeps(s.books.goals[id], cap)) }

  /** And what was moved to it in the month is what its events say, within the monthly target. */
  predicate Begins(s: R.State, id: Id, month: int, monthly: int) {
    Idle(s, id, PerMonth(monthly)) && Sum(s, id, month) == Total(s, id, month) <= monthly
  }

  lemma BeginsHolds(s: R.State, id: Id, month: int, monthly: int)
    requires Begins(s, id, month, monthly)
    ensures Kept(s, id, PerMonth(monthly)) && Assigned(s) && InMonth(s, id, month, monthly) && Tallied(s, id, month)
  {
    hide Total, Sum;
  }

  lemma {:induction false} RunKeepsMonth(s: R.State, actions: seq<R.Action>, id: Id, month: int, monthly: int, allowed: set<Slip>)
    requires InMonth(s, id, month, monthly) && Kept(s, id, PerMonth(monthly)) && Assigned(s)
    requires R.Legal(s, actions) && AllCalm(s, actions, id, PerMonth(monthly), allowed)
    requires Unread !in allowed && Overlapped !in allowed
    ensures InMonth(R.Run(s, actions), id, month, monthly)
    decreases |actions|
  {
    hide R.Step, R.Enabled, Happens, Kept, Assigned, InMonth;
    if actions != [] {
      StepKeepsCap(s, actions[0], id, PerMonth(monthly));
      StepKeepsAssigned(s, actions[0]);
      StepKeepsMonth(s, actions[0], id, month, monthly);
      RunKeepsMonth(R.Step(s, actions[0]), actions[1..], id, month, monthly, allowed);
    }
  }

  lemma {:induction false} RunKeepsTally(s: R.State, actions: seq<R.Action>, id: Id, month: int, monthly: int, allowed: set<Slip>)
    requires Tallied(s, id, month) && InMonth(s, id, month, monthly) && Kept(s, id, PerMonth(monthly)) && Assigned(s)
    requires R.Legal(s, actions) && AllCalm(s, actions, id, PerMonth(monthly), allowed)
    requires allowed <= {Outdated}
    ensures Tallied(R.Run(s, actions), id, month)
    decreases |actions|
  {
    hide R.Step, R.Enabled, Happens, Kept, Assigned, InMonth, Tallied;
    if actions != [] {
      StepKeepsCap(s, actions[0], id, PerMonth(monthly));
      StepKeepsAssigned(s, actions[0]);
      StepKeepsMonth(s, actions[0], id, month, monthly);
      StepKeepsTally(s, actions[0], id, month, monthly);
      RunKeepsTally(R.Step(s, actions[0]), actions[1..], id, month, monthly, allowed);
    }
  }

  lemma TallyWithin(s: R.State, id: Id, month: int, monthly: int)
    requires Tallied(s, id, month) && InMonth(s, id, month, monthly)
    ensures Sum(s, id, month) <= monthly
  {
    hide Total, Sum;
    if r :| Marks(s, r, id, month) { assert Open(s, r, id, month); }
  }

  // ------------------------------------------------------------------------------------- runs that go wrong

  /** The actions lead from s to t, calm but for what is allowed. */
  ghost predicate Leads(s: R.State, actions: seq<R.Action>, t: R.State, id: Id, cap: Cap, allowed: set<Slip>) {
    R.Legal(s, actions) && R.Run(s, actions) == t && AllCalm(s, actions, id, cap, allowed)
  }

  lemma NoSteps(s: R.State, id: Id, cap: Cap, allowed: set<Slip>)
    ensures Leads(s, [], s, id, cap, allowed)
  {
  }

  lemma {:induction false} OneMore(s: R.State, actions: seq<R.Action>, t: R.State, a: R.Action, id: Id, cap: Cap, allowed: set<Slip>)
    returns (longer: seq<R.Action>, u: R.State)
    requires Leads(s, actions, t, id, cap, allowed) && R.Enabled(t, a) && Calm(t, a, id, cap, allowed)
    ensures u == R.Step(t, a) && Leads(s, longer, u, id, cap, allowed)
    decreases |actions|
  {
    hide R.Step, R.Enabled, Calm;
    u := R.Step(t, a);
    if actions == [] {
      longer := [a];
      assert longer[1..] == [];
      NoSteps(u, id, cap, allowed);
    } else {
      var rest, v := OneMore(R.Step(s, actions[0]), actions[1..], t, a, id, cap, allowed);
      longer := [actions[0]] + rest;
      assert longer[1..] == rest;
    }
  }

  lemma {:induction false} MoreAllowed(s: R.State, actions: seq<R.Action>, id: Id, cap: Cap, few: set<Slip>, many: set<Slip>)
    requires R.Legal(s, actions) && AllCalm(s, actions, id, cap, few) && few <= many
    ensures AllCalm(s, actions, id, cap, many)
    decreases |actions|
  {
    hide R.Step, R.Enabled, Happens;
    if actions != [] { MoreAllowed(R.Step(s, actions[0]), actions[1..], id, cap, few, many); }
  }

  /** No event of the transaction yet. */
  predicate Unused(s: R.State, tx: Id) { forall i | 0 <= i < |s.books.events| :: s.books.events[i].tx != tx }

  /** There is one goal, enabled, with room for the credit. */
  predicate HasRoom(s: R.State, g: Goal, c: Credit) {
    s.books.goals == map["goal" := g] && g.enabled && c.gross > 0 && g.current + c.gross <= g.target
  }

  /** A run for a credit starts and reserves the goal's event. */
  lemma Reserves(s: R.State, actions: seq<R.Action>, t: R.State, r: nat, g: Goal, c: Credit, cap: Cap, allowed: set<Slip>)
    returns (longer: seq<R.Action>, u: R.State)
    requires Leads(s, actions, t, "goal", cap, allowed) && HasRoom(t, g, c) && Unused(t, c.tx) && r !in t.runners
    ensures Leads(s, longer, u, "goal", cap, allowed)
    ensures u.books == Logged(t.books, "goal", c, false, Processing, 0)
    ensures u.runners == t.runners[r := R.Runner(c, c.gross, map["goal" := g], R.Held("goal", |t.books.events|))]
  {
    hide Leads, MonthTotal;
    longer, u := OneMore(s, actions, t, R.Start(r, c), "goal", cap, allowed);
    assert R.EnabledGoals(t.books.goals) == map["goal" := g];
    longer, u := OneMore(s, longer, u, R.Reserve(r, "goal", Works), "goal", cap, allowed);
  }

  /** It reads the month. */
  lemma Reads(s: R.State, actions: seq<R.Action>, t: R.State, r: nat, g: Goal, c: Credit, readable: bool, cap: Cap, allowed: set<Slip>)
    returns (longer: seq<R.Action>, u: R.State)
    requires Leads(s, actions, t, "goal", cap, allowed) && HasRoom(t, g, c)
    requires r in t.runners && t.runners[r].place.Held? && t.runners[r] == R.Runner(c, c.gross, map["goal" := g], R.Held("goal", t.runners[r].place.row))
    requires g.strategy == FixedMonthly && g.monthlyTarget > 0 && (readable ==> Total(t, "goal", c.month) == 0)
    requires (readable || Unread in allowed) && ((exists q | q in t.runners :: Open(t, q, "goal", c.month)) ==> Overlapped in allowed)
    ensures Leads(s, longer, u, "goal", cap, allowed)
    ensures u == R.At(t, r, R.Deciding("goal", t.runners[r].place.row, 0))
  {
    hide Leads, MonthTotal;
    longer, u := OneMore(s, actions, t, R.ReadMonth(r, readable), "goal", cap, allowed);
  }

  /** And moves the whole credit. */
  lemma PaysAll(s: R.State, actions: seq<R.Action>, t: R.State, r: nat, g: Goal, c: Credit, fate: Fate, cap: Cap, allowed: set<Slip>)
    returns (longer: seq<R.Action>, u: R.State)
    requires Leads(s, actions, t, "goal", cap, allowed) && r in t.runners && R.Ready(t.runners[r]) && t.runners[r].credit == c
    requires t.runners[r].place.goal == "goal" && R.DecisionOf(t.runners[r]) == Take(c.gross) && !fate.Refuses?
    requires t.books.goals == map["goal" := g] && (g.current != t.runners[r].rows["goal"].current ==> Outdated in allowed)
    requires fate.Loses? ==> Lost in allowed
    ensures Leads(s, longer, u, "goal", cap, allowed) && u == R.AfterPay(t, r, fate)
    ensures u.books == PaidToGoal(t.books, "goal", c, c.gross) && u.books.goals == map["goal" := g.(current := g.current + c.gross)]
    ensures u.runners.Keys == t.runners.Keys
    ensures u.runners[r].place == if fate.Works? then R.Marking("goal", t.runners[r].place.row, Completed, c.gross)
                                  else R.Marking("goal", t.runners[r].place.row, Failed, 0)
    ensures forall q | q in t.runners && q != r :: u.runners[q] == t.runners[q]
  {
    hide Leads, R.DecisionOf;
    longer, u := OneMore(s, actions, t, R.Pay(r, fate), "goal", cap, allowed);
  }

  lemma {:induction false} RunKeepsAssigned(s: R.State, actions: seq<R.Action>)
    requires Assigned(s) && R.Legal(s, actions)
    ensures Assigned(R.Run(s, actions))
    decreases |actions|
  {
    hide R.Step, R.Enabled, Assigned;
    if actions != [] {
      StepKeepsAssigned(s, actions[0]);
      RunKeepsAssigned(R.Step(s, actions[0]), actions[1..]);
    }
  }

  /** A goal with room for twice its monthly target. */
  function TheGoal(monthly: int, current: int): Goal { Goal("goal", FixedMonthly, 2 * monthly, current, 0, monthly, true) }

  function Beginning(g: Goal): R.State { R.State(Books(map["goal" := g], map[], [], []), map[]) }

  /** The actions lead from there to t, where the goal has this much. */
  ghost predicate Reaches(actions: seq<R.Action>, t: R.State, monthly: int, current: int, allowed: set<Slip>) {
    && Leads(Beginning(TheGoal(monthly, 0)), actions, t, "goal", PerMonth(monthly), allowed)
    && t.books.goals == map["goal" := TheGoal(monthly, current)]
  }

  lemma ReachedIsAssigned(actions: seq<R.Action>, t: R.State, monthly: int, current: int, allowed: set<Slip>)
    requires Reaches(actions, t, monthly, current, allowed)
    ensures Assigned(t)
  {
    hide R.Legal, R.Run, AllCalm;
    RunKeepsAssigned(Beginning(TheGoal(monthly, 0)), actions);
  }

  function CreditOf(k: nat, monthly: int): Credit { Credit(if k == 0 then "first" else "second", monthly, 0) }

  /** A run for a credit of the monthly target, up to its posting. */
  lemma Allocates(actions: seq<R.Action>, t: R.State, k: nat, monthly: int, current: int, readable: bool, fate: Fate, allowed: set<Slip>)
    returns (longer: seq<R.Action>, u: R.State)
    requires Reaches(actions, t, monthly, current, allowed) && k < 2 && k !in t.runners && Unused(t, CreditOf(k, monthly).tx)
    requires 0 < monthly && current <= monthly && !fate.Refuses?
    requires if readable then Total(t, "goal", 0) == 0 else Unread in allowed
    requires (exists q | q in t.runners :: Open(t, q, "goal", 0)) ==> Overlapped in allowed
    requires fate.Loses? ==> Lost in allowed
    ensures Reaches(longer, u, monthly, current + monthly, allowed)
    ensures Total(u, "goal", 0) == Total(t, "goal", 0) && Sum(u, "goal", 0) == Sum(t, "goal", 0) + monthly
    ensures u.runners.Keys == t.runners.Keys + {k} && forall q | q in t.runners :: u.runners[q] == t.runners[q]
    ensures u.runners[k].place.Marking? && Marks(u, k, "goal", 0) == fate.Works? == (u.runners[k].place.status == Completed)
    ensures u.runners[k].place.amount == if fate.Works? then monthly else 0
    ensures k == 0 && t.books.events == [] ==> Unused(u, CreditOf(1, monthly).tx)
  {
    hide Leads, MonthTotal, MovedIn;
    var s, g, c := Beginning(TheGoal(monthly, 0)), TheGoal(monthly, current), CreditOf(k, monthly);
    UncompletedAddsNothing(t.books.events, Event("goal", c.tx, c.month, Processing, 0), "goal", 0);
    MovedInOne(t.books.posts, Posting(ToGoal("goal"), c.tx, c.month, monthly), "goal", 0);
    var t1, t2;
    longer, t1 := Reserves(s, actions, t, k, g, c, PerMonth(monthly), allowed);
    assert forall q | q in t1.runners && Open(t1, q, "goal", 0) :: Open(t, q, "goal", 0);
    longer, t2 := Reads(s, longer, t1, k, g, c, readable, PerMonth(monthly), allowed);
    longer, u := PaysAll(s, longer, t2, k, g, c, fate, PerMonth(monthly), allowed);
  }

  /** It marks the event, or fails to. */
  lemma MarksIt(actions: seq<R.Action>, t: R.State, k: nat, monthly: int, current: int, works: bool, allowed: set<Slip>)
    returns (longer: seq<R.Action>, u: R.State)
    requires Reaches(actions, t, monthly, current, allowed) && k in t.runners && t.runners[k].place.Marking?
    requires !works && t.runners[k].place.status == Completed ==> Unmarked in allowed
    ensures Reaches(longer, u, monthly, current, allowed)
    ensures Sum(u, "goal", 0) == Sum(t, "goal", 0)
    ensures Total(u, "goal", 0) == Total(t, "goal", 0) + if works && Marks(t, k, "goal", 0) then t.runners[k].place.amount else 0
    ensures u.runners.Keys == t.runners.Keys && u.runners[k].place == R.Between
    ensures forall q | q in t.runners && q != k :: u.runners[q] == t.runners[q]
    ensures forall tx | Unused(t, tx) :: Unused(u, tx)
  {
    ReachedIsAssigned(actions, t, monthly, current, allowed);
    assert Busy(t, k);
    MarkSums(t, k, works, "goal", 0);
    hide Leads, Total, Sum, Assigned;
    assert R.Enabled(t, R.Mark(k, works)) by { RowsExist(t); assert Assigned(t); }
    longer, u := OneMore(Beginning(TheGoal(monthly, 0)), actions, t, R.Mark(k, works), "goal", PerMonth(monthly), allowed);
  }

  lemma NothingYet(monthly: int, allowed: set<Slip>) returns (t: R.State)
    ensures t == Beginning(TheGoal(monthly, 0)) && Reaches([], t, monthly, 0, allowed)
    ensures Total(t, "goal", 0) == 0 && Sum(t, "goal", 0) == 0
  {
    t := Beginning(TheGoal(monthly, 0));
  }

  /** Two runs in the same month, one after the other. */
  lemma OneAfterAnother(monthly: int, fate: Fate, works: bool, readable: bool, allowed: set<Slip>)
    returns (actions: seq<R.Action>, t: R.State)
    requires monthly > 0 && !fate.Refuses? && (!readable ==> Unread in allowed) && (readable ==> fate.Loses? || !works)
    requires (fate.Loses? ==> Lost in allowed) && (!works ==> Unmarked in allowed)
    ensures Reaches(actions, t, monthly, 2 * monthly, allowed) && Sum(t, "goal", 0) == 2 * monthly
    ensures fate.Works? && works ==> Total(t, "goal", 0) == 2 * monthly
  {
    hide Reaches, Total, Sum;
    t := NothingYet(monthly, allowed);
    actions, t := Allocates([], t, 0, monthly, 0, true, fate, allowed);
    actions, t := MarksIt(actions, t, 0, monthly, monthly, works, allowed);
    actions, t := Allocates(actions, t, 1, monthly, monthly, readable, Works, allowed);
    actions, t := MarksIt(actions, t, 1, monthly, 2 * monthly, true, allowed);
  }

  /** Two runs, the second of which starts and reads the month after the first has paid and before it marks. */
  lemma OneBesideTheOther(monthly: int) returns (actions: seq<R.Action>, t: R.State)
    requires monthly > 0
    ensures Reaches(actions, t, monthly, 2 * monthly, {Overlapped}) && Sum(t, "goal", 0) == Total(t, "goal", 0) == 2 * monthly
  {
    hide Reaches, Total, Sum;
    t := NothingYet(monthly, {Overlapped});
    actions, t := Allocates([], t, 0, monthly, 0, true, Works, {Overlapped});
    actions, t := Allocates(actions, t, 1, monthly, monthly, true, Works, {Overlapped});
    actions, t := MarksIt(actions, t, 0, monthly, 2 * monthly, true, {Overlapped});
    actions, t := MarksIt(actions, t, 1, monthly, 2 * monthly, true, {Overlapped});
  }

  /** Any one slip but an outdated balance is enough for two credits of one month to move twice the monthly target;
      where a month is not read, or read too early, both are also marked as completed. */
  lemma SlipFillsTwice(monthly: int, slip: Slip) returns (actions: seq<R.Action>)
    requires monthly > 0 && slip != Outdated
    ensures var s := Beginning(TheGoal(monthly, 0));
            && Begins(s, "goal", 0, monthly) && R.Legal(s, actions) && AllCalm(s, actions, "goal", PerMonth(monthly), {slip})
            && Sum(R.Run(s, actions), "goal", 0) == 2 * monthly
            && (slip.Unread? || slip.Overlapped? ==> Total(R.Run(s, actions), "goal", 0) == 2 * monthly)
  {
    var s := NothingYet(monthly, {slip});
    hide Total, Sum, R.Legal, R.Run, AllCalm;
    var t;
    match slip {
      case Unread => actions, t := OneAfterAnother(monthly, Works, true, false, {slip});
      case Unmarked => actions, t := OneAfterAnother(monthly, Works, false, true, {slip});
      case Lost => actions, t := OneAfterAnother(monthly, Loses, true, true, {slip});
      case Overlapped => actions, t := OneBesideTheOther(monthly);
    }
  }

  // ------------------------------------------------------------------------------------------ exactly when

  /** In every run of any number of runs, with such slips and no others, the money moved to a goal in a month stays
      within its monthly target. */
  ghost predicate MovesWithin(monthly: int, allowed: set<Slip>) {
    forall s, actions, id, month | Begins(s, id, month, monthly) && R.Legal(s, actions) && AllCalm(s, actions, id, PerMonth(monthly), allowed) ::
      Sum(R.Run(s, actions), id, month) <= monthly
  }

  /** And what is marked as completed does. */
  ghost predicate CompletesWithin(monthly: int, allowed: set<Slip>) {
    forall s, actions, id, month | Begins(s, id, month, monthly) && R.Legal(s, actions) && AllCalm(s, actions, id, PerMonth(monthly), allowed) ::
      Total(R.Run(s, actions), id, month) <= monthly
  }

  /** The money moved to a goal in a month stays within its monthly target exactly when every month is read, every
      allocation marked, no answer lost, and no month read while another run is between reading it and marking. */
  lemma MovesWithinExactly(monthly: int, allowed: set<Slip>)
    requires monthly > 0
    ensures MovesWithin(monthly, allowed) <==> allowed <= {Outdated}
  {
    hide R.Legal, R.Run, AllCalm, Total, Sum, Begins;
    if allowed <= {Outdated} {
      forall s, actions, id, month | Begins(s, id, month, monthly) && R.Legal(s, actions) && AllCalm(s, actions, id, PerMonth(monthly), allowed)
        ensures Sum(R.Run(s, actions), id, month) <= monthly
      {
        BeginsHolds(s, id, month, monthly);
        RunKeepsMonth(s, actions, id, month, monthly, allowed);
        RunKeepsTally(s, actions, id, month, monthly, allowed);
        TallyWithin(R.Run(s, actions), id, month, monthly);
      }
    } else {
      var slip :| slip in allowed && slip != Outdated;
      var actions := SlipFillsTwice(monthly, slip);
      MoreAllowed(Beginning(TheGoal(monthly, 0)), actions, "goal", PerMonth(monthly), {slip}, allowed);
    }
  }

  /** The completed allocations do exactly when every month is read, and not while another run is between reading
      it and marking. */
  lemma CompletesWithinExactly(monthly: int, allowed: set<Slip>)
    requires monthly > 0
    ensures CompletesWithin(monthly, allowed) <==> Unread !in allowed && Overlapped !in allowed
  {
    hide R.Legal, R.Run, AllCalm, Sum, Begins;
    if Unread !in allowed && Overlapped !in allowed {
      forall s, actions, id, month | Begins(s, id, month, monthly) && R.Legal(s, actions) && AllCalm(s, actions, id, PerMonth(monthly), allowed)
        ensures Total(R.Run(s, actions), id, month) <= monthly
      {
        BeginsHolds(s, id, month, monthly);
        RunKeepsMonth(s, actions, id, month, monthly, allowed);
      }
    } else {
      hide Total;
      var slip := if Unread in allowed then Unread else Overlapped;
      var actions := SlipFillsTwice(monthly, slip);
      MoreAllowed(Beginning(TheGoal(monthly, 0)), actions, "goal", PerMonth(monthly), {slip}, allowed);
    }
  }

  /** In every run with such slips and no others, a goal that has no more than its target never gets more. */
  ghost predicate StaysWithin(target: int, allowed: set<Slip>) {
    forall s, actions, id | Idle(s, id, Overall(target)) && R.Legal(s, actions) && AllCalm(s, actions, id, Overall(target), allowed) ::
      id in R.Run(s, actions).books.goals ==> R.Run(s, actions).books.goals[id].current <= target
  }

  /** Two runs that start before either pays both fill the goal up to its target. */
  lemma OutdatedFillsTwice(target: int) returns (actions: seq<R.Action>)
    requires target > 0
    ensures var s := Beginning(Goal("goal", Percentage, target, 0, 10000, 0, true));
            && R.Legal(s, actions) && AllCalm(s, actions, "goal", Overall(target), {Outdated})
            && "goal" in R.Run(s, actions).books.goals && R.Run(s, actions).books.goals["goal"].current == 2 * target
  {
    hide R.Legal, R.Run, AllCalm, MonthTotal, Share;
    var g, c, d := Goal("goal", Percentage, target, 0, 10000, 0, true), CreditOf(0, target), CreditOf(1, target);
    var s, cap, allowed := Beginning(g), Overall(target), {Outdated};
    NoSteps(s, "goal", cap, allowed);
    AllOf(target);
    var t, u, v, w;
    actions, t := Reserves(s, [], s, 0, g, c, cap, allowed);
    actions, u := Reserves(s, actions, t, 1, g, d, cap, allowed);
    actions, v := PaysAll(s, actions, u, 0, g, c, Works, cap, allowed);
    actions, w := PaysAll(s, actions, v, 1, g.(current := target), d, Works, cap, allowed);
  }

  lemma AllOf(gross: int)
    ensures Share(gross, 10000) == gross
  {
  }

  /** Allocations keep a goal within its target, however many runs are at work, exactly when none is decided from a
      balance that has changed since its run started. */
  lemma StaysWithinExactly(target: int, allowed: set<Slip>)
    requires target > 0
    ensures StaysWithin(target, allowed) <==> Outdated !in allowed
  {
    hide R.Legal, R.Run, AllCalm;
    if Outdated !in allowed {
      forall s, actions, id | Idle(s, id, Overall(target)) && R.Legal(s, actions) && AllCalm(s, actions, id, Overall(target), allowed)
        ensures id in R.Run(s, actions).books.goals ==> R.Run(s, actions).books.goals[id].current <= target
      {
        RunKeepsCap(s, actions, id, Overall(target), allowed);
      }
    } else {
      var actions := OutdatedFillsTwice(target);
      MoreAllowed(Beginning(Goal("goal", Percentage, target, 0, 10000, 0, true)), actions, "goal", Overall(target), {Outdated}, allowed);
    }
  }
}
