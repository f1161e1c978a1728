/** Automatic allocation with any number of runs at work at the same time, for the same transaction or for
    different ones: every statement is a step of its own. A run decides from the goals it read at its start and
    from the month it read in its turn on a goal; in which order it goes through goals and rules, and where it
    ends, is left open. */
module AllocationRaces {
  import opened AllocationLaws
  import opened AutoAllocation
  import opened Outcomes

  /** Where a run is in its turn on a goal, and the row of the goal's event. `Held` has reserved the event, and
      `Deciding` has read the month; `Marking` knows how the turn ended and is about to say so in the event. */
  datatype Place =
    | Between
    | Held(goal: Id, row: nat)
    | Deciding(goal: Id, row: nat, month: int)
    | Marking(goal: Id, row: nat, status: Status, amount: int)

  /** A run for a credit, with what is left of it and the enabled goals as they were at its start. */
  datatype Runner = Runner(credit: Credit, remaining: int, rows: map<Id, Goal>, place: Place)

  datatype State = State(books: Books, runners: map<nat, Runner>)

  datatype Action =
    | Start(runner: nat, credit: Credit)
    | Reserve(runner: nat, goal: Id, fate: Fate)
    | ReadMonth(runner: nat, readable: bool)
    | Pay(runner: nat, fate: Fate)
    | Mark(runner: nat, works: bool)
    | PayBudget(runner: nat, budget: Id, amount: int, fate: Fate)
    | Stop(runner: nat)
    | EditGoal(id: Id, edited: Goal)
    | EditBudget(id: Id, terms: Budget)

  function EnabledGoals(goals: map<Id, Goal>): map<Id, Goal> { map id | id in goals && goals[id].enabled :: goals[id] }

  /** The month matters only to a goal with room and a monthly target, while there is money left. */
  predicate MonthMatters(g: Goal, remaining: int) {
    g.target - g.current > 0 && remaining > 0 && g.strategy == FixedMonthly && g.monthlyTarget > 0
  }

  /** About to decide on a goal: the month has been read if it matters. */
  predicate Ready(n: Runner) {
    || (n.place.Held? && n.place.goal in n.rows && !MonthMatters(n.rows[n.place.goal], n.remaining))
    || (n.place.Deciding? && n.place.goal in n.rows)
  }

  function DecisionOf(n: Runner): Decision
    requires Ready(n)
  {
    DecideGoal(n.rows[n.place.goal], n.credit.gross, n.remaining, if n.place.Deciding? then n.place.month else 0)
  }

  predicate Enabled(s: State, a: Action) {
    match a
    case Start(r, _) => r !in s.runners
    case Reserve(r, goal, _) => r in s.runners && s.runners[r].place.Between? && goal in s.runners[r].rows
    case ReadMonth(r, _) =>
      && r in s.runners && s.runners[r].place.Held? && s.runners[r].place.goal in s.runners[r].rows
      && MonthMatters(s.runners[r].rows[s.runners[r].place.goal], s.runners[r].remaining)
    case Pay(r, _) => r in s.runners && Ready(s.runners[r])
    case Mark(r, _) => r in s.runners && s.runners[r].place.Marking? && s.runners[r].place.row < |s.books.events|
    case PayBudget(r, id, _, _) => r in s.runners && s.runners[r].place.Between? && id in s.books.budgets
    case Stop(r) => r in s.runners
    case EditGoal(_, _) => true
    case EditBudget(_, _) => true
  }

  function At(s: State, r: nat, place: Place): State
    requires r in s.runners
  {
    s.(runners := s.runners[r := s.runners[r].(place := place)])
  }

  /** The insert of an event, which the pair of goal and transaction makes unique. */
  function AfterReserve(s: State, r: nat, goal: Id, fate: Fate): State
    requires r in s.runners
  {
    var c := s.runners[r].credit;
    if Reserved(s.books.events, goal, c.tx) then s
    else if fate.Refuses? then s.(runners := s.runners - {r})
    else if fate.Loses? then State(Logged(s.books, goal, c, false, Processing, 0), s.runners - {r})
    else At(s.(books := Logged(s.books, goal, c, false, Processing, 0)), r, Held(goal, |s.books.events|))
  }

  /** The decision, and the posting it leads to. */
  function AfterPay(s: State, r: nat, fate: Fate): State
    requires Enabled(s, Pay(r, fate))
  {
    var n := s.runners[r];
    var goal, row := n.place.goal, n.place.row;
    match DecisionOf(n)
    case Leave(_) => At(s, r, Marking(goal, row, Skipped, 0))
    case Take(amount) =>
      match fate
      case Works =>
        State(PaidToGoal(s.books, goal, n.credit, amount),
              s.runners[r := n.(remaining := n.remaining - amount, place := Marking(goal, row, Completed, amount))])
      case Refuses => At(s, r, Marking(goal, row, Failed, 0))
      case Loses => At(s.(books := PaidToGoal(s.books, goal, n.credit, amount)), r, Marking(goal, row, Failed, 0))
  }

  function AfterMark(s: State, r: nat, works: bool): State
    requires Enabled(s, Mark(r, works))
  {
    var place := s.runners[r].place;
    var marked := s.books.events[place.row].(status := place.status, amount := place.amount);
    At(if works then s.(books := s.books.(events := s.books.events[place.row := marked])) else s, r, Between)
  }

  function AfterBudget(s: State, r: nat, id: Id, amount: int, fate: Fate): State
    requires r in s.runners && id in s.books.budgets
  {
    var n := s.runners[r];
    var paid := PaidToBudget(s.books, id, n.credit, amount);
    if fate.Refuses? || paid.None? then s
    else State(paid.value, if fate.Works? then s.runners[r := n.(remaining := n.remaining - amount)] else s.runners)
  }

  function Step(s: State, a: Action): State
    requires Enabled(s, a)
  {
    match a
    case Start(r, c) => s.(runners := s.runners[r := Runner(c, c.gross, EnabledGoals(s.books.goals), Between)])
    case Reserve(r, goal, fate) => AfterReserve(s, r, goal, fate)
    case ReadMonth(r, readable) =>
      var n := s.runners[r];
      var month := if readable then MonthTotal(s.books.events, n.place.goal, n.credit.month) else 0;
      At(s, r, Deciding(n.place.goal, n.place.row, month))
    case Pay(r, fate) => AfterPay(s, r, fate)
    case Mark(r, works) => AfterMark(s, r, works)
    case PayBudget(r, id, amount, fate) => AfterBudget(s, r, id, amount, fate)
    case Stop(r) => s.(runners := s.runners - {r})
    case EditGoal(id, goal) => s.(books := s.books.(goals := s.books.goals[id := goal]))
    case EditBudget(id, budget) => s.(books := s.books.(budgets := s.books.budgets[id := budget]))
  }

  predicate Legal(s: State, actions: seq<Action>)
    decreases |actions|
  {
    actions != [] ==> Enabled(s, actions[0]) && Legal(Step(s, actions[0]), actions[1..])
  }

  function Run(s: State, actions: seq<Action>): State
    requires Legal(s, actions)
    decreases |actions|
  {
    if actions == [] then s else Run(Step(s, actions[0]), actions[1..])
  }

  // --------------------------------------------------------------------------------------- the invariant

  predicate Paid(posts: seq<Posting>, target: Target, tx: Id) {
    exists i | 0 <= i < |posts| :: posts[i].target == target && posts[i].tx == tx
  }

  ghost predicate NoPairTwice(posts: seq<Posting>) {
    forall i, j | 0 <= i < j < |posts| :: posts[i].target != posts[j].target || posts[i].tx != posts[j].tx
  }

  /** The run has reserved the goal and not yet decided on it. */
  predicate Holds(s: State, r: nat, goal: Id, tx: Id) {
    && r in s.runners && (s.runners[r].place.Held? || s.runners[r].place.Deciding?)
    && s.runners[r].place.goal == goal && s.runners[r].credit.tx == tx
  }

  /** No two postings have the same target and transaction; a posting to a goal and a run that holds it have
      their event; and a goal is held by one run for a transaction, which has not paid it. */
  ghost predicate Inv(s: State) {
    && NoPairTwice(s.books.posts)
    && (forall goal, tx | Paid(s.books.posts, ToGoal(goal), tx) :: Reserved(s.books.events, goal, tx))
    && (forall r, goal, tx | Holds(s, r, goal, tx) ::
          Reserved(s.books.events, goal, tx) && !Paid(s.books.posts, ToGoal(goal), tx))
    && (forall r, q, goal, tx | Holds(s, r, goal, tx) && Holds(s, q, goal, tx) :: r == q)
  }

  lemma PaidMore(posts: seq<Posting>, p: Posting, target: Target, tx: Id)
    ensures Paid(posts + [p], target, tx) <==> Paid(posts, target, tx) || (p.target == target && p.tx == tx)
  {
    var all := posts + [p];
    assert all[|posts|] == p;
    if Paid(posts, target, tx) {
      var i :| 0 <= i < |posts| && posts[i].target == target && posts[i].tx == tx;
      assert all[i] == posts[i];
    }
  }

  lemma {:induction false} PaidBeforeIsPaid(posts: seq<Posting>, target: Target, tx: Id)
    ensures PaidBefore(posts, target, tx).Some? <==> Paid(posts, target, tx)
  {
    if posts != [] {
      PaidBeforeIsPaid(posts[1..], target, tx);
      assert forall i | 1 <= i < |posts| :: posts[i] == posts[1..][i - 1];
      assert forall i | 0 <= i < |posts| - 1 :: posts[1..][i] == posts[i + 1];
    }
  }

  /** One more posting, of a pair that was not paid. */
  lemma PostingKeepsInv(s: State, t: State, p: Posting)
    requires Inv(s) && t.books.posts == s.books.posts + [p] && t.books.events == s.books.events
    requires !Paid(s.books.posts, p.target, p.tx) && (p.target.ToGoal? ==> Reserved(s.books.events, p.target.id, p.tx))
    requires forall r, goal, tx | Holds(t, r, goal, tx) :: Holds(s, r, goal, tx) && (ToGoal(goal) != p.target || tx != p.tx)
    ensures Inv(t)
  {
    hide Reserved, Holds;
    forall goal, tx
      ensures Paid(t.books.posts, ToGoal(goal), tx)
         <==> Paid(s.books.posts, ToGoal(goal), tx) || (p.target == ToGoal(goal) && p.tx == tx)
    {
      PaidMore(s.books.posts, p, ToGoal(goal), tx);
    }
    assert forall i | 0 <= i < |s.books.posts| :: t.books.posts[i] == s.books.posts[i];
    assert forall i | 0 <= i < |s.books.posts| :: s.books.posts[i].target != p.target || s.books.posts[i].tx != p.tx;
    hide Paid;
  }

  /** Steps that post nothing and let nobody hold anything new. */
  lemma QuietKeepsInv(s: State, t: State)
    requires Inv(s) && t.books.posts == s.books.posts
    requires forall goal, tx | Reserved(s.books.events, goal, tx) :: Reserved(t.books.events, goal, tx)
    requires forall r, goal, tx | Holds(t, r, goal, tx) :: Holds(s, r, goal, tx)
    ensures Inv(t)
  {
    hide Reserved, Holds, Paid;
  }

  lemma ReserveKeepsInv(s: State, r: nat, goal: Id, fate: Fate)
    requires Inv(s) && Enabled(s, Reserve(r, goal, fate))
    ensures Inv(AfterReserve(s, r, goal, fate))
  {
    var t, c := AfterReserve(s, r, goal, fate), s.runners[r].credit;
    if !Reserved(s.books.events, goal, c.tx) && !fate.Refuses? {
      var e := Event(goal, c.tx, c.month, Processing, 0);
      forall g, tx ensures Reserved(t.books.events, g, tx) <==> Reserved(s.books.events, g, tx) || (g == goal && tx == c.tx) {
        AppendReserves(s.books.events, e, g, tx);
      }
      hide Reserved, Paid;
      if fate.Loses? {
        QuietKeepsInv(s, t);
      } else {
        assert forall q, g, tx :: Holds(t, q, g, tx) <==> if q == r then g == goal && tx == c.tx else Holds(s, q, g, tx);
        hide Holds;
      }
    } else {
      hide Reserved, Paid;
      QuietKeepsInv(s, t);
    }
  }

  lemma MarkKeepsEvents(events: seq<Event>, row: nat, status: Status, amount: int, goal: Id, tx: Id)
    requires row < |events| && Reserved(events, goal, tx)
    ensures Reserved(events[row := events[row].(status := status, amount := amount)], goal, tx)
  {
    var i :| 0 <= i < |events| && events[i].goal == goal && events[i].tx == tx;
    var after := events[row := events[row].(status := status, amount := amount)];
    assert after[i].goal == goal && after[i].tx == tx;
  }

  lemma PayKeepsInv(s: State, r: nat, fate: Fate)
    requires Inv(s) && Enabled(s, Pay(r, fate))
    ensures Inv(AfterPay(s, r, fate))
  {
    hide Reserved, Paid, DecisionOf;
    var t, n := AfterPay(s, r, fate), s.runners[r];
    assert Holds(s, r, n.place.goal, n.credit.tx);
    if DecisionOf(n).Leave? || fate.Refuses? {
      QuietKeepsInv(s, t);
    } else {
      assert !Holds(t, r, n.place.goal, n.credit.tx);
      assert forall q, goal, tx | Holds(t, q, goal, tx) :: Holds(s, q, goal, tx) && q != r;
      PostingKeepsInv(s, t, Posting(ToGoal(n.place.goal), n.credit.tx, n.credit.month, DecisionOf(n).amount));
    }
  }

  lemma PayBudgetKeepsInv(s: State, r: nat, id: Id, amount: int, fate: Fate)
    requires Inv(s) && Enabled(s, PayBudget(r, id, amount, fate))
    ensures Inv(AfterBudget(s, r, id, amount, fate))
  {
    hide Reserved, Paid, PaidBefore;
    var t, c := AfterBudget(s, r, id, amount, fate), s.runners[r].credit;
    PaidBeforeIsPaid(s.books.posts, ToBudget(id), c.tx);
    if t.books.posts == s.books.posts {
      QuietKeepsInv(s, t);
    } else {
      PostingKeepsInv(s, t, Posting(ToBudget(id), c.tx, c.month, amount));
    }
  }

  lemma MarkKeepsInv(s: State, r: nat, works: bool)
    requires Inv(s) && Enabled(s, Mark(r, works))
    ensures Inv(AfterMark(s, r, works))
  {
    hide Reserved, Paid;
    var t, place := AfterMark(s, r, works), s.runners[r].place;
    forall goal, tx | Reserved(s.books.events, goal, tx) ensures Reserved(t.books.events, goal, tx) {
      MarkKeepsEvents(s.books.events, place.row, place.status, place.amount, goal, tx);
    }
    QuietKeepsInv(s, t);
  }

  lemma StepKeepsInv(s: State, a: Action)
    requires Inv(s) && Enabled(s, a)
    ensures Inv(Step(s, a))
  {
    hide Inv, Reserved, Paid, AfterReserve, AfterBudget, AfterPay, AfterMark, MonthTotal;
    match a
    case Reserve(r, goal, fate) => ReserveKeepsInv(s, r, goal, fate);
    case Pay(r, fate) => PayKeepsInv(s, r, fate);
    case PayBudget(r, id, amount, fate) => PayBudgetKeepsInv(s, r, id, amount, fate);
    case Mark(r, works) => MarkKeepsInv(s, r, works);
    case _ => QuietKeepsInv(s, Step(s, a));
  }

  lemma {:induction false} RunKeepsInv(s: State, actions: seq<Action>)
    requires Inv(s) && Legal(s, actions)
    ensures Inv(Run(s, actions))
    decreases |actions|
  {
    hide Inv, Step, Enabled;
    if actions != [] {
      StepKeepsInv(s, actions[0]);
      RunKeepsInv(Step(s, actions[0]), actions[1..]);
    }
  }

  /** Whatever runs interleave, for one transaction or many, with any failures and lost answers, and wherever
      they stop, a transaction moves money to a goal or a budget at most once. */
  lemma PaidOnceInAllInterleavings(s: State, actions: seq<Action>, i: nat, j: nat)
    requires s.books.posts == [] && s.runners == map[] && Legal(s, actions) && i < j < |Run(s, actions).books.posts|
    ensures var posts := Run(s, actions).books.posts;
            posts[i].target != posts[j].target || posts[i].tx != posts[j].tx
  {
    hide Legal, Run, Reserved;
    assert Inv(s);
    RunKeepsInv(s, actions);
  }

  ghost predicate OnlyEnabled(s: State) {
    forall r | r in s.runners :: forall id | id in s.runners[r].rows :: s.runners[r].rows[id].enabled
  }

  lemma {:induction false} RunKeepsEnabled(s: State, actions: seq<Action>)
    requires OnlyEnabled(s) && Legal(s, actions)
    ensures OnlyEnabled(Run(s, actions))
    decreases |actions|
  {
    if actions != [] {
      StepKeepsEnabled(s, actions[0]);
      hide OnlyEnabled, Enabled, Step;
      RunKeepsEnabled(Step(s, actions[0]), actions[1..]);
    }
  }

  lemma StepKeepsEnabled(s: State, a: Action)
    requires OnlyEnabled(s) && Enabled(s, a)
    ensures OnlyEnabled(Step(s, a))
  {
    hide DecideGoal, Reserved, MonthTotal, PaidBefore;
  }

  /** In every interleaving a run takes only goals that were enabled when it started. */
  lemma TakesEnabledGoals(books: Books, actions: seq<Action>, r: nat, goal: Id, fate: Fate)
    requires Legal(State(books, map[]), actions)
    requires Enabled(Run(State(books, map[]), actions), Reserve(r, goal, fate))
    ensures Run(State(books, map[]), actions).runners[r].rows[goal].enabled
  {
    hide Legal, Run;
    RunKeepsEnabled(State(books, map[]), actions);
  }

  lemma StepKeepsBudgets(before: map<Id, Budget>, s: State, a: Action)
    requires Enabled(s, a) && BudgetsCapped(before, s.books.budgets) && !a.EditBudget? && (a.PayBudget? ==> a.amount > 0)
    ensures BudgetsCapped(before, Step(s, a).books.budgets)
  {
    hide DecideGoal, Reserved, MonthTotal, PaidBefore;
  }

  /** In every interleaving, whatever amounts the runs ask for, no budget passes its limit and none loses anything, as
      long as nobody edits it. */
  lemma {:induction false} BudgetsStayCapped(before: map<Id, Budget>, s: State, actions: seq<Action>)
    requires BudgetsCapped(before, s.books.budgets) && Legal(s, actions)
    requires forall a | a in actions :: !a.EditBudget? && (a.PayBudget? ==> a.amount > 0)
    ensures BudgetsCapped(before, Run(s, actions).books.budgets)
    decreases |actions|
  {
    hide BudgetsCapped, Enabled, Step;
    if actions != [] {
      assert actions[0] in actions && forall a | a in actions[1..] :: a in actions;
      StepKeepsBudgets(before, s, actions[0]);
      BudgetsStayCapped(before, Step(s, actions[0]), actions[1..]);
    }
  }

  // ------------------------------------------------------------------------------ turns as steps

  /** The runner of an undisturbed run that has this goal before it. */
  predicate IsAt(s: State, r: nat, p: Progress, g: Goal, c: Credit) {
    && p.books == s.books && !p.halted && r in s.runners && s.runners[r].credit == c && s.runners[r].remaining == p.remaining
    && s.runners[r].place == Between && g.id in s.runners[r].rows && s.runners[r].rows[g.id].(id := g.id) == g
  }

  /** The steps of a turn on a goal. */
  function GoalTurn(p: Progress, g: Goal, c: Credit, fate: GoalFate, r: nat): seq<Action> {
    if Reserved(p.books.events, g.id, c.tx) || !fate.reserve.Works? then [Reserve(r, g.id, fate.reserve)]
    else
      [Reserve(r, g.id, fate.reserve)]
      + (if MonthMatters(g, p.remaining) then [ReadMonth(r, fate.monthRead)] else [])
      + [Pay(r, fate.outcome), Mark(r, fate.marks)]
  }

  lemma RunFirst(s: State, a: Action, rest: seq<Action>)
    requires Enabled(s, a) && Legal(Step(s, a), rest)
    ensures Legal(s, [a] + rest) && Run(s, [a] + rest) == Run(Step(s, a), rest)
  {
    assert ([a] + rest)[1..] == rest;
  }

  lemma RunNone(s: State)
    ensures Legal(s, []) && Run(s, []) == s
  {
  }

  lemma RunTwo(s: State, a: Action, b: Action)
    requires Enabled(s, a) && Enabled(Step(s, a), b)
    ensures Legal(s, [a, b]) && Run(s, [a, b]) == Step(Step(s, a), b)
  {
    hide Enabled, Step, Legal, Run;
    RunNone(Step(Step(s, a), b));
    RunFirst(Step(s, a), b, []);
    assert [b] + [] == [b];
    RunFirst(s, a, [b]);
    assert [a] + [b] == [a, b];
  }

  /** What the decision and the marking leave of a turn whose event is the last row. */
  function TurnBooks(b: Books, goal: Id, c: Credit, decision: Decision, outcome: Fate, marks: bool): Books {
    match decision
    case Leave(_) => Logged(b, goal, c, marks, Skipped, 0)
    case Take(amount) =>
      match outcome
      case Works => Logged(PaidToGoal(b, goal, c, amount), goal, c, marks, Completed, amount)
      case Refuses => Logged(b, goal, c, marks, Failed, 0)
      case Loses => Logged(PaidToGoal(b, goal, c, amount), goal, c, marks, Failed, 0)
  }

  /** What a decision and its outcome take from what is left. */
  function Spent(decision: Decision, outcome: Fate): int {
    if decision.Take? && outcome.Works? then decision.amount else 0
  }

  lemma PayAndMark(s: State, b: Books, r: nat, outcome: Fate, marks: bool)
    requires r in s.runners && Ready(s.runners[r]) && s.runners[r].place.row == |b.events|
    requires s.books == Logged(b, s.runners[r].place.goal, s.runners[r].credit, false, Processing, 0)
    ensures var n := s.runners[r]; var actions := [Pay(r, outcome), Mark(r, marks)];
            && Legal(s, actions)
            && Run(s, actions)
            == State(TurnBooks(b, n.place.goal, n.credit, DecisionOf(n), outcome, marks),
                     s.runners[r := n.(remaining := n.remaining - Spent(DecisionOf(n), outcome), place := Between)])
  {
    hide DecideGoal, DecisionOf, Ready, Legal, Run;
    var n, t := s.runners[r], Step(s, Pay(r, outcome));
    var u := Step(t, Mark(r, marks));
    RunTwo(s, Pay(r, outcome), Mark(r, marks));
    if marks { assert u.books.events == b.events + [u.books.events[|b.events|]]; }
    assert u.runners == s.runners[r := n.(remaining := n.remaining - Spent(DecisionOf(n), outcome), place := Between)];
  }

  lemma DecisionIgnoresMonth(g: Goal, gross: int, remaining: int, month: int)
    requires !MonthMatters(g, remaining)
    ensures DecideGoal(g, gross, remaining, month) == DecideGoal(g, gross, remaining, 0)
  {
  }

  /** The month is read exactly for the decisions that depend on it. */
  lemma MonthMattersExactly(g: Goal, gross: int, remaining: int)
    ensures MonthMatters(g, remaining)
       <==> exists month, other :: DecideGoal(g, gross, remaining, month) != DecideGoal(g, gross, remaining, other)
  {
    if MonthMatters(g, remaining) {
      assert DecideGoal(g, gross, remaining, g.monthlyTarget) == Leave(NoAllocatableAmount);
      assert DecideGoal(g, gross, remaining, g.monthlyTarget - 1) == Take(1);
    } else {
      forall month ensures DecideGoal(g, gross, remaining, month) == DecideGoal(g, gross, remaining, 0) {
        DecisionIgnoresMonth(g, gross, remaining, month);
      }
    }
  }

  lemma DecisionIgnoresId(g: Goal, id: Id, gross: int, remaining: int, month: int)
    ensures DecideGoal(g.(id := id), gross, remaining, month) == DecideGoal(g, gross, remaining, month)
    ensures MonthMatters(g.(id := id), remaining) == MonthMatters(g, remaining)
  {
  }

  /** What a turn leaves of an undisturbed run: its books, and the run before its next turn unless an error ended it. */
  function Left(s: State, r: nat, q: Progress): State
    requires r in s.runners
  {
    State(q.books, if q.halted then s.runners - {r} else s.runners[r := s.runners[r].(remaining := q.remaining, place := Between)])
  }

  /** What the end of a turn, whose reservation worked, leaves of it. */
  lemma EndIsTurn(s: State, p: Progress, g: Goal, c: Credit, fate: GoalFate, r: nat, decision: Decision)
    requires IsAt(s, r, p, g, c) && !Reserved(s.books.events, g.id, c.tx) && fate.reserve.Works?
    requires decision == DecideGoal(g, c.gross, p.remaining, if fate.monthRead then MonthTotal(p.books.events, g.id, c.month) else 0)
    ensures State(TurnBooks(s.books, g.id, c, decision, fate.outcome, fate.marks),
                  s.runners[r := s.runners[r].(remaining := p.remaining - Spent(decision, fate.outcome), place := Between)])
         == Left(s, r, GoalStep(p, g, c, fate))
  {
    hide MonthTotal, DecideGoal, Reserved, Logged, PaidToGoal;
  }

  lemma MonthTurnIsSteps(s: State, p: Progress, g: Goal, c: Credit, fate: GoalFate, r: nat)
    requires IsAt(s, r, p, g, c) && !Reserved(s.books.events, g.id, c.tx) && fate.reserve.Works? && MonthMatters(g, p.remaining)
    ensures Legal(s, GoalTurn(p, g, c, fate, r)) && Run(s, GoalTurn(p, g, c, fate, r)) == Left(s, r, GoalStep(p, g, c, fate))
  {
    hide MonthTotal, DecideGoal, MonthMatters, Reserved, Legal, Run, GoalStep, TurnBooks;
    var month := if fate.monthRead then MonthTotal(p.books.events, g.id, c.month) else 0;
    var t, end := Step(s, Reserve(r, g.id, fate.reserve)), [Pay(r, fate.outcome), Mark(r, fate.marks)];
    DecisionIgnoresId(s.runners[r].rows[g.id], g.id, c.gross, p.remaining, month);
    UncompletedAddsNothing(s.books.events, Event(g.id, c.tx, c.month, Processing, 0), g.id, c.month);
    var u := Step(t, ReadMonth(r, fate.monthRead));
    EndIsTurn(s, p, g, c, fate, r, DecideGoal(g, c.gross, p.remaining, month));
    PayAndMark(u, s.books, r, fate.outcome, fate.marks);
    RunFirst(t, ReadMonth(r, fate.monthRead), end);
    RunFirst(s, Reserve(r, g.id, fate.reserve), [ReadMonth(r, fate.monthRead)] + end);
    assert GoalTurn(p, g, c, fate, r) == [Reserve(r, g.id, fate.reserve)] + ([ReadMonth(r, fate.monthRead)] + end);
    SameRunners(s, u, r);
  }

  /** Where only this runner's turn has gone on, the rest is as it was. */
  lemma SameRunners(s: State, u: State, r: nat)
    requires r in s.runners && r in u.runners && u.runners.Keys == s.runners.Keys
    requires (forall k | k in s.runners && k != r :: u.runners[k] == s.runners[k])
    requires u.runners[r] == s.runners[r].(place := u.runners[r].place)
    ensures forall left :: u.runners[r := u.runners[r].(remaining := left, place := Between)]
                        == s.runners[r := s.runners[r].(remaining := left, place := Between)]
  {
  }

  lemma PlainTurnIsSteps(s: State, p: Progress, g: Goal, c: Credit, fate: GoalFate, r: nat)
    requires IsAt(s, r, p, g, c) && !Reserved(s.books.events, g.id, c.tx) && fate.reserve.Works? && !MonthMatters(g, p.remaining)
    ensures Legal(s, GoalTurn(p, g, c, fate, r)) && Run(s, GoalTurn(p, g, c, fate, r)) == Left(s, r, GoalStep(p, g, c, fate))
  {
    hide MonthTotal, DecideGoal, MonthMatters, Reserved, Legal, Run, GoalStep, TurnBooks;
    var month := if fate.monthRead then MonthTotal(p.books.events, g.id, c.month) else 0;
    var t, end := Step(s, Reserve(r, g.id, fate.reserve)), [Pay(r, fate.outcome), Mark(r, fate.marks)];
    DecisionIgnoresMonth(g, c.gross, p.remaining, month);
    DecisionIgnoresId(s.runners[r].rows[g.id], g.id, c.gross, p.remaining, 0);
    EndIsTurn(s, p, g, c, fate, r, DecideGoal(g, c.gross, p.remaining, month));
    PayAndMark(t, s.books, r, fate.outcome, fate.marks);
    RunFirst(s, Reserve(r, g.id, fate.reserve), end);
    assert GoalTurn(p, g, c, fate, r) == [Reserve(r, g.id, fate.reserve)] + end;
    SameRunners(s, t, r);
  }

  /** The turn of an undisturbed run does what its steps do one after the other. */
  lemma GoalTurnIsSteps(s: State, p: Progress, g: Goal, c: Credit, fate: GoalFate, r: nat)
    requires IsAt(s, r, p, g, c)
    ensures Legal(s, GoalTurn(p, g, c, fate, r)) && Run(s, GoalTurn(p, g, c, fate, r)) == Left(s, r, GoalStep(p, g, c, fate))
  {
    hide MonthTotal, DecideGoal, Reserved;
    if !Reserved(s.books.events, g.id, c.tx) && fate.reserve.Works? {
      if MonthMatters(g, p.remaining) { MonthTurnIsSteps(s, p, g, c, fate, r); } else { PlainTurnIsSteps(s, p, g, c, fate, r); }
    } else {
      var a := Reserve(r, g.id, fate.reserve);
      RunNone(Step(s, a));
      RunFirst(s, a, []);
      assert [a] + [] == [a];
      assert Step(s, a).runners == Left(s, r, GoalStep(p, g, c, fate)).runners;
    }
  }

  /** The step of a turn on a rule, if it has one. */
  function RuleTurn(p: Progress, rule: Rule, c: Credit, fate: RuleFate, r: nat): seq<Action> {
    if rule.target.None? || p.remaining <= 0 then []
    else if !fate.read then [Stop(r)]
    else if rule.target.value !in p.books.budgets then []
    else
      match DecideBudget(rule, p.books.budgets[rule.target.value], c.gross, p.remaining)
      case Leave(_) => []
      case Take(amount) => [PayBudget(r, rule.target.value, amount, fate.outcome)]
  }

  lemma RuleTurnIsSteps(s: State, p: Progress, rule: Rule, c: Credit, fate: RuleFate, r: nat)
    requires p.books == s.books && !p.halted && r in s.runners && s.runners[r].credit == c && s.runners[r].place == Between
    requires s.runners[r].remaining == p.remaining
    ensures Legal(s, RuleTurn(p, rule, c, fate, r))
    ensures Run(s, RuleTurn(p, rule, c, fate, r)) == Left(s, r, RuleStep(p, rule, c, fate))
  {
    hide DecideBudget, PaidBefore;
    var actions := RuleTurn(p, rule, c, fate, r);
    assert s.runners[r := s.runners[r]] == s.runners;
    if actions != [] { assert actions[1..] == []; }
  }

  lemma {:induction false} RunConcat(s: State, a: seq<Action>, b: seq<Action>)
    requires Legal(s, a) && Legal(Run(s, a), b)
    ensures Legal(s, a + b) && Run(s, a + b) == Run(Run(s, a), b)
    decreases |a|
  {
    hide Enabled, Step;
    if a == [] {
      assert a + b == b;
    } else {
      RunConcat(Step(s, a[0]), a[1..], b);
      assert (a + b)[1..] == a[1..] + b;
    }
  }

  /** The runner of an undisturbed run between two turns, with the rows of the goals that it has yet to consider. */
  ghost predicate IsBefore(s: State, r: nat, p: Progress, work: seq<Work>, c: Credit, i: nat) {
    && p.books == s.books && !p.halted && r in s.runners && s.runners[r].credit == c && s.runners[r].remaining == p.remaining
    && s.runners[r].place == Between
    && forall j | i <= j < |work| && work[j].OnGoal? ::
         work[j].row.id in s.runners[r].rows && s.runners[r].rows[work[j].row.id].(id := work[j].row.id) == work[j].row
  }

  lemma TurnIsSteps(s: State, p: Progress, work: seq<Work>, c: Credit, i: nat, r: nat) returns (actions: seq<Action>)
    requires i < |work| && IsBefore(s, r, p, work, c, i)
    ensures Legal(s, actions)
    ensures Run(s, actions) == Left(s, r, AutoAllocation.Step(p, work[i], c))
  {
    hide Legal, Run, GoalStep, RuleStep, GoalTurn, RuleTurn;
    match work[i]
    case OnGoal(row, fate) =>
      GoalTurnIsSteps(s, p, row, c, fate, r);
      actions := GoalTurn(p, row, c, fate, r);
    case OnRule(rule, fate) =>
      RuleTurnIsSteps(s, p, rule, c, fate, r);
      actions := RuleTurn(p, rule, c, fate, r);
  }

  lemma {:induction false} WorkIsSteps(s: State, p: Progress, work: seq<Work>, c: Credit, i: nat, r: nat)
    returns (actions: seq<Action>)
    requires IsBefore(s, r, p, work, c, i)
    ensures Legal(s, actions) && Run(s, actions) == Left(s, r, WorkFrom(p, work, c, i))
    decreases |work| - i
  {
    hide Legal, Run, AutoAllocation.Step;
    if i >= |work| {
      RunNone(s);
      assert s.runners[r := s.runners[r]] == s.runners;
      return [];
    }
    actions := TurnIsSteps(s, p, work, c, i, r);
    var q := AutoAllocation.Step(p, work[i], c);
    var t := Left(s, r, q);
    if q.halted {
      HaltedStays(q, work, c, i + 1);
    } else {
      var later := WorkIsSteps(t, q, work, c, i + 1, r);
      RunConcat(s, actions, later);
      actions := actions + later;
      var end := WorkFrom(q, work, c, i + 1);
      assert Left(t, r, end).runners == Left(s, r, end).runners;
    }
  }

  /** Every run by itself, from its start to its end, is a run of these steps, and leaves the same books. */
  lemma RunIsSteps(books: Books, order: seq<Id>, c: Credit, world: World, r: nat) returns (actions: seq<Action>)
    requires c.gross > 0
    ensures Legal(State(books, map[]), actions)
    ensures Run(State(books, map[]), actions) == State(RunCredit(books, order, c, world).books, map[])
  {
    hide Legal, Run, WorkFrom, EnabledRows;
    var s, start := State(books, map[]), Progress(books, c.gross, [], [], false);
    var rows := EnabledRows(books.goals, order);
    var work := GoalWork(rows, world.goalFates);
    var begun := Step(s, Start(r, c));
    forall j | 0 <= j < |rows|
      ensures rows[j].id in begun.runners[r].rows && begun.runners[r].rows[rows[j].id].(id := rows[j].id) == rows[j]
    {
      RowsAreInTable(books.goals, order, rows[j]);
    }
    var turns := WorkIsSteps(begun, start, work, c, 0, r);
    RunFirst(s, Start(r, c), turns);
    actions := [Start(r, c)] + turns;
    var p := WorkFrom(start, work, c, 0);
    var middle := Left(begun, r, p);
    if !p.halted {
      var rest := [];
      if world.rules.Some? {
        rest := WorkIsSteps(middle, p, RuleWork(world.rules.value, world.ruleFates), c, 0, r);
      } else {
        RunNone(middle);
      }
      RunConcat(s, actions, rest);
      actions := actions + rest;
      var end := if world.rules.Some? then WorkFrom(p, RuleWork(world.rules.value, world.ruleFates), c, 0) else p;
      var last := Run(middle, rest);
      if r in last.runners {
        RunNone(Step(last, Stop(r)));
        RunFirst(last, Stop(r), []);
        RunConcat(s, actions, [Stop(r)] + []);
        actions := actions + ([Stop(r)] + []);
        assert last.runners - {r} == map[];
      }
    }
  }
}
