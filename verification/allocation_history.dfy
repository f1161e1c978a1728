/** Automatic allocation over any history: runs and replays for any transactions, with goals and budgets
    edited in between. */
module AllocationHistory {
  import opened Outcomes
  import opened AutoAllocation
  import opened AllocationLaws

  datatype Service = Service(books: Books, order: seq<Id>)

  datatype Happening =
    | Credited(credit: Credit, world: World)
    | GoalEdited(goal: Goal)
    | BudgetEdited(id: Id, budget: Budget)

  function Apply(s: Service, h: Happening): Service {
    match h
    case Credited(credit, world) => s.(books := RunCredit(s.books, s.order, credit, world).books)
    case GoalEdited(goal) =>
      Service(s.books.(goals := s.books.goals[goal.id := goal]),
              if goal.id in s.books.goals then s.order else s.order + [goal.id])
    case BudgetEdited(id, budget) => s.(books := s.books.(budgets := s.books.budgets[id := budget]))
  }

  function History(s: Service, happenings: seq<Happening>): Service
    decreases |happenings|
  {
    if happenings == [] then s else History(Apply(s, happenings[0]), happenings[1..])
  }

  const EMPTY := Service(Books(map[], map[], [], []), [])

  // ------------------------------------------------------------------------------------- paid at most once

  /** No two postings have the same target and transaction, and every posting to a goal has its event. */
  ghost predicate PaidOnce(b: Books) {
    && (forall i, j | 0 <= i < j < |b.posts| :: b.posts[i].target != b.posts[j].target || b.posts[i].tx != b.posts[j].tx)
    && (forall i | 0 <= i < |b.posts| && b.posts[i].target.ToGoal? :: Reserved(b.events, b.posts[i].target.id, b.posts[i].tx))
  }

  lemma {:induction false} PaidBeforeNone(posts: seq<Posting>, target: Target, tx: Id)
    requires PaidBefore(posts, target, tx).None?
    ensures forall i | 0 <= i < |posts| :: posts[i].target != target || posts[i].tx != tx
  {
    if posts != [] {
      PaidBeforeNone(posts[1..], target, tx);
      assert forall i | 1 <= i < |posts| :: posts[i] == posts[1..][i - 1];
    }
  }

  /** Events are only added, and a turn that pays a goal adds the goal's event. */
  lemma GoalStepReserves(p: Progress, g: Goal, c: Credit, fate: GoalFate)
    ensures p.books.events <= GoalStep(p, g, c, fate).books.events
    ensures !GoalStep(p, g, c, fate).halted ==> Reserved(GoalStep(p, g, c, fate).books.events, g.id, c.tx)
  {
    hide DecideGoal, MonthTotal;
    var q := GoalStep(p, g, c, fate);
    if q.books.events != p.books.events {
      var last := |p.books.events|;
      assert q.books.events[last].goal == g.id && q.books.events[last].tx == c.tx;
    }
  }

  lemma ReservedStays(events: seq<Event>, later: seq<Event>, goal: Id, tx: Id)
    requires Reserved(events, goal, tx) && events <= later
    ensures Reserved(later, goal, tx)
  {
    var i :| 0 <= i < |events| && events[i].goal == goal && events[i].tx == tx;
    assert later[i] == events[i];
  }

  lemma PaidOnceMore(b: Books, after: Books, p: Posting)
    requires PaidOnce(b) && b.events <= after.events && after.posts == b.posts + [p]
    requires forall i | 0 <= i < |b.posts| :: b.posts[i].target != p.target || b.posts[i].tx != p.tx
    requires p.target.ToGoal? ==> Reserved(after.events, p.target.id, p.tx)
    ensures PaidOnce(after)
  {
    hide Reserved;
    forall i | 0 <= i < |after.posts| && after.posts[i].target.ToGoal?
      ensures Reserved(after.events, after.posts[i].target.id, after.posts[i].tx)
    {
      if i < |b.posts| { ReservedStays(b.events, after.events, b.posts[i].target.id, b.posts[i].tx); }
    }
  }

  lemma NoneMore(b: Books, after: Books)
    requires PaidOnce(b) && b.events <= after.events && after.posts == b.posts
    ensures PaidOnce(after)
  {
    hide Reserved;
    forall i | 0 <= i < |after.posts| && after.posts[i].target.ToGoal?
      ensures Reserved(after.events, after.posts[i].target.id, after.posts[i].tx)
    {
      ReservedStays(b.events, after.events, b.posts[i].target.id, b.posts[i].tx);
    }
  }

  lemma GoalStepPaysOnce(p: Progress, g: Goal, c: Credit, fate: GoalFate)
    requires PaidOnce(p.books)
    ensures PaidOnce(GoalStep(p, g, c, fate).books)
  {
    hide GoalStep, GoalPayment, Reserved;
    var q, amount := GoalStep(p, g, c, fate), GoalPayment(p, g, c, fate);
    GoalStepEffect(p, g, c, fate);
    GoalStepReserves(p, g, c, fate);
    if amount.Some? && !fate.outcome.Refuses? {
      PayingGoesOn(p, g, c, fate);
      PaidOnceMore(p.books, q.books, Posting(ToGoal(g.id), c.tx, c.month, amount.value));
    } else {
      NoneMore(p.books, q.books);
    }
  }

  lemma PayingGoesOn(p: Progress, g: Goal, c: Credit, fate: GoalFate)
    requires GoalPayment(p, g, c, fate).Some?
    ensures !GoalStep(p, g, c, fate).halted
  {
    hide DecideGoal, MonthTotal, Reserved;
  }

  lemma RuleStepPaysOnce(p: Progress, rule: Rule, c: Credit, fate: RuleFate)
    requires PaidOnce(p.books)
    ensures PaidOnce(RuleStep(p, rule, c, fate).books)
  {
    hide RuleStep, RulePayment, Reserved, PaidBefore;
    var q, amount := RuleStep(p, rule, c, fate), RulePayment(p, rule, c, fate);
    RuleStepEffect(p, rule, c, fate);
    RuleKeepsGoals(p, rule, c, fate);
    if q.books.posts != p.books.posts {
      PaidBeforeNone(p.books.posts, ToBudget(rule.target.value), c.tx);
      PaidOnceMore(p.books, q.books, Posting(ToBudget(rule.target.value), c.tx, c.month, amount.value));
    } else {
      NoneMore(p.books, q.books);
    }
  }

  lemma RunPaysOnce(books: Books, order: seq<Id>, c: Credit, world: World)
    requires PaidOnce(books)
    ensures PaidOnce(RunCredit(books, order, c, world).books)
  {
    hide RunCredit, PaidOnce, GoalStep, RuleStep;
    forall q: Progress, w | PaidOnce(q.books) ensures PaidOnce(Step(q, w, c).books) {
      match w
      case OnGoal(row, fate) => GoalStepPaysOnce(q, row, c, fate);
      case OnRule(rule, fate) => RuleStepPaysOnce(q, rule, c, fate);
    }
    RunKeeps(books, order, c, world, (p: Progress) => PaidOnce(p.books));
  }

  lemma {:induction false} HistoryPaysOnce(s: Service, happenings: seq<Happening>)
    requires PaidOnce(s.books)
    ensures PaidOnce(History(s, happenings).books)
    decreases |happenings|
  {
    hide RunCredit, Reserved;
    if happenings != [] {
      match happenings[0] {
        case Credited(credit, world) => RunPaysOnce(s.books, s.order, credit, world);
        case GoalEdited(_) =>
        case BudgetEdited(_, _) =>
      }
      HistoryPaysOnce(Apply(s, happenings[0]), happenings[1..]);
    }
  }

  /** In every history, with any failures, a source transaction moves money to a goal or a budget at most
      once. */
  lemma FundedAtMostOnce(happenings: seq<Happening>, i: nat, j: nat)
    requires i < j < |History(EMPTY, happenings).books.posts|
    ensures var posts := History(EMPTY, happenings).books.posts;
            posts[i].target != posts[j].target || posts[i].tx != posts[j].tx
  {
    hide History;
    assert PaidOnce(EMPTY.books);
    HistoryPaysOnce(EMPTY, happenings);
  }

  // --------------------------------------------------------------------------------------------- replays

  lemma {:induction false} WorkReserves(p: Progress, work: seq<Work>, c: Credit, i: nat)
    requires forall w | w in work :: w.OnGoal?
    ensures p.books.events <= WorkFrom(p, work, c, i).books.events
    ensures !WorkFrom(p, work, c, i).halted ==>
      forall j | i <= j < |work| :: Reserved(WorkFrom(p, work, c, i).books.events, work[j].row.id, c.tx)
    decreases |work| - i
  {
    hide GoalStep, Reserved;
    if i < |work| {
      var q, end := Step(p, work[i], c), WorkFrom(p, work, c, i);
      GoalStepReserves(p, work[i].row, c, work[i].goalFate);
      WorkReserves(q, work, c, i + 1);
      if !end.halted {
        if q.halted { HaltedStays(q, work, c, i + 1); }
        ReservedStays(q.books.events, end.books.events, work[i].row.id, c.tx);
      }
    }
  }

  lemma {:induction false} RulesKeepEvents(p: Progress, work: seq<Work>, c: Credit, i: nat)
    requires forall w | w in work :: w.OnRule?
    ensures WorkFrom(p, work, c, i).books.events == p.books.events
    decreases |work| - i
  {
    hide RuleStep;
    if i < |work| {
      RuleKeepsGoals(p, work[i].rule, c, work[i].ruleFate);
      RulesKeepEvents(Step(p, work[i], c), work, c, i + 1);
    }
  }

  /** A run that reaches its end has left an event for every enabled goal. */
  lemma RunReserves(books: Books, order: seq<Id>, c: Credit, world: World, id: Id)
    requires c.gross > 0 && !RunCredit(books, order, c, world).halted
    requires id in order && id in books.goals && books.goals[id].enabled
    ensures Reserved(RunCredit(books, order, c, world).books.events, id, c.tx)
  {
    hide GoalStep, RuleStep, Reserved, EnabledRows;
    var start := Progress(books, c.gross, [], [], false);
    var rows := EnabledRows(books.goals, order);
    var work := GoalWork(rows, world.goalFates);
    WorkReserves(start, work, c, 0);
    TableRows(books.goals, order, id);
    var j :| 0 <= j < |rows| && rows[j] == books.goals[id].(id := id);
    assert work[j].row.id == id;
    RulesKeepEvents(WorkFrom(start, work, c, 0), RuleWork(world.rules.value, world.ruleFates), c, 0);
  }

  /** Nothing has gone to a goal since `first`. */
  ghost predicate OnlyBudgets(p: Progress, first: Books) {
    && p.books.goals == first.goals && first.events <= p.books.events && first.posts <= p.books.posts
    && (forall a | a in p.applied :: a.target.ToBudget?)
    && (forall i | |first.posts| <= i < |p.books.posts| :: p.books.posts[i].target.ToBudget?)
  }

  lemma StepOnlyBudgets(p: Progress, w: Work, c: Credit, first: Books)
    requires OnlyBudgets(p, first) && (w.OnGoal? ==> Reserved(first.events, w.row.id, c.tx))
    ensures OnlyBudgets(Step(p, w, c), first)
  {
    hide DecideGoal, DecideBudget, Reserved, PaidBefore, RulePayment;
    match w
    case OnGoal(row, fate) => ReservedStays(first.events, p.books.events, row.id, c.tx);
    case OnRule(rule, fate) =>
      RuleKeepsGoals(p, rule, c, fate);
      RuleStepEffect(p, rule, c, fate);
  }

  /** A replay of a run that reached its end, whatever amount or trigger it is replayed with and whatever
      fails in it, moves nothing to any goal. */
  lemma ReplayFundsNoGoal(books: Books, order: seq<Id>, c: Credit, world: World, again: Credit, worldThen: World)
    requires c.gross > 0 && !RunCredit(books, order, c, world).halted && again.tx == c.tx
    ensures var first := RunCredit(books, order, c, world).books;
            OnlyBudgets(RunCredit(first, order, again, worldThen), first)
  {
    var first := RunCredit(books, order, c, world).books;
    RunStaysCapped(books, order, c, world);
    forall row | row in EnabledRows(first.goals, order) ensures Reserved(first.events, row.id, again.tx) {
      RowsAreInTable(first.goals, order, row);
      assert GoalCapped(books.goals[row.id], first.goals[row.id], Reserved(first.events, row.id, c.tx));
      RunReserves(books, order, c, world, row.id);
    }
    hide RunCredit, Step, Reserved, EnabledRows;
    forall q: Progress, w | OnlyBudgets(q, first) && FromTables(w, first, order)
      ensures OnlyBudgets(Step(q, w, again), first)
    {
      StepOnlyBudgets(q, w, again, first);
    }
    RunKeeps(first, order, again, worldThen, (p: Progress) => OnlyBudgets(p, first));
  }

  // ---------------------------------------------------------------------------------------- where it is off

  /** A call that fails after moving the money leaves it available to the next goal: one credit is moved
      twice, and half of it is reported. */
  lemma LostAnswerMovesTwice(gross: int)
    requires gross > 0
    ensures var a, b := Goal("a", Percentage, gross, 0, 10000, 0, true), Goal("b", Percentage, gross, 0, 10000, 0, true);
            var p := RunCredit(Books(map["a" := a, "b" := b], map[], [], []), ["a", "b"], Credit("tx", gross, 0),
                               World(Some([]), [GoalFate(Works, true, true, Loses)], []));
            Moved(p.books.posts) == 2 * gross && Total(p.applied) == gross && p.remaining == 0
  {
    var a, b := Goal("a", Percentage, gross, 0, 10000, 0, true), Goal("b", Percentage, gross, 0, 10000, 0, true);
    var goals, c := map["a" := a, "b" := b], Credit("tx", gross, 0);
    var world := World(Some([]), [GoalFate(Works, true, true, Loses)], []);
    hide GoalStep, Moved, Total, EnabledRows;
    TwoRows(goals, a, b);
    var work := GoalWork([a, b], world.goalFates);
    var p0 := Progress(Books(goals, map[], [], []), gross, [], [], false);
    var p1 := Step(p0, work[0], c);
    var p2 := Step(p1, work[1], c);
    TwoTurns(p0, work, c);
    TakesAll(p0, a, c, work[0].goalFate);
    TakesAll(p1, b, c, work[1].goalFate);
    var x, y := Posting(ToGoal("a"), "tx", 0, gross), Posting(ToGoal("b"), "tx", 0, gross);
    MovedOne([x], y);
    MovedOne([], x);
    TotalOne([], Applied(ToGoal("b"), gross));
    NothingMoved();
    assert [] + [x] == [x] && [x] + [y] == [x, y];
  }

  lemma NothingMoved()
    ensures Moved([]) == 0 && Total([]) == 0
  {
  }

  lemma TwoTurns(p: Progress, work: seq<Work>, c: Credit)
    requires |work| == 2
    ensures WorkFrom(p, work, c, 0) == Step(Step(p, work[0], c), work[1], c)
  {
    hide Step;
    assert WorkFrom(Step(p, work[0], c), work, c, 1) == Step(Step(p, work[0], c), work[1], c);
  }

  /** A goal that asks for the whole credit and has room for it. */
  lemma TakesAll(p: Progress, g: Goal, c: Credit, fate: GoalFate)
    requires !p.halted && p.remaining == c.gross == g.target > 0 && g.current == 0
    requires g.strategy == Percentage && g.percentage == 10000
    requires (forall i | 0 <= i < |p.books.events| :: p.books.events[i].goal != g.id) && fate.reserve.Works? && fate.marks && !fate.outcome.Refuses?
    ensures var q := GoalStep(p, g, c, fate);
            && q.books.posts == p.books.posts + [Posting(ToGoal(g.id), c.tx, c.month, c.gross)] && !q.halted
            && q.applied == (if fate.outcome.Works? then p.applied + [Applied(ToGoal(g.id), c.gross)] else p.applied)
            && q.remaining == (if fate.outcome.Works? then 0 else p.remaining)
            && |q.books.events| == |p.books.events| + 1 && q.books.events[..|p.books.events|] == p.books.events
            && q.books.events[|p.books.events|].goal == g.id
  {
    hide MonthTotal;
  }

  lemma TwoRows(goals: map<Id, Goal>, a: Goal, b: Goal)
    requires goals == map["a" := a, "b" := b] && a.id == "a" && b.id == "b" && a.enabled && b.enabled
    ensures EnabledRows(goals, ["a", "b"]) == [a, b]
  {
    assert ["a", "b"][1..] == ["b"] && ["b"][1..] == [] && EnabledRows(goals, []) == [];
  }

  /** Two rules for one budget share a reference: the second is reported as applied and moves nothing. */
  lemma SharedReferenceMovesOnce(amount: int)
    requires amount > 0
    ensures var budget := Budget(3 * amount, 0, 0, true, true, None, amount, 0);
            var rule := Rule(Some("b"), None, amount, 0);
            var p := RunCredit(Books(map[], map["b" := budget], [], []), [], Credit("tx", 2 * amount, 0),
                               World(Some([rule, rule]), [], []));
            Total(p.applied) == 2 * amount && Moved(p.books.posts) == amount && p.remaining == 0
  {
    var budget, rule := Budget(3 * amount, 0, 0, true, true, None, amount, 0), Rule(Some("b"), None, amount, 0);
    var c := Credit("tx", 2 * amount, 0);
    var p0 := Progress(Books(map[], map["b" := budget], [], []), 2 * amount, [], [], false);
    assert EnabledRows(map[], []) == [];
    var work := RuleWork([rule, rule], []);
    var x, y := Applied(ToBudget("b"), amount), Posting(ToBudget("b"), "tx", 0, amount);
    var p1 := Step(p0, work[0], c);
    FixedAmount(p0, rule, c, amount, None);
    var p2 := Step(p1, work[1], c);
    assert [y][0] == y;
    FixedAmount(p1, rule, c, amount, Some(amount));
    TwoTurns(p0, work, c);
    hide RuleStep, Moved, Total;
    MovedOne([], y);
    TotalOne([x], x);
    TotalOne([], x);
    NothingMoved();
    assert [] + [y] == [y] && [] + [x] == [x];
  }

  /** A rule that asks for a fixed amount the budget has room for. */
  lemma FixedAmount(p: Progress, rule: Rule, c: Credit, amount: int, before: Option<int>)
    requires rule == Rule(Some("b"), None, amount, 0) && !p.halted && p.remaining >= amount > 0
    requires "b" in p.books.budgets && PaidBefore(p.books.posts, ToBudget("b"), c.tx) == before
    requires before.None? || before == Some(amount)
    requires exists funded :: p.books.budgets["b"] == Budget(3 * amount, funded, 0, true, true, None, amount, 0) && funded <= 2 * amount
    ensures var q := RuleStep(p, rule, c, GOOD_RULE);
            && q.books.posts == (if before.None? then p.books.posts + [Posting(ToBudget("b"), c.tx, c.month, amount)] else p.books.posts)
            && q.applied == p.applied + [Applied(ToBudget("b"), amount)] && q.remaining == p.remaining - amount && !q.halted
            && "b" in q.books.budgets
            && q.books.budgets["b"] == p.books.budgets["b"].(funded := p.books.budgets["b"].funded + if before.None? then amount else 0)
  {
  }
}
