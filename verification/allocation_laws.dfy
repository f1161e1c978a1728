/** What automatic allocation keeps, over one run and over any history of runs. */
module AllocationLaws {
  import opened Basics
  import opened Outcomes
  import opened AutoAllocation

  // ------------------------------------------------------------------------------- how much is allocated

  /** An amount that the goal's room, what is left of the credit, and the goal's strategy allow. */
  predicate GoalAllows(g: Goal, gross: int, remaining: int, month: int, amount: int) {
    && 0 < amount <= remaining && g.current + amount <= g.target
    && match g.strategy
       case Percentage => g.percentage > 0 && 20000 * amount - 10000 <= 2 * gross * g.percentage
       case FixedMonthly => g.monthlyTarget > 0 && month + amount <= g.monthlyTarget
       case Manual => false
  }

  /** A goal is given exactly the largest amount it allows, and nothing when it allows none. */
  lemma GoalGetsLargestAllowed(g: Goal, gross: int, remaining: int, month: int, amount: int)
    ensures DecideGoal(g, gross, remaining, month) == Take(amount)
       <==> GoalAllows(g, gross, remaining, month, amount) && !GoalAllows(g, gross, remaining, month, amount + 1)
    ensures DecideGoal(g, gross, remaining, month).Leave? ==> !GoalAllows(g, gross, remaining, month, amount)
  {
    var total := 2 * gross * g.percentage;
    assert 20000 * Share(gross, g.percentage) - 10000 <= total < 20000 * Share(gross, g.percentage) + 10000;
    hide Share;
  }

  predicate BudgetAllows(rule: Rule, b: Budget, gross: int, remaining: int, amount: int) {
    && b.active && b.enabled && 0 < amount <= remaining && b.funded + amount <= b.limit
    && (b.threshold > 0 ==> b.funded - b.spent < b.threshold)
    && if rule.mode == Some(Percent) || (rule.mode.None? && b.mode == Some(Percent))
       then 20000 * amount - 10000 <= 2 * gross * (if rule.percentage != 0 then rule.percentage else b.autoAmount)
       else amount <= if rule.fixedAmount != 0 then rule.fixedAmount else b.autoAmount
  }

  /** A budget is given exactly the largest amount it and the rule allow. */
  lemma BudgetGetsLargestAllowed(rule: Rule, b: Budget, gross: int, remaining: int, amount: int)
    ensures DecideBudget(rule, b, gross, remaining) == Take(amount)
       <==> BudgetAllows(rule, b, gross, remaining, amount) && !BudgetAllows(rule, b, gross, remaining, amount + 1)
    ensures DecideBudget(rule, b, gross, remaining).Leave? ==> !BudgetAllows(rule, b, gross, remaining, amount)
  {
    var percentage := if rule.percentage != 0 then rule.percentage else b.autoAmount;
    var total := 2 * gross * percentage;
    assert 20000 * Share(gross, percentage) - 10000 <= total < 20000 * Share(gross, percentage) + 10000;
    hide Share;
  }

  // ------------------------------------------------------------------------- what every step keeps, a run keeps

  lemma {:induction false} WorkKeeps(p: Progress, work: seq<Work>, c: Credit, i: nat, keeps: Progress -> bool)
    requires keeps(p) && forall q, w | keeps(q) && w in work :: keeps(Step(q, w, c))
    ensures keeps(WorkFrom(p, work, c, i))
    decreases |work| - i
  {
    if i < |work| { WorkKeeps(Step(p, work[i], c), work, c, i + 1, keeps); }
  }

  lemma RunKeeps(books: Books, order: seq<Id>, c: Credit, world: World, keeps: Progress -> bool)
    requires keeps(Progress(books, c.gross, [], [], false))
    requires forall q | keeps(q) :: keeps(q.(halted := true))
    requires forall q, w | keeps(q) && FromTables(w, books, order) :: keeps(Step(q, w, c))
    ensures keeps(RunCredit(books, order, c, world))
  {
    var start := Progress(books, c.gross, [], [], false);
    var work := GoalWork(EnabledRows(books.goals, order), world.goalFates);
    WorkKeeps(start, work, c, 0, keeps);
    var p := WorkFrom(start, work, c, 0);
    if world.rules.Some? {
      WorkKeeps(p, RuleWork(world.rules.value, world.ruleFates), c, 0, keeps);
    }
  }

  /** A turn on a rule, or on a row of the goal table as it was when the run began. */
  predicate FromTables(w: Work, books: Books, order: seq<Id>) {
    w.OnGoal? ==> w.row in EnabledRows(books.goals, order)
  }

  // ------------------------------------------------------------------------------------------ conservation

  function Total(applied: seq<Applied>): int {
    if applied == [] then 0 else Total(applied[..|applied| - 1]) + applied[|applied| - 1].amount
  }

  ghost predicate Conserves(p: Progress, gross: int) {
    p.remaining >= 0 && gross == p.remaining + Total(p.applied) && forall a | a in p.applied :: a.amount > 0
  }

  lemma TotalOne(applied: seq<Applied>, a: Applied)
    ensures Total(applied + [a]) == Total(applied) + a.amount
  {
    assert (applied + [a])[..|applied|] == applied;
  }

  /** One more amount taken from what is left. */
  lemma TakingConserves(p: Progress, q: Progress, a: Applied, gross: int)
    requires Conserves(p, gross) && 0 < a.amount <= p.remaining
    requires q.remaining == p.remaining - a.amount && q.applied == p.applied + [a]
    ensures Conserves(q, gross)
  {
    TotalOne(p.applied, a);
  }

  lemma GoalConserves(p: Progress, g: Goal, c: Credit, fate: GoalFate)
    requires Conserves(p, c.gross)
    ensures Conserves(GoalStep(p, g, c, fate), c.gross)
  {
    var q := GoalStep(p, g, c, fate);
    hide DecideGoal, Logged, PaidToGoal, Reserved, MonthTotal, Total;
    if q.remaining != p.remaining {
      TakingConserves(p, q, Applied(ToGoal(g.id), p.remaining - q.remaining), c.gross);
    }
  }

  lemma RuleConserves(p: Progress, rule: Rule, c: Credit, fate: RuleFate)
    requires Conserves(p, c.gross)
    ensures Conserves(RuleStep(p, rule, c, fate), c.gross)
  {
    var q := RuleStep(p, rule, c, fate);
    hide DecideBudget, PaidToBudget, Total;
    if q.remaining != p.remaining {
      TakingConserves(p, q, Applied(ToBudget(rule.target.value), p.remaining - q.remaining), c.gross);
    }
  }

  lemma StepConserves(p: Progress, w: Work, c: Credit)
    requires Conserves(p, c.gross)
    ensures Conserves(Step(p, w, c), c.gross)
  {
    match w
    case OnGoal(row, fate) => GoalConserves(p, row, c, fate);
    case OnRule(rule, fate) => RuleConserves(p, rule, c, fate);
  }

  /** The credit is split exactly into what was applied and what is left, nothing is overdrawn and
      nothing empty is applied. */
  lemma RunConserves(books: Books, order: seq<Id>, c: Credit, world: World)
    requires c.gross > 0
    ensures Conserves(RunCredit(books, order, c, world), c.gross)
  {
    hide RunCredit, Step;
    forall q, w | Conserves(q, c.gross) ensures Conserves(Step(q, w, c), c.gross) { StepConserves(q, w, c); }
    RunKeeps(books, order, c, world, p => Conserves(p, c.gross));
  }

  // -------------------------------------------------------------------------------------- targets and limits

  ghost predicate GoalCapped(before: Goal, now: Goal, touched: bool) {
    && now.target == before.target && now.enabled == before.enabled && (touched || now == before)
    && before.current <= now.current <= Max(before.current, before.target)
  }

  ghost predicate GoalsCapped(before: map<Id, Goal>, b: Books, tx: Id) {
    b.goals.Keys == before.Keys && forall id | id in before :: GoalCapped(before[id], b.goals[id], Reserved(b.events, id, tx))
  }

  ghost predicate BudgetsCapped(before: map<Id, Budget>, now: map<Id, Budget>) {
    && now.Keys == before.Keys
    && forall id | id in before ::
         now[id].limit == before[id].limit && before[id].funded <= now[id].funded <= Max(before[id].funded, before[id].limit)
  }

  lemma {:induction false} RowsAreInTable(goals: map<Id, Goal>, order: seq<Id>, row: Goal)
    requires row in EnabledRows(goals, order)
    ensures row.id in order && row.id in goals && goals[row.id].(id := row.id) == row && row.enabled
  {
    if row in EnabledRows(goals, order[1..]) { RowsAreInTable(goals, order[1..], row); }
  }

  lemma {:induction false} TableRows(goals: map<Id, Goal>, order: seq<Id>, id: Id)
    requires id in order && id in goals && goals[id].enabled
    ensures goals[id].(id := id) in EnabledRows(goals, order)
  {
    if id != order[0] { TableRows(goals, order[1..], id); }
  }

  lemma AppendReserves(events: seq<Event>, e: Event, goal: Id, tx: Id)
    ensures Reserved(events + [e], goal, tx) <==> Reserved(events, goal, tx) || (e.goal == goal && e.tx == tx)
  {
    assert (events + [e])[|events|] == e;
    assert forall i | 0 <= i < |events| :: (events + [e])[i] == events[i];
  }

  /** What a turn on a goal does to the tables of goals and events. */
  lemma GoalStepTables(p: Progress, g: Goal, c: Credit, fate: GoalFate)
    ensures var b, amount := GoalStep(p, g, c, fate).books, GoalPayment(p, g, c, fate);
            && b.goals == (if amount.Some? && !fate.outcome.Refuses? && g.id in p.books.goals
                           then p.books.goals[g.id := p.books.goals[g.id].(current := p.books.goals[g.id].current + amount.value)]
                           else p.books.goals)
            && (b.events == p.books.events
                || (|b.events| == |p.books.events| + 1 && b.events[..|p.books.events|] == p.books.events
                    && b.events[|p.books.events|].goal == g.id && b.events[|p.books.events|].tx == c.tx))
            && (amount.Some? ==> b.events != p.books.events && g.current + amount.value <= g.target)
  {
    hide DecideGoal, MonthTotal, Reserved;
  }

  lemma GoalStepCapped(before: map<Id, Goal>, p: Progress, g: Goal, c: Credit, fate: GoalFate)
    requires GoalsCapped(before, p.books, c.tx) && g.id in before && before[g.id].(id := g.id) == g
    ensures GoalsCapped(before, GoalStep(p, g, c, fate).books, c.tx)
  {
    hide GoalStep, Reserved, GoalPayment;
    GoalStepTables(p, g, c, fate);
    var b := GoalStep(p, g, c, fate).books;
    if b.events != p.books.events {
      var e := b.events[|p.books.events|];
      assert b.events == p.books.events + [e];
      forall id ensures Reserved(b.events, id, c.tx) <==> Reserved(p.books.events, id, c.tx) || id == g.id {
        AppendReserves(p.books.events, e, id, c.tx);
      }
    }
  }

  /** An undisturbed run raises no goal above its target and no budget above its limit. */
  lemma RunStaysCapped(books: Books, order: seq<Id>, c: Credit, world: World)
    ensures GoalsCapped(books.goals, RunCredit(books, order, c, world).books, c.tx)
    ensures BudgetsCapped(books.budgets, RunCredit(books, order, c, world).books.budgets)
  {
    hide RunCredit, Step;
    forall q: Progress, w | GoalsCapped(books.goals, q.books, c.tx) && FromTables(w, books, order)
      ensures GoalsCapped(books.goals, Step(q, w, c).books, c.tx)
    {
      StepCapped(books, order, q, w, c);
    }
    RunKeeps(books, order, c, world, (p: Progress) => GoalsCapped(books.goals, p.books, c.tx));
    forall q: Progress, w | BudgetsCapped(books.budgets, q.books.budgets)
      ensures BudgetsCapped(books.budgets, Step(q, w, c).books.budgets)
    {
      StepBudgetsCapped(books.budgets, q, w, c);
    }
    RunKeeps(books, order, c, world, (p: Progress) => BudgetsCapped(books.budgets, p.books.budgets));
  }

  lemma StepCapped(books: Books, order: seq<Id>, p: Progress, w: Work, c: Credit)
    requires GoalsCapped(books.goals, p.books, c.tx) && FromTables(w, books, order)
    ensures GoalsCapped(books.goals, Step(p, w, c).books, c.tx)
  {
    hide GoalsCapped, GoalStep, DecideBudget;
    match w
    case OnGoal(row, fate) =>
      RowsAreInTable(books.goals, order, row);
      GoalStepCapped(books.goals, p, row, c, fate);
    case OnRule(rule, fate) =>
      RuleKeepsGoals(p, rule, c, fate);
      SameCapped(books.goals, p.books, RuleStep(p, rule, c, fate).books, c.tx);
  }

  lemma RuleKeepsGoals(p: Progress, rule: Rule, c: Credit, fate: RuleFate)
    ensures RuleStep(p, rule, c, fate).books.goals == p.books.goals
    ensures RuleStep(p, rule, c, fate).books.events == p.books.events
  {
    hide DecideBudget, PaidBefore;
  }

  lemma SameCapped(before: map<Id, Goal>, b: Books, after: Books, tx: Id)
    requires GoalsCapped(before, b, tx) && after.goals == b.goals && after.events == b.events
    ensures GoalsCapped(before, after, tx)
  {
  }

  lemma StepBudgetsCapped(before: map<Id, Budget>, p: Progress, w: Work, c: Credit)
    requires BudgetsCapped(before, p.books.budgets)
    ensures BudgetsCapped(before, Step(p, w, c).books.budgets)
  {
    hide DecideGoal, DecideBudget, MonthTotal, Reserved, PaidBefore;
  }

  // -------------------------------------------------------------------------- what moved and what is reported

  function Moved(posts: seq<Posting>): int {
    if posts == [] then 0 else Moved(posts[..|posts| - 1]) + posts[|posts| - 1].amount
  }

  lemma MovedOne(posts: seq<Posting>, p: Posting)
    ensures Moved(posts + [p]) == Moved(posts) + p.amount
  {
    assert (posts + [p])[..|posts|] == posts;
  }

  /** The amount a turn on a goal tries to move. */
  function GoalPayment(p: Progress, g: Goal, c: Credit, fate: GoalFate): (amount: Option<int>)
    ensures amount.Some? ==> 0 < amount.value <= p.remaining && !Reserved(p.books.events, g.id, c.tx)
  {
    if p.halted || Reserved(p.books.events, g.id, c.tx) || !fate.reserve.Works? then None
    else
      var month := if fate.monthRead then MonthTotal(p.books.events, g.id, c.month) else 0;
      match DecideGoal(g, c.gross, p.remaining, month) case Leave(_) => None case Take(amount) => Some(amount)
  }

  /** The amount a turn on a rule asks the budget procedure to move. */
  function RulePayment(p: Progress, rule: Rule, c: Credit, fate: RuleFate): (amount: Option<int>)
    ensures amount.Some? ==> rule.target.Some? && rule.target.value in p.books.budgets && 0 < amount.value <= p.remaining
    ensures amount.Some? ==>
      p.books.budgets[rule.target.value].funded + amount.value <= p.books.budgets[rule.target.value].limit
  {
    if p.halted || rule.target.None? || p.remaining <= 0 || !fate.read || rule.target.value !in p.books.budgets then None
    else
      match DecideBudget(rule, p.books.budgets[rule.target.value], c.gross, p.remaining)
      case Leave(_) => None
      case Take(amount) => Some(amount)
  }

  lemma GoalStepEffect(p: Progress, g: Goal, c: Credit, fate: GoalFate)
    ensures var q, amount := GoalStep(p, g, c, fate), GoalPayment(p, g, c, fate);
            && q.books.posts == (if amount.Some? && !fate.outcome.Refuses?
                                 then p.books.posts + [Posting(ToGoal(g.id), c.tx, c.month, amount.value)] else p.books.posts)
            && q.applied == (if amount.Some? && fate.outcome.Works?
                             then p.applied + [Applied(ToGoal(g.id), amount.value)] else p.applied)
  {
    hide DecideGoal, MonthTotal, Reserved;
  }

  /** The money moved to a goal in a month. */
  function MovedIn(posts: seq<Posting>, id: Id, month: int): int {
    if posts == [] then 0
    else
      var p := posts[|posts| - 1];
      MovedIn(posts[..|posts| - 1], id, month) + if p.target == ToGoal(id) && p.month == month then p.amount else 0
  }

  lemma MovedInOne(posts: seq<Posting>, p: Posting, id: Id, month: int)
    ensures MovedIn(posts + [p], id, month)
         == MovedIn(posts, id, month) + if p.target == ToGoal(id) && p.month == month then p.amount else 0
  {
    assert (posts + [p])[..|posts|] == posts;
  }

  lemma MonthOne(events: seq<Event>, e: Event, id: Id, month: int)
    ensures MonthTotal(events + [e], id, month) == MonthTotal(events, id, month)
         + if e.goal == id && e.month == month && e.status == Completed then e.amount else 0
  {
    assert (events + [e])[..|events|] == events;
  }

  /** How a turn changes the two sums: the money by what it pays, the completed allocations by what it pays,
      reports and marks. */
  lemma GoalTurnSums(p: Progress, g: Goal, c: Credit, fate: GoalFate, id: Id, month: int)
    ensures var q, amount := GoalStep(p, g, c, fate), GoalPayment(p, g, c, fate);
            var here := g.id == id && c.month == month && amount.Some?;
            && MovedIn(q.books.posts, id, month)
            == MovedIn(p.books.posts, id, month) + (if here && !fate.outcome.Refuses? then amount.value else 0)
            && MonthTotal(q.books.events, id, month)
            == MonthTotal(p.books.events, id, month) + (if here && fate.outcome.Works? && fate.marks then amount.value else 0)
  {
    hide MonthTotal, MovedIn, Reserved, DecideGoal;
    var q, amount := GoalStep(p, g, c, fate), GoalPayment(p, g, c, fate);
    GoalStepEffect(p, g, c, fate);
    if amount.Some? { MovedInOne(p.books.posts, Posting(ToGoal(g.id), c.tx, c.month, amount.value), id, month); }
    if q.books.events != p.books.events {
      var e := q.books.events[|p.books.events|];
      assert q.books.events == p.books.events + [e];
      MonthOne(p.books.events, e, id, month);
    }
  }

  lemma RuleStepEffect(p: Progress, rule: Rule, c: Credit, fate: RuleFate)
    ensures var q, amount := RuleStep(p, rule, c, fate), RulePayment(p, rule, c, fate);
            amount.None? ==> q.books.posts == p.books.posts && q.applied == p.applied
    ensures var q, amount := RuleStep(p, rule, c, fate), RulePayment(p, rule, c, fate);
            amount.Some? ==>
              var id := rule.target.value; var before := PaidBefore(p.books.posts, ToBudget(id), c.tx);
              && q.books.posts == (if before.None? && !fate.outcome.Refuses?
                                   then p.books.posts + [Posting(ToBudget(id), c.tx, c.month, amount.value)] else p.books.posts)
              && q.applied == (if fate.outcome.Works? && (before.None? || before == amount)
                               then p.applied + [Applied(ToBudget(id), amount.value)] else p.applied)
  {
    hide DecideBudget, PaidBefore;
  }

  /** A turn moves what it reports, except where a goal's money moved and the call failed. */
  lemma GoalReportsWhatMoved(p: Progress, g: Goal, c: Credit, fate: GoalFate)
    ensures var q := GoalStep(p, g, c, fate);
            Moved(q.books.posts) - Moved(p.books.posts) == Total(q.applied) - Total(p.applied)
            <==> !(GoalPayment(p, g, c, fate).Some? && fate.outcome.Loses?)
  {
    hide GoalStep, GoalPayment;
    GoalStepEffect(p, g, c, fate);
    var amount := GoalPayment(p, g, c, fate);
    if amount.Some? {
      MovedOne(p.books.posts, Posting(ToGoal(g.id), c.tx, c.month, amount.value));
      TotalOne(p.applied, Applied(ToGoal(g.id), amount.value));
    }
  }

  /** A rule, except where the answer was lost, or the same amount had already gone to the budget. */
  lemma RuleReportsWhatMoved(p: Progress, rule: Rule, c: Credit, fate: RuleFate)
    ensures var q, amount := RuleStep(p, rule, c, fate), RulePayment(p, rule, c, fate);
            Moved(q.books.posts) - Moved(p.books.posts) == Total(q.applied) - Total(p.applied)
            <==> !(amount.Some? && var before := PaidBefore(p.books.posts, ToBudget(rule.target.value), c.tx);
                                   (fate.outcome.Loses? && before.None?) || (fate.outcome.Works? && before == amount))
  {
    hide RuleStep, RulePayment, PaidBefore;
    RuleStepEffect(p, rule, c, fate);
    var amount := RulePayment(p, rule, c, fate);
    if amount.Some? {
      MovedOne(p.books.posts, Posting(ToBudget(rule.target.value), c.tx, c.month, amount.value));
      TotalOne(p.applied, Applied(ToBudget(rule.target.value), amount.value));
    }
  }

  ghost predicate Tallies(p: Progress, posts: seq<Posting>) {
    Moved(p.books.posts) - Moved(posts) == Total(p.applied)
  }

  lemma {:induction false} PaidBeforeOne(posts: seq<Posting>, p: Posting, target: Target, tx: Id)
    ensures PaidBefore(posts + [p], target, tx)
         == if PaidBefore(posts, target, tx).Some? then PaidBefore(posts, target, tx)
            else if p.target == target && p.tx == tx then Some(p.amount) else None
  {
    if posts == [] {
      assert [] + [p] == [p];
    } else {
      assert (posts + [p])[1..] == posts[1..] + [p];
      PaidBeforeOne(posts[1..], p, target, tx);
    }
  }

  /** Work that has not been paid for yet: no later rule's budget has money of this transaction. */
  ghost predicate Unpaid(posts: seq<Posting>, work: seq<Work>, i: nat, tx: Id) {
    forall j | i <= j < |work| && work[j].OnRule? && work[j].rule.target.Some? ::
      PaidBefore(posts, ToBudget(work[j].rule.target.value), tx).None?
  }

  predicate Answered(work: seq<Work>) {
    forall w | w in work :: if w.OnGoal? then !w.goalFate.outcome.Loses? else !w.ruleFate.outcome.Loses?
  }

  /** No two rules for one budget. */
  predicate Apart(work: seq<Work>) {
    forall i, j | 0 <= i < j < |work| && work[i].OnRule? && work[j].OnRule? && work[i].rule.target.Some? ::
      work[i].rule.target != work[j].rule.target
  }

  lemma StepTallies(p: Progress, work: seq<Work>, c: Credit, i: nat, posts: seq<Posting>)
    requires i < |work| && Tallies(p, posts) && Answered(work) && Unpaid(p.books.posts, work, i, c.tx)
    ensures Tallies(Step(p, work[i], c), posts)
  {
    hide GoalStep, RuleStep, GoalPayment, RulePayment, PaidBefore, Moved, Total;
    match work[i]
    case OnGoal(row, fate) => GoalReportsWhatMoved(p, row, c, fate);
    case OnRule(rule, fate) =>
      RuleReportsWhatMoved(p, rule, c, fate);
      assert rule.target.Some? ==> PaidBefore(p.books.posts, ToBudget(rule.target.value), c.tx).None?;
  }

  /** A turn posts at most one amount, to its own goal or budget. */
  lemma StepPosts(p: Progress, w: Work, c: Credit) returns (added: seq<Posting>)
    ensures Step(p, w, c).books.posts == p.books.posts + added && |added| <= 1
    ensures forall a | a in added ::
      a.tx == c.tx && a.month == c.month && 
        if w.OnGoal? then a.target == ToGoal(w.row.id)
        else w.rule.target.Some? && a.target == ToBudget(w.rule.target.value)
  {
    hide GoalStep, RuleStep, GoalPayment, RulePayment, PaidBefore;
    match w {
      case OnGoal(row, fate) => GoalStepEffect(p, row, c, fate);
      case OnRule(rule, fate) => RuleStepEffect(p, rule, c, fate);
    }
    added := Step(p, w, c).books.posts[|p.books.posts|..];
  }

  lemma StepKeepsUnpaid(p: Progress, work: seq<Work>, c: Credit, i: nat)
    requires i < |work| && Apart(work) && Unpaid(p.books.posts, work, i, c.tx)
    ensures Unpaid(Step(p, work[i], c).books.posts, work, i + 1, c.tx)
  {
    hide Step, PaidBefore;
    var added := StepPosts(p, work[i], c);
    if added == [] {
      assert p.books.posts + added == p.books.posts;
    } else {
      assert added == [added[0]];
      forall j | i + 1 <= j < |work| && work[j].OnRule? && work[j].rule.target.Some?
        ensures PaidBefore(p.books.posts + added, ToBudget(work[j].rule.target.value), c.tx).None?
      {
        PaidBeforeOne(p.books.posts, added[0], ToBudget(work[j].rule.target.value), c.tx);
      }
    }
  }

  lemma {:induction false} WorkTallies(p: Progress, work: seq<Work>, c: Credit, i: nat, posts: seq<Posting>)
    requires Tallies(p, posts) && Answered(work) && Apart(work) && Unpaid(p.books.posts, work, i, c.tx)
    ensures Tallies(WorkFrom(p, work, c, i), posts)
    decreases |work| - i
  {
    hide Step, Tallies, Unpaid, Apart, Answered;
    if i < |work| {
      StepTallies(p, work, c, i, posts);
      StepKeepsUnpaid(p, work, c, i);
      WorkTallies(Step(p, work[i], c), work, c, i + 1, posts);
    }
  }

  lemma {:induction false} GoalWorkLeavesBudgets(p: Progress, work: seq<Work>, c: Credit, i: nat, id: Id)
    requires forall w | w in work :: w.OnGoal?
    ensures PaidBefore(WorkFrom(p, work, c, i).books.posts, ToBudget(id), c.tx) == PaidBefore(p.books.posts, ToBudget(id), c.tx)
    decreases |work| - i
  {
    hide GoalStep, GoalPayment, PaidBefore;
    if i < |work| {
      var row, fate := work[i].row, work[i].goalFate;
      GoalStepEffect(p, row, c, fate);
      var amount := GoalPayment(p, row, c, fate);
      if amount.Some? { PaidBeforeOne(p.books.posts, Posting(ToGoal(row.id), c.tx, c.month, amount.value), ToBudget(id), c.tx); }
      GoalWorkLeavesBudgets(Step(p, work[i], c), work, c, i + 1, id);
    }
  }

  /** When every answer arrives, no two rules share a budget and the transaction has not paid a budget
      before, a run moves exactly what it reports as applied. */
  lemma RunMovesWhatItReports(books: Books, order: seq<Id>, c: Credit, world: World)
    requires forall f | f in world.goalFates :: !f.outcome.Loses?
    requires forall f | f in world.ruleFates :: !f.outcome.Loses?
    requires world.rules.Some? ==> forall i, j | 0 <= i < j < |world.rules.value| && world.rules.value[i].target.Some? ::
               world.rules.value[i].target != world.rules.value[j].target
    requires forall id :: PaidBefore(books.posts, ToBudget(id), c.tx).None?
    ensures Tallies(RunCredit(books, order, c, world), books.posts)
  {
    hide PaidBefore, Step, EnabledRows, Moved, Total;
    assert Tallies(Progress(books, c.gross, [], [], false), books.posts) by { TalliesAtStart(books, c.gross); }
    if c.gross > 0 {
      var start := Progress(books, c.gross, [], [], false);
      var work := GoalWork(EnabledRows(books.goals, order), world.goalFates);
      WorkTallies(start, work, c, 0, books.posts);
      var p := WorkFrom(start, work, c, 0);
      if !p.halted && world.rules.Some? {
        var rest := RuleWork(world.rules.value, world.ruleFates);
        forall id ensures PaidBefore(p.books.posts, ToBudget(id), c.tx).None? {
          GoalWorkLeavesBudgets(start, work, c, 0, id);
        }
        WorkTallies(p, rest, c, 0, books.posts);
      }
    }
  }

  lemma TalliesAtStart(books: Books, gross: int)
    ensures Tallies(Progress(books, gross, [], [], false), books.posts)
  {
  }
}
