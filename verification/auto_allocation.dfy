/** Automatic allocation of a credit: first over the goals of a user, then over budget rules. Amounts are
    in minor units and percentages in hundredths of a percent. */
module AutoAllocation {
  import opened Basics
  import opened Outcomes

  type Id = string

  // --------------------------------------------------------------------------------------- the tables

  datatype Strategy = Percentage | FixedMonthly | Manual

  datatype Goal = Goal(
    id: Id, strategy: Strategy, target: int, current: int, percentage: int, monthlyTarget: int, enabled: bool)

  datatype Mode = Percent | Fixed

  datatype Budget = Budget(
    limit: int, funded: int, spent: int, active: bool, enabled: bool, mode: Option<Mode>, autoAmount: int, threshold: int)

  datatype Rule = Rule(target: Option<Id>, mode: Option<Mode>, fixedAmount: int, percentage: int)

  datatype Target = ToGoal(id: Id) | ToBudget(id: Id)

  datatype Status = Processing | Completed | Skipped | Failed

  /** One row per (goal, source transaction); `month` is the month it was created in. */
  datatype Event = Event(goal: Id, tx: Id, month: int, status: Status, amount: int)

  /** Money moved from the operating wallet because of a source transaction, and the month it moved in. */
  datatype Posting = Posting(target: Target, tx: Id, month: int, amount: int)

  datatype Books = Books(goals: map<Id, Goal>, budgets: map<Id, Budget>, events: seq<Event>, posts: seq<Posting>)

  // -------------------------------------------------------------------------------------- one decision

  datatype Credit = Credit(tx: Id, gross: int, month: int)

  datatype Reason =
    | AlreadyProcessed | GoalAlreadyFunded | SourceFundsConsumed | PercentageNotConfigured
    | MonthlyTargetNotConfigured | ManualStrategy | NoAllocatableAmount | AllocationFailed
    | BudgetTargetMissing | BudgetAutoAllocationDisabled | BudgetAlreadyFunded | BudgetAboveThreshold

  datatype Decision = Leave(reason: Reason) | Take(amount: int)

  /** The share of an amount, rounded half up to a minor unit. */
  function Share(gross: int, percentage: int): (r: int)
    ensures 20000 * r - 10000 <= 2 * gross * percentage < 20000 * r + 10000
  {
    (2 * gross * percentage + 10000) / 20000
  }

  function MonthTotal(events: seq<Event>, goal: Id, month: int): int {
    if events == [] then 0
    else
      var e := events[|events| - 1];
      MonthTotal(events[..|events| - 1], goal, month)
      + if e.goal == goal && e.month == month && e.status == Completed then e.amount else 0
  }

  lemma UncompletedAddsNothing(events: seq<Event>, e: Event, goal: Id, month: int)
    requires e.status != Completed
    ensures MonthTotal(events + [e], goal, month) == MonthTotal(events, goal, month)
  {
    assert (events + [e])[..|events|] == events;
  }

  /** `month` is what the month's completed allocations add up to, as far as they could be read. */
  function DecideGoal(g: Goal, gross: int, remaining: int, month: int): (d: Decision)
    ensures d.Take? ==> 0 < d.amount <= remaining && g.current + d.amount <= g.target
    ensures d.Take? && g.strategy == FixedMonthly ==> month + d.amount <= g.monthlyTarget
  {
    if g.target - g.current <= 0 then Leave(GoalAlreadyFunded)
    else if remaining <= 0 then Leave(SourceFundsConsumed)
    else if g.strategy == Percentage && g.percentage <= 0 then Leave(PercentageNotConfigured)
    else if g.strategy == FixedMonthly && g.monthlyTarget <= 0 then Leave(MonthlyTargetNotConfigured)
    else if g.strategy == Manual then Leave(ManualStrategy)
    else
      var desired := if g.strategy == Percentage then Share(gross, g.percentage) else g.monthlyTarget - month;
      var amount := Min(desired, Min(g.target - g.current, remaining));
      if amount <= 0 then Leave(NoAllocatableAmount) else Take(amount)
  }

  function OrElse(a: int, b: int): int { if a != 0 then a else b }

  function DecideBudget(rule: Rule, b: Budget, gross: int, remaining: int): (d: Decision)
    ensures d.Take? ==> 0 < d.amount <= remaining && b.funded + d.amount <= b.limit
  {
    if !b.active || !b.enabled then Leave(BudgetAutoAllocationDisabled)
    else if b.limit - b.funded <= 0 then Leave(BudgetAlreadyFunded)
    else if b.threshold > 0 && b.funded - b.spent >= b.threshold then Leave(BudgetAboveThreshold)
    else
      var mode := match rule.mode case Some(m) => m case None => match b.mode case Some(m) => m case None => Fixed;
      var desired := if mode == Percent then Share(gross, OrElse(rule.percentage, b.autoAmount))
                     else OrElse(rule.fixedAmount, b.autoAmount);
      var amount := Min(desired, Min(b.limit - b.funded, remaining));
      if amount <= 0 then Leave(NoAllocatableAmount) else Take(amount)
  }

  // ------------------------------------------------------------------------------------------- one step

  /** What the database does for one goal: how reserving the event ends, whether the month can be read
      and the event updated at the end, and how the allocation ends. */
  datatype GoalFate = GoalFate(reserve: Fate, monthRead: bool, marks: bool, outcome: Fate)

  datatype RuleFate = RuleFate(read: bool, outcome: Fate)

  datatype Applied = Applied(target: Target, amount: int)

  datatype Skip = Skip(target: Option<Target>, reason: Reason)

  /** `halted` once an error has left the run. */
  datatype Progress = Progress(books: Books, remaining: int, applied: seq<Applied>, skipped: seq<Skip>, halted: bool)

  predicate Reserved(events: seq<Event>, goal: Id, tx: Id) {
    exists i | 0 <= i < |events| :: events[i].goal == goal && events[i].tx == tx
  }

  function Passed(p: Progress, target: Option<Target>, reason: Reason): Progress {
    p.(skipped := p.skipped + [Skip(target, reason)])
  }

  function Logged(b: Books, goal: Id, c: Credit, marks: bool, status: Status, amount: int): Books {
    b.(events := b.events + [if marks then Event(goal, c.tx, c.month, status, amount) else Event(goal, c.tx, c.month, Processing, 0)])
  }

  function PaidToGoal(b: Books, goal: Id, c: Credit, amount: int): Books {
    b.(goals := if goal in b.goals then b.goals[goal := b.goals[goal].(current := b.goals[goal].current + amount)] else b.goals,
       posts := b.posts + [Posting(ToGoal(goal), c.tx, c.month, amount)])
  }

  function GoalStep(p: Progress, g: Goal, c: Credit, fate: GoalFate): Progress {
    if p.halted then p
    else if Reserved(p.books.events, g.id, c.tx) then Passed(p, Some(ToGoal(g.id)), AlreadyProcessed)
    else if fate.reserve.Refuses? then p.(halted := true)
    else if fate.reserve.Loses? then p.(books := Logged(p.books, g.id, c, false, Processing, 0), halted := true)
    else
      var month := if fate.monthRead then MonthTotal(p.books.events, g.id, c.month) else 0;
      match DecideGoal(g, c.gross, p.remaining, month)
      case Leave(reason) =>
        Passed(p.(books := Logged(p.books, g.id, c, fate.marks, Skipped, 0)), Some(ToGoal(g.id)), reason)
      case Take(amount) =>
        var paid := PaidToGoal(p.books, g.id, c, amount);
        match fate.outcome
        case Works =>
          p.(books := Logged(paid, g.id, c, fate.marks, Completed, amount), remaining := p.remaining - amount,
             applied := p.applied + [Applied(ToGoal(g.id), amount)])
        case Refuses =>
          Passed(p.(books := Logged(p.books, g.id, c, fate.marks, Failed, 0)), Some(ToGoal(g.id)), AllocationFailed)
        case Loses =>
          Passed(p.(books := Logged(paid, g.id, c, fate.marks, Failed, 0)), Some(ToGoal(g.id)), AllocationFailed)
  }

  /** The amount already moved to a target because of a source transaction. */
  function PaidBefore(posts: seq<Posting>, target: Target, tx: Id): Option<int> {
    if posts == [] then None
    else if posts[0].target == target && posts[0].tx == tx then Some(posts[0].amount)
    else PaidBefore(posts[1..], target, tx)
  }

  /** The budget procedure: a repeated reference succeeds without moving anything when the amount is the
      same, and fails otherwise. */
  function PaidToBudget(b: Books, id: Id, c: Credit, amount: int): Option<Books>
    requires id in b.budgets
  {
    match PaidBefore(b.posts, ToBudget(id), c.tx)
    case Some(before) => if before == amount then Some(b) else None
    case None =>
      if b.budgets[id].funded + amount > b.budgets[id].limit then None
      else Some(b.(budgets := b.budgets[id := b.budgets[id].(funded := b.budgets[id].funded + amount)],
                      posts := b.posts + [Posting(ToBudget(id), c.tx, c.month, amount)]))
  }

  function RuleStep(p: Progress, rule: Rule, c: Credit, fate: RuleFate): Progress {
    if p.halted then p
    else if rule.target.None? then Passed(p, None, BudgetTargetMissing)
    else
      var id := rule.target.value;
      if p.remaining <= 0 then Passed(p, Some(ToBudget(id)), SourceFundsConsumed)
      else if !fate.read then p.(halted := true)
      else if id !in p.books.budgets then Passed(p, Some(ToBudget(id)), BudgetAutoAllocationDisabled)
      else
        match DecideBudget(rule, p.books.budgets[id], c.gross, p.remaining)
        case Leave(reason) => Passed(p, Some(ToBudget(id)), reason)
        case Take(amount) =>
          var paid := PaidToBudget(p.books, id, c, amount);
          if fate.outcome == Refuses || paid.None? then Passed(p, Some(ToBudget(id)), AllocationFailed)
          else if fate.outcome == Loses then Passed(p.(books := paid.value), Some(ToBudget(id)), AllocationFailed)
          else p.(books := paid.value, remaining := p.remaining - amount,
                  applied := p.applied + [Applied(ToBudget(id), amount)])
  }

  // ---------------------------------------------------------------------------------------- whole runs

  function At<T>(s: seq<T>, i: nat, other: T): T { if i < |s| then s[i] else other }

  const GOOD_GOAL := GoalFate(Works, true, true, Works)
  const GOOD_RULE := RuleFate(true, Works)

  /** The enabled goals, oldest first. */
  function EnabledRows(goals: map<Id, Goal>, order: seq<Id>): seq<Goal> {
    if order == [] then []
    else
      (if order[0] in goals && goals[order[0]].enabled then [goals[order[0]].(id := order[0])] else [])
      + EnabledRows(goals, order[1..])
  }

  /** One turn of either loop. */
  datatype Work = OnGoal(row: Goal, goalFate: GoalFate) | OnRule(rule: Rule, ruleFate: RuleFate)

  function GoalWork(rows: seq<Goal>, fates: seq<GoalFate>): seq<Work> {
    seq(|rows|, i requires 0 <= i < |rows| => OnGoal(rows[i], At(fates, i, GOOD_GOAL)))
  }

  function RuleWork(rules: seq<Rule>, fates: seq<RuleFate>): seq<Work> {
    seq(|rules|, i requires 0 <= i < |rules| => OnRule(rules[i], At(fates, i, GOOD_RULE)))
  }

  function Step(p: Progress, w: Work, c: Credit): Progress {
    match w
    case OnGoal(row, fate) => GoalStep(p, row, c, fate)
    case OnRule(rule, fate) => RuleStep(p, rule, c, fate)
  }

  function WorkFrom(p: Progress, work: seq<Work>, c: Credit, i: nat): Progress
    decreases |work| - i
  {
    if i >= |work| then p else WorkFrom(Step(p, work[i], c), work, c, i + 1)
  }

  /** What the database does during one run: the rules it returns (none when they cannot be read) and
      the fate of each goal and rule in turn. */
  datatype World = World(rules: Option<seq<Rule>>, goalFates: seq<GoalFate>, ruleFates: seq<RuleFate>)

  function RunCredit(books: Books, order: seq<Id>, c: Credit, world: World): Progress {
    var start := Progress(books, c.gross, [], [], false);
    if c.gross <= 0 then start
    else
      var p := WorkFrom(start, GoalWork(EnabledRows(books.goals, order), world.goalFates), c, 0);
      if p.halted || world.rules.None? then p.(halted := true)
      else WorkFrom(p, RuleWork(world.rules.value, world.ruleFates), c, 0)
  }

  datatype Report = Report(applied: seq<Applied>, skipped: seq<Skip>, remainingAvailable: int)

  class GoalService {
    var goals: map<Id, Goal>
    var order: seq<Id>
    var budgets: map<Id, Budget>
    var events: seq<Event>
    var posts: seq<Posting>

    ghost function Now(): Books
      reads this
    {
      Books(goals, budgets, events, posts)
    }

    /** Inserts the event of a goal; the pair of goal and transaction is unique. */
    method ReserveAutoAllocationEvent(goal: Id, c: Credit, fate: Fate) returns (row: Result<Option<nat>, ()>)
      modifies `events
      ensures Reserved(old(events), goal, c.tx) ==> row == Ok(None) && events == old(events)
      ensures !Reserved(old(events), goal, c.tx) ==>
        && events == (if fate.Refuses? then old(events) else old(events) + [Event(goal, c.tx, c.month, Processing, 0)])
        && row == if fate.Works? then Ok(Some(|old(events)|)) else Err(())
    {
      if exists i | 0 <= i < |events| :: events[i].goal == goal && events[i].tx == c.tx { return Ok(None); }
      if fate == Refuses { return Err(()); }
      row := if fate == Works then Ok(Some(|events|)) else Err(());
      events := events + [Event(goal, c.tx, c.month, Processing, 0)];
    }

    method MarkAutoAllocationEvent(row: nat, status: Status, amount: int, works: bool)
      requires row < |events|
      modifies `events
      ensures events == if works then old(events)[row := old(events)[row].(status := status, amount := amount)] else old(events)
    {
      if works { events := events[row := events[row].(status := status, amount := amount)]; }
    }

    /** Moves money to a goal; the call may fail before or after the move. */
    method AllocateFunds(goal: Id, c: Credit, amount: int, outcome: Fate) returns (ok: bool)
      requires amount > 0
      modifies `goals, `posts
      ensures ok == outcome.Works?
      ensures Now() == if outcome.Refuses? then old(Now()) else PaidToGoal(old(Now()), goal, c, amount)
    {
      if outcome.Refuses? { return false; }
      posts := posts + [Posting(ToGoal(goal), c.tx, c.month, amount)];
      if goal in goals { goals := goals[goal := goals[goal].(current := goals[goal].current + amount)]; }
      return outcome.Works?;
    }

    /** The amount for a goal, or the reason why it gets nothing. */
    method ChooseAmount(g: Goal, c: Credit, remaining: int, month: int) returns (reason: Reason, desired: int)
      ensures DecideGoal(g, c.gross, remaining, month) == if desired <= 0 then Leave(reason) else Take(desired)
    {
      reason, desired := NoAllocatableAmount, 0;
      var goalRemaining := g.target - g.current;
      if goalRemaining <= 0 { return GoalAlreadyFunded, 0; }
      if remaining <= 0 { return SourceFundsConsumed, 0; }
      match g.strategy {
        case Percentage =>
          if g.percentage <= 0 { return PercentageNotConfigured, 0; }
          desired := Share(c.gross, g.percentage);
        case FixedMonthly =>
          if g.monthlyTarget <= 0 { return MonthlyTargetNotConfigured, 0; }
          desired := g.monthlyTarget - month;
        case Manual =>
          return ManualStrategy, 0;
      }
      desired := Min(desired, Min(goalRemaining, remaining));
    }

    method ConsiderGoal(g: Goal, c: Credit, fate: GoalFate, remaining: int, applied: seq<Applied>, skipped: seq<Skip>)
      returns (left: int, taken: seq<Applied>, passed: seq<Skip>, halted: bool)
      modifies `goals, `posts, `events
      ensures Progress(Now(), left, taken, passed, halted)
           == GoalStep(Progress(old(Now()), remaining, applied, skipped, false), g, c, fate)
    {
      hide MonthTotal, DecideGoal, Reserved;
      left, taken, passed, halted := remaining, applied, skipped, false;
      var reserved := ReserveAutoAllocationEvent(g.id, c, fate.reserve);
      if reserved.Err? { halted := true; return; }
      if reserved.value.None? {
        passed := passed + [Skip(Some(ToGoal(g.id)), AlreadyProcessed)];
        return;
      }
      var row := reserved.value.value;
      var month := if fate.monthRead then MonthTotal(events, g.id, c.month) else 0;
      UncompletedAddsNothing(old(events), Event(g.id, c.tx, c.month, Processing, 0), g.id, c.month);
      var reason, desired := ChooseAmount(g, c, remaining, month);
      if desired <= 0 {
        MarkAutoAllocationEvent(row, Skipped, 0, fate.marks);
        passed := passed + [Skip(Some(ToGoal(g.id)), reason)];
        return;
      }
      var ok := AllocateFunds(g.id, c, desired, fate.outcome);
      if ok {
        left := left - desired;
        MarkAutoAllocationEvent(row, Completed, desired, fate.marks);
        taken := taken + [Applied(ToGoal(g.id), desired)];
      } else {
        MarkAutoAllocationEvent(row, Failed, 0, fate.marks);
        passed := passed + [Skip(Some(ToGoal(g.id)), AllocationFailed)];
      }
    }

    method ConsiderRule(rule: Rule, c: Credit, fate: RuleFate, remaining: int, applied: seq<Applied>, skipped: seq<Skip>)
      returns (left: int, taken: seq<Applied>, passed: seq<Skip>, halted: bool)
      modifies `budgets, `posts
      ensures Progress(Now(), left, taken, passed, halted)
           == RuleStep(Progress(old(Now()), remaining, applied, skipped, false), rule, c, fate)
    {
      left, taken, passed, halted := remaining, applied, skipped, false;
      if rule.target.None? { passed := passed + [Skip(None, BudgetTargetMissing)]; return; }
      var id := rule.target.value;
      if remaining <= 0 { passed := passed + [Skip(Some(ToBudget(id)), SourceFundsConsumed)]; return; }
      if !fate.read { halted := true; return; }
      if id !in budgets || !budgets[id].active || !budgets[id].enabled {
        passed := passed + [Skip(Some(ToBudget(id)), BudgetAutoAllocationDisabled)];
        return;
      }
      var b := budgets[id];
      var available, capacity := b.funded - b.spent, b.limit - b.funded;
      if capacity <= 0 { passed := passed + [Skip(Some(ToBudget(id)), BudgetAlreadyFunded)]; return; }
      if b.threshold > 0 && available >= b.threshold {
        passed := passed + [Skip(Some(ToBudget(id)), BudgetAboveThreshold)];
        return;
      }
      var mode := if rule.mode.Some? then rule.mode.value else if b.mode.Some? then b.mode.value else Fixed;
      var desired;
      if mode == Percent {
        desired := Share(c.gross, if rule.percentage != 0 then rule.percentage else b.autoAmount);
      } else {
        desired := if rule.fixedAmount != 0 then rule.fixedAmount else b.autoAmount;
      }
      desired := Min(desired, Min(capacity, remaining));
      if desired <= 0 { passed := passed + [Skip(Some(ToBudget(id)), NoAllocatableAmount)]; return; }
      var ok := SharedBudgetAllocate(id, c, desired, fate.outcome);
      if ok {
        left := left - desired;
        taken := taken + [Applied(ToBudget(id), desired)];
      } else {
        passed := passed + [Skip(Some(ToBudget(id)), AllocationFailed)];
      }
    }

    /** The stored procedure, and whether its answer arrives. */
    method SharedBudgetAllocate(id: Id, c: Credit, amount: int, outcome: Fate) returns (ok: bool)
      requires id in budgets
      modifies `budgets, `posts
      ensures var paid := PaidToBudget(old(Now()), id, c, amount);
              if outcome.Refuses? || paid.None? then !ok && Now() == old(Now())
              else ok == outcome.Works? && Now() == paid.value
    {
      if outcome.Refuses? { return false; }
      var before := PaidBefore(posts, ToBudget(id), c.tx);
      if before.Some? { return before.value == amount && outcome.Works?; }
      var b := budgets[id];
      if b.funded + amount > b.limit { return false; }
      posts := posts + [Posting(ToBudget(id), c.tx, c.month, amount)];
      budgets := budgets[id := b.(funded := b.funded + amount)];
      return outcome.Works?;
    }

    method RunAutoAllocationsForCredit(c: Credit, world: World) returns (r: Result<Report, ()>)
      modifies `goals, `budgets, `events, `posts
      ensures var p := RunCredit(old(Now()), order, c, world);
              Now() == p.books && r == if p.halted then Err(()) else Ok(Report(p.applied, p.skipped, p.remaining))
    {
      if c.gross <= 0 { return Ok(Report([], [], c.gross)); }
      var rows := EnabledRows(goals, order);
      var remaining, applied, skipped, halted := c.gross, [], [], false;
      ghost var start := Progress(Now(), c.gross, [], [], false);
      ghost var work := GoalWork(rows, world.goalFates);
      var i := 0;
      while i < |rows|
        invariant i <= |rows|
        invariant WorkFrom(Progress(Now(), remaining, applied, skipped, false), work, c, i) == WorkFrom(start, work, c, 0)
      {
        remaining, applied, skipped, halted :=
          ConsiderGoal(rows[i], c, At(world.goalFates, i, GOOD_GOAL), remaining, applied, skipped);
        i := i + 1;
        if halted {
          HaltedStays(Progress(Now(), remaining, applied, skipped, true), work, c, i);
          return Err(());
        }
      }
      if world.rules.None? { return Err(()); }
      var rules := world.rules.value;
      ghost var middle := Progress(Now(), remaining, applied, skipped, false);
      work := RuleWork(rules, world.ruleFates);
      i := 0;
      while i < |rules|
        invariant i <= |rules|
        invariant WorkFrom(Progress(Now(), remaining, applied, skipped, false), work, c, i) == WorkFrom(middle, work, c, 0)
      {
        remaining, applied, skipped, halted :=
          ConsiderRule(rules[i], c, At(world.ruleFates, i, GOOD_RULE), remaining, applied, skipped);
        i := i + 1;
        if halted {
          HaltedStays(Progress(Now(), remaining, applied, skipped, true), work, c, i);
          return Err(());
        }
      }
      return Ok(Report(applied, skipped, remaining));
    }
  }

  lemma {:induction false} HaltedStays(p: Progress, work: seq<Work>, c: Credit, i: nat)
    requires p.halted
    ensures WorkFrom(p, work, c, i) == p
    decreases |work| - i
  {
    if i < |work| { HaltedStays(p, work, c, i + 1); }
  }
}
