/** What one run of automatic allocation reports, in which order it takes goals and rules, and that its tables
    change by exactly what was posted. */
module AllocationOrder {
  import opened AllocationLaws
  import opened AutoAllocation
  import opened Outcomes

  // ------------------------------------------------------------------------------------------- reasons

  /** A goal gets nothing for exactly the first reason that applies. */
  lemma GoalReasonExactly(g: Goal, gross: int, remaining: int, month: int, reason: Reason)
    ensures DecideGoal(g, gross, remaining, month) == Leave(reason)
       <==> match reason
            case GoalAlreadyFunded => g.current >= g.target
            case SourceFundsConsumed => g.current < g.target && remaining <= 0
            case PercentageNotConfigured =>
              g.current < g.target && remaining > 0 && g.strategy == Percentage && g.percentage <= 0
            case MonthlyTargetNotConfigured =>
              g.current < g.target && remaining > 0 && g.strategy == FixedMonthly && g.monthlyTarget <= 0
            case ManualStrategy => g.current < g.target && remaining > 0 && g.strategy == Manual
            case NoAllocatableAmount =>
              && g.current < g.target && remaining > 0
              && (|| (g.strategy == Percentage && g.percentage > 0 && 2 * gross * g.percentage < 10000)
                  || (g.strategy == FixedMonthly && g.monthlyTarget > 0 && month >= g.monthlyTarget))
            case _ => false
  {
    var total, share := 2 * gross * g.percentage, Share(gross, g.percentage);
    assert 20000 * share - 10000 <= total < 20000 * share + 10000;
    hide Share;
  }

  /** A budget gets nothing for exactly the first reason that applies. */
  lemma BudgetReasonExactly(rule: Rule, b: Budget, gross: int, remaining: int, reason: Reason)
    ensures var open := b.active && b.enabled; var room := b.funded < b.limit;
            var low := b.threshold <= 0 || b.funded - b.spent < b.threshold;
            (DecideBudget(rule, b, gross, remaining) == Leave(reason)) == match reason
            case BudgetAutoAllocationDisabled => !open
            case BudgetAlreadyFunded => open && !room
            case BudgetAboveThreshold => open && room && !low
            case NoAllocatableAmount => open && room && low && !BudgetAllows(rule, b, gross, remaining, 1)
            case _ => false
  {
    var percentage := if rule.percentage != 0 then rule.percentage else b.autoAmount;
    var total, share := 2 * gross * percentage, Share(gross, percentage);
    assert 20000 * share - 10000 <= total < 20000 * share + 10000;
    hide Share;
  }

  /** A turn that comes to no decision reports why and leaves everything else as it was. */
  lemma UndecidedTurns(p: Progress, g: Goal, rule: Rule, c: Credit, goalFate: GoalFate, ruleFate: RuleFate)
    requires !p.halted
    ensures Reserved(p.books.events, g.id, c.tx) ==>
              GoalStep(p, g, c, goalFate) == p.(skipped := p.skipped + [Skip(Some(ToGoal(g.id)), AlreadyProcessed)])
    ensures rule.target.None? ==> RuleStep(p, rule, c, ruleFate) == p.(skipped := p.skipped + [Skip(None, BudgetTargetMissing)])
    ensures rule.target.Some? && p.remaining <= 0 ==>
              RuleStep(p, rule, c, ruleFate) == p.(skipped := p.skipped + [Skip(Some(ToBudget(rule.target.value)), SourceFundsConsumed)])
    ensures rule.target.Some? && p.remaining > 0 && ruleFate.read && rule.target.value !in p.books.budgets ==>
              RuleStep(p, rule, c, ruleFate)
              == p.(skipped := p.skipped + [Skip(Some(ToBudget(rule.target.value)), BudgetAutoAllocationDisabled)])
  {
    hide DecideGoal, DecideBudget, Reserved, MonthTotal;
  }

  /** The budget procedure succeeds exactly when the same amount was moved before under this reference, or none was and
      the limit leaves room; only the second moves money. */
  lemma BudgetProcedureExactly(b: Books, id: Id, c: Credit, amount: int)
    requires id in b.budgets
    ensures var before := PaidBefore(b.posts, ToBudget(id), c.tx); var room := b.budgets[id].funded + amount <= b.budgets[id].limit;
            && (PaidToBudget(b, id, c, amount).Some? <==> before == Some(amount) || (before.None? && room))
            && (PaidToBudget(b, id, c, amount).Some? ==> (PaidToBudget(b, id, c, amount).value.posts == b.posts <==> before.Some?))
  {
    hide PaidBefore;
  }

  // --------------------------------------------------------------------------------------------- order

  /** The goals that are enabled, in the order of the table. */
  function EnabledIds(goals: map<Id, Goal>, order: seq<Id>): seq<Id> {
    if order == [] then []
    else
      var last := order[|order| - 1];
      EnabledIds(goals, order[..|order| - 1]) + if last in goals && goals[last].enabled then [last] else []
  }

  /** What a run has to account for: the enabled goals and then the rules, in their orders. */
  function Targets(ids: seq<Id>, rules: seq<Rule>): seq<Option<Target>> {
    seq(|ids|, i requires 0 <= i < |ids| => Some(ToGoal(ids[i])))
    + seq(|rules|, i requires 0 <= i < |rules| =>
        if rules[i].target.Some? then Some(ToBudget(rules[i].target.value)) else None)
  }

  /** Every target has its entry in one of two lists, and each list is in the order of the targets. */
  ghost predicate Accounts(targets: seq<Option<Target>>, applied: seq<Applied>, skipped: seq<Skip>)
    decreases |targets|
  {
    if targets == [] then applied == [] && skipped == []
    else
      var n, a, s := |targets| - 1, |applied|, |skipped|;
      || (a > 0 && targets[n] == Some(applied[a - 1].target) && Accounts(targets[..n], applied[..a - 1], skipped))
      || (s > 0 && targets[n] == skipped[s - 1].target && Accounts(targets[..n], applied, skipped[..s - 1]))
  }

  function TargetOf(w: Work): Option<Target> {
    match w
    case OnGoal(row, _) => Some(ToGoal(row.id))
    case OnRule(rule, _) => if rule.target.Some? then Some(ToBudget(rule.target.value)) else None
  }

  lemma StepAddsOne(p: Progress, w: Work, c: Credit)
    requires !Step(p, w, c).halted
    ensures var q := Step(p, w, c);
            || (q.skipped == p.skipped && exists a :: q.applied == p.applied + [a] && Some(a.target) == TargetOf(w))
            || (q.applied == p.applied && exists k :: q.skipped == p.skipped + [k] && k.target == TargetOf(w))
  {
    hide DecideGoal, DecideBudget, MonthTotal, Reserved, PaidToBudget, Logged, PaidToGoal;
    var q := Step(p, w, c);
    if q.applied != p.applied {
      assert q.applied == p.applied + [q.applied[|p.applied|]];
    } else {
      assert q.skipped == p.skipped + [q.skipped[|p.skipped|]];
    }
  }

  lemma StepAccounts(p: Progress, w: Work, c: Credit, targets: seq<Option<Target>>)
    requires Accounts(targets, p.applied, p.skipped) && !Step(p, w, c).halted
    ensures Accounts(targets + [TargetOf(w)], Step(p, w, c).applied, Step(p, w, c).skipped)
  {
    StepAddsOne(p, w, c);
    hide Step;
    var q := Step(p, w, c);
    assert (targets + [TargetOf(w)])[..|targets|] == targets;
    if q.skipped == p.skipped && exists a :: q.applied == p.applied + [a] && Some(a.target) == TargetOf(w) {
      assert q.applied[..|p.applied|] == p.applied;
    } else {
      assert q.skipped[..|p.skipped|] == p.skipped;
    }
  }

  lemma {:induction false} WorkAccounts(p: Progress, work: seq<Work>, c: Credit, i: nat, targets: seq<Option<Target>>)
    requires Accounts(targets, p.applied, p.skipped) && !WorkFrom(p, work, c, i).halted && i <= |work|
    ensures var q := WorkFrom(p, work, c, i);
            Accounts(targets + seq(|work| - i, j requires 0 <= j < |work| - i => TargetOf(work[i + j])), q.applied, q.skipped)
    decreases |work| - i
  {
    hide Step, Accounts;
    var later := seq(|work| - i, j requires 0 <= j < |work| - i => TargetOf(work[i + j]));
    if i == |work| {
      assert targets + later == targets;
    } else {
      var q := Step(p, work[i], c);
      if q.halted { HaltedStays(q, work, c, i + 1); }
      StepAccounts(p, work[i], c, targets);
      WorkAccounts(q, work, c, i + 1, targets + [TargetOf(work[i])]);
      var rest := seq(|work| - i - 1, j requires 0 <= j < |work| - i - 1 => TargetOf(work[i + 1 + j]));
      assert targets + [TargetOf(work[i])] + rest == targets + later;
    }
  }

  lemma {:induction false} EnabledRowsSnoc(goals: map<Id, Goal>, order: seq<Id>, last: Id)
    ensures EnabledRows(goals, order + [last])
         == EnabledRows(goals, order) + if last in goals && goals[last].enabled then [goals[last].(id := last)] else []
  {
    if order == [] {
      assert [last][1..] == [] && EnabledRows(goals, []) == [];
    } else {
      EnabledRowsSnoc(goals, order[1..], last);
      assert (order + [last])[1..] == order[1..] + [last];
    }
  }

  lemma {:induction false} RowsAreEnabled(goals: map<Id, Goal>, order: seq<Id>)
    ensures var rows, ids := EnabledRows(goals, order), EnabledIds(goals, order);
            |rows| == |ids| && forall i | 0 <= i < |ids| :: rows[i].id == ids[i]
  {
    if order != [] {
      var n := |order| - 1;
      RowsAreEnabled(goals, order[..n]);
      EnabledRowsSnoc(goals, order[..n], order[n]);
      assert order[..n] + [order[n]] == order;
    }
  }

  /** A run that reaches its end reports on every enabled goal, oldest first, and then on every rule, in the order in
      which they were read: each is among the applied or among the skipped, and both are in that order. */
  lemma RunAccounts(books: Books, order: seq<Id>, c: Credit, world: World)
    requires c.gross > 0 && !RunCredit(books, order, c, world).halted
    ensures world.rules.Some?
    ensures var p := RunCredit(books, order, c, world);
            Accounts(Targets(EnabledIds(books.goals, order), world.rules.value), p.applied, p.skipped)
  {
    hide WorkFrom, EnabledRows, EnabledIds, Accounts;
    var start := Progress(books, c.gross, [], [], false);
    var rows, ids, rules := EnabledRows(books.goals, order), EnabledIds(books.goals, order), world.rules.value;
    RowsAreEnabled(books.goals, order);
    var goalWork, ruleWork := GoalWork(rows, world.goalFates), RuleWork(rules, world.ruleFates);
    var p := WorkFrom(start, goalWork, c, 0);
    NothingAccounts();
    WorkAccounts(start, goalWork, c, 0, []);
    var first := [] + seq(|goalWork|, j requires 0 <= j < |goalWork| => TargetOf(goalWork[0 + j]));
    WorkAccounts(p, ruleWork, c, 0, first);
    var all := first + seq(|ruleWork|, j requires 0 <= j < |ruleWork| => TargetOf(ruleWork[0 + j]));
    assert all == Targets(ids, rules);
  }

  lemma NothingAccounts()
    ensures Accounts([], [], [])
  {
  }

  // --------------------------------------------------------------------------------- tables and postings

  function MovedTo(posts: seq<Posting>, target: Target): int {
    if posts == [] then 0
    else
      var p := posts[|posts| - 1];
      MovedTo(posts[..|posts| - 1], target) + if p.target == target then p.amount else 0
  }

  /** Since `before`, money was posted for this credit only, and goals and budgets hold just what was posted to them
      more. */
  ghost predicate Matches(before: Books, now: Books, c: Credit) {
    && before.posts <= now.posts
    && (forall i | |before.posts| <= i < |now.posts| ::
          now.posts[i].tx == c.tx && now.posts[i].month == c.month && now.posts[i].amount > 0)
    && var since := now.posts[|before.posts|..];
       && now.goals.Keys == before.goals.Keys && now.budgets.Keys == before.budgets.Keys
       && (forall id | id in before.goals ::
             now.goals[id] == before.goals[id].(current := before.goals[id].current + MovedTo(since, ToGoal(id))))
       && (forall id | id in before.budgets ::
             now.budgets[id] == before.budgets[id].(funded := before.budgets[id].funded + MovedTo(since, ToBudget(id))))
  }

  lemma MovedToOne(posts: seq<Posting>, p: Posting, target: Target)
    ensures MovedTo(posts + [p], target) == MovedTo(posts, target) + if p.target == target then p.amount else 0
  {
    assert (posts + [p])[..|posts|] == posts;
  }

  lemma MoneySince(before: Books, now: Books, p: Posting, after: Books, target: Target)
    requires before.posts <= now.posts && after.posts == now.posts + [p]
    ensures MovedTo(after.posts[|before.posts|..], target)
         == MovedTo(now.posts[|before.posts|..], target) + if p.target == target then p.amount else 0
  {
    var since := now.posts[|before.posts|..];
    assert after.posts[|before.posts|..] == since + [p];
    MovedToOne(since, p, target);
  }

  lemma PostingMatches(before: Books, now: Books, p: Posting, after: Books, c: Credit)
    requires Matches(before, now, c) && p.tx == c.tx && p.month == c.month && p.amount > 0
    requires after.posts == now.posts + [p]
    requires match p.target
             case ToGoal(id) =>
               && after.budgets == now.budgets
               && after.goals == if id in now.goals then now.goals[id := now.goals[id].(current := now.goals[id].current + p.amount)]
                                 else now.goals
             case ToBudget(id) =>
               && after.goals == now.goals && id in now.budgets
               && after.budgets == now.budgets[id := now.budgets[id].(funded := now.budgets[id].funded + p.amount)]
    ensures Matches(before, after, c)
  {
    hide MovedTo;
    var since, longer := now.posts[|before.posts|..], after.posts[|before.posts|..];
    forall id | id in before.goals
      ensures after.goals[id] == before.goals[id].(current := before.goals[id].current + MovedTo(longer, ToGoal(id)))
    {
      MoneySince(before, now, p, after, ToGoal(id));
    }
    forall id | id in before.budgets
      ensures after.budgets[id] == before.budgets[id].(funded := before.budgets[id].funded + MovedTo(longer, ToBudget(id)))
    {
      MoneySince(before, now, p, after, ToBudget(id));
    }
  }

  lemma GoalKeepsBudgets(p: Progress, g: Goal, c: Credit, fate: GoalFate)
    ensures GoalStep(p, g, c, fate).books.budgets == p.books.budgets
  {
    hide DecideGoal, MonthTotal, Reserved;
  }

  lemma GoalStepMatches(before: Books, p: Progress, g: Goal, c: Credit, fate: GoalFate)
    requires Matches(before, p.books, c)
    ensures Matches(before, GoalStep(p, g, c, fate).books, c)
  {
    hide GoalStep, GoalPayment, Reserved, Matches;
    var now, after, amount := p.books, GoalStep(p, g, c, fate).books, GoalPayment(p, g, c, fate);
    GoalKeepsBudgets(p, g, c, fate);
    GoalStepTables(p, g, c, fate);
    GoalStepEffect(p, g, c, fate);
    if amount.Some? && !fate.outcome.Refuses? {
      PostingMatches(before, now, Posting(ToGoal(g.id), c.tx, c.month, amount.value), after, c);
    } else {
      SameMatches(before, now, after, c);
    }
  }

  lemma RuleStepMatches(before: Books, p: Progress, rule: Rule, c: Credit, fate: RuleFate)
    requires Matches(before, p.books, c)
    ensures Matches(before, RuleStep(p, rule, c, fate).books, c)
  {
    hide DecideBudget, PaidBefore, Matches;
    var now, after := p.books, RuleStep(p, rule, c, fate).books;
    if after.posts == now.posts {
      SameMatches(before, now, after, c);
    } else {
      PostingMatches(before, now, after.posts[|now.posts|], after, c);
    }
  }

  lemma StepMatches(before: Books, p: Progress, w: Work, c: Credit)
    requires Matches(before, p.books, c)
    ensures Matches(before, Step(p, w, c).books, c)
  {
    hide GoalStep, RuleStep, Matches;
    match w
    case OnGoal(row, fate) => GoalStepMatches(before, p, row, c, fate);
    case OnRule(rule, fate) => RuleStepMatches(before, p, rule, c, fate);
  }

  lemma SameMatches(before: Books, now: Books, after: Books, c: Credit)
    requires Matches(before, now, c)
    requires after.posts == now.posts && after.goals == now.goals && after.budgets == now.budgets
    ensures Matches(before, after, c)
  {
  }

  lemma NothingMatches(books: Books, c: Credit)
    ensures Matches(books, books, c)
  {
  }

  /** Whatever fails in a run, every goal's balance and every budget's funds grow by exactly what the run posted to
      them, and nothing else in them changes. */
  lemma RunMatchesPostings(books: Books, order: seq<Id>, c: Credit, world: World)
    ensures Matches(books, RunCredit(books, order, c, world).books, c)
  {
    hide RunCredit, Step, Matches;
    NothingMatches(books, c);
    forall q: Progress, w | Matches(books, q.books, c) ensures Matches(books, Step(q, w, c).books, c) {
      StepMatches(books, q, w, c);
    }
    RunKeeps(books, order, c, world, (p: Progress) => Matches(books, p.books, c));
  }
}
