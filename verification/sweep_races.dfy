/** Sweeps at the same time as other movements of the vault and the goals, other sweeps among them: a sweep reads
    its goals, then the vault's balance, and goes by what it read in every later step. */
module SweepRaces {
  import opened Basics
  import opened Outcomes
  import opened TreasurySweep

  /** What a sweep is at: it has posted an amount to a goal and is about to write the goal's `current`. */
  datatype Place = Between | Posted(id: Id, amount: int)

  /** The enabled goals as the sweep read them, the balance it goes by, and the goals it has posted to. */
  datatype Sweeper = Sweeper(rows: map<Id, Goal>, balance: Option<int>, done: set<Id>, place: Place)

  /** The vault's balance, the goals, and what the ledger's entries of each goal add up to. */
  datatype State = State(vault: int, goals: map<Id, Goal>, entries: map<Id, int>, sweeps: map<nat, Sweeper>)

  datatype Action =
    | Start(sweep: nat)
    | ReadBalance(sweep: nat)
    | Pay(sweep: nat, id: Id, fate: Fate)
    | Write(sweep: nat)
    | Stop(sweep: nat)
    | MoveGoal(id: Id, amount: int)
    | MoveVault(amount: int)

  predicate Enabled(s: State, a: Action) {
    match a
    case Start(k) => k !in s.sweeps
    case ReadBalance(k) => k in s.sweeps && s.sweeps[k].balance.None?
    case Pay(k, id, _) =>
      && k in s.sweeps && s.sweeps[k].place.Between? && s.sweeps[k].balance.Some? && id in s.sweeps[k].rows
      && id !in s.sweeps[k].done && id in s.goals && id in s.entries
    case Write(k) => k in s.sweeps && s.sweeps[k].place.Posted? && s.sweeps[k].place.id in s.goals && s.sweeps[k].place.id in s.sweeps[k].rows
    case Stop(k) => k in s.sweeps
    case MoveGoal(id, _) => id in s.goals && id in s.entries
    case MoveVault(_) => true
  }

  function Raised(s: State, id: Id, amount: int): State
    requires id in s.goals && id in s.entries
  {
    s.(goals := s.goals[id := s.goals[id].(current := s.goals[id].current + amount)], entries := s.entries[id := s.entries[id] + amount])
  }

  /** What the sweep would move to the goal. */
  function AmountOf(s: State, k: nat, id: Id): int
    requires k in s.sweeps && s.sweeps[k].balance.Some? && id in s.sweeps[k].rows
  {
    SweepAmount(s.sweeps[k].balance.value, s.sweeps[k].rows[id])
  }

  /** The posting that the sweep asks for is made. */
  predicate Moves(s: State, a: Action)
    requires Enabled(s, a)
  {
    a.Pay? && AmountOf(s, a.sweep, a.id) > 0 && !a.fate.Refuses? && s.vault >= AmountOf(s, a.sweep, a.id)
  }

  function AfterPay(s: State, k: nat, id: Id, fate: Fate): State
    requires Enabled(s, Pay(k, id, fate))
  {
    var q, amount := s.sweeps[k], AmountOf(s, k, id);
    if amount == 0 then s.(sweeps := s.sweeps[k := q.(done := q.done + {id})])
    else if !Moves(s, Pay(k, id, fate)) then s.(sweeps := s.sweeps - {k})
    else
      var t := Raised(s, id, amount).(vault := s.vault - amount);
      if fate.Loses? then t.(sweeps := s.sweeps - {k})
      else t.(sweeps := s.sweeps[k := q.(balance := Some(q.balance.value - amount), done := q.done + {id}, place := Posted(id, amount))])
  }

  /** `current` becomes what was read and the amount. */
  function AfterWrite(s: State, k: nat): State
    requires Enabled(s, Write(k))
  {
    var q := s.sweeps[k];
    var id := q.place.id;
    s.(goals := s.goals[id := s.goals[id].(current := q.rows[id].current + q.place.amount)], sweeps := s.sweeps[k := q.(place := Between)])
  }

  function Step(s: State, a: Action): State
    requires Enabled(s, a)
  {
    match a
    case Start(k) =>
      s.(sweeps := s.sweeps[k := Sweeper(map id | id in s.goals && TreasurySweep.Enabled(s.goals[id]) :: s.goals[id], None, {}, Between)])
    case ReadBalance(k) => s.(sweeps := s.sweeps[k := s.sweeps[k].(balance := Some(s.vault))])
    case Pay(k, id, fate) => AfterPay(s, k, id, fate)
    case Write(k) => AfterWrite(s, k)
    case Stop(k) => s.(sweeps := s.sweeps - {k})
    case MoveGoal(id, amount) => Raised(s, id, amount)
    case MoveVault(amount) => s.(vault := s.vault + amount)
  }

  predicate Legal(s: State, actions: seq<Action>)
    decreases |actions|
  {
    actions != [] ==> Enabled(s, actions[0]) && Legal(Step(s, actions[0]), actions[1..])
  }

  /** The step comes from this sweep. */
  predicate By(a: Action, k: nat) { !a.MoveGoal? && !a.MoveVault? && a.sweep == k }

  /** The sweep has read the goal and is not finished with it. */
  predicate Awaits(q: Sweeper, id: Id) { id in q.rows && (id !in q.done || (q.place.Posted? && q.place.id == id)) }

  /** What may go wrong: a goal's money, or the vault's, is moved by others while a sweep goes by what it read of it. */
  datatype Lapse = GoalBeside | VaultBeside

  predicate Happens(s: State, a: Action, lapse: Lapse)
    requires Enabled(s, a)
  {
    match lapse
    case GoalBeside =>
      && (a.MoveGoal? || Moves(s, a))
      && exists q | q in s.sweeps :: !By(a, q) && Awaits(s.sweeps[q], a.id)
    case VaultBeside =>
      && (a.MoveVault? || Moves(s, a))
      && exists q | q in s.sweeps :: !By(a, q) && s.sweeps[q].balance.Some?
  }

  /** What a step may do that it should not: leave a goal's `current` off its entries, move more to a goal than its
      target asks for, or leave less in the vault than the goal's threshold. */
  datatype Harm = ColumnOff | Overfill | Undercut

  predicate Agrees(s: State) { s.goals.Keys == s.entries.Keys && forall id | id in s.goals :: s.goals[id].current == s.entries[id] }

  predicate Harms(s: State, a: Action, harm: Harm)
    requires Enabled(s, a)
  {
    match harm
    case ColumnOff => !Agrees(Step(s, a))
    case Overfill => Moves(s, a) && s.entries[a.id] + AmountOf(s, a.sweep, a.id) > s.goals[a.id].target
    case Undercut => Moves(s, a) && s.vault - AmountOf(s, a.sweep, a.id) < s.goals[a.id].threshold
  }

  predicate Within(s: State, actions: seq<Action>, allowed: set<Lapse>)
    requires Legal(s, actions)
    decreases |actions|
  {
    actions != [] ==>
      && (forall lapse: Lapse | Happens(s, actions[0], lapse) :: lapse in allowed)
      && Within(Step(s, actions[0]), actions[1..], allowed)
  }

  predicate Harmless(s: State, actions: seq<Action>, harm: Harm)
    requires Legal(s, actions)
    decreases |actions|
  {
    actions != [] ==> !Harms(s, actions[0], harm) && Harmless(Step(s, actions[0]), actions[1..], harm)
  }

  // --------------------------------------------------------------------------------------------- invariants

  /** What a sweep read of its goals differs from the goals at most in `current`. */
  ghost predicate Configured(s: State) {
    forall k, id | k in s.sweeps && id in s.sweeps[k].rows :: id in s.goals && s.goals[id] == s.sweeps[k].rows[id].(current := s.goals[id].current)
  }

  /** And not there either, but for what the sweep has posted itself. */
  predicate Fits(s: State, q: Sweeper, id: Id)
    requires id in q.rows && id in s.goals
  {
    && (id !in q.done ==> s.goals[id].current == q.rows[id].current)
    && (q.place.Posted? && q.place.id == id ==> id in q.done && s.goals[id].current == q.rows[id].current + q.place.amount)
  }

  ghost predicate GoalsFit(s: State) {
    && Configured(s) && Agrees(s)
    && forall k, id | k in s.sweeps && id in s.sweeps[k].rows :: id in s.goals && Fits(s, s.sweeps[k], id)
  }

  ghost predicate VaultFits(s: State) {
    Configured(s) && forall k | k in s.sweeps && s.sweeps[k].balance.Some? :: s.sweeps[k].balance.value == s.vault
  }

  lemma PayKeepsConfigured(s: State, k: nat, id: Id, fate: Fate)
    requires Configured(s) && Enabled(s, Pay(k, id, fate))
    ensures Configured(AfterPay(s, k, id, fate))
  {
    hide AmountOf;
    var t := AfterPay(s, k, id, fate);
    assert forall q | q in t.sweeps :: q in s.sweeps && t.sweeps[q].rows == s.sweeps[q].rows;
    assert forall x | x in s.goals :: x in t.goals && t.goals[x] == s.goals[x].(current := t.goals[x].current);
  }

  lemma StepKeepsConfigured(s: State, a: Action)
    requires Configured(s) && Enabled(s, a)
    ensures Configured(Step(s, a))
  {
    hide TreasurySweep.Enabled, AfterPay;
    if a.Pay? { PayKeepsConfigured(s, a.sweep, a.id, a.fate); }
  }

  lemma PayKeepsAgreement(s: State, k: nat, id: Id, fate: Fate)
    requires Agrees(s) && Enabled(s, Pay(k, id, fate))
    ensures Agrees(AfterPay(s, k, id, fate))
  {
    hide AmountOf;
  }

  /** The goal paid is as before for every sweep that goes on and is not finished with it, but the payer. */
  lemma PayKeepsFits(s: State, k: nat, id: Id, fate: Fate, q: nat, x: Id)
    requires GoalsFit(s) && Enabled(s, Pay(k, id, fate)) && !Happens(s, Pay(k, id, fate), GoalBeside)
    requires q in AfterPay(s, k, id, fate).sweeps && x in AfterPay(s, k, id, fate).sweeps[q].rows
    ensures var t := AfterPay(s, k, id, fate); x in t.goals && Fits(t, t.sweeps[q], x)
  {
    hide AmountOf, Configured, Agrees;
    assert q in s.sweeps && x in s.goals && Fits(s, s.sweeps[q], x);
    if q != k && x == id && Moves(s, Pay(k, id, fate)) { assert !By(Pay(k, id, fate), q) && !Awaits(s.sweeps[q], id); }
  }

  lemma PayKeepsGoals(s: State, k: nat, id: Id, fate: Fate)
    requires GoalsFit(s) && Enabled(s, Pay(k, id, fate)) && !Happens(s, Pay(k, id, fate), GoalBeside)
    ensures GoalsFit(AfterPay(s, k, id, fate))
  {
    PayKeepsConfigured(s, k, id, fate);
    PayKeepsAgreement(s, k, id, fate);
    var t := AfterPay(s, k, id, fate);
    forall q, x | q in t.sweeps && x in t.sweeps[q].rows ensures x in t.goals && Fits(t, t.sweeps[q], x) {
      PayKeepsFits(s, k, id, fate, q, x);
    }
    hide AfterPay, Configured, Agrees, Fits;
  }

  /** A sweep that fits writes what is there already. */
  lemma WriteKeepsGoals(s: State, k: nat)
    requires GoalsFit(s) && Enabled(s, Write(k))
    ensures GoalsFit(AfterWrite(s, k))
  {
    var q, t := s.sweeps[k], AfterWrite(s, k);
    assert Fits(s, q, q.place.id);
    assert t.goals == s.goals;
    StepKeepsConfigured(s, Write(k));
    hide Configured;
    forall p, x | p in t.sweeps && x in t.sweeps[p].rows ensures x in t.goals && Fits(t, t.sweeps[p], x) {
      assert x in s.goals && Fits(s, s.sweeps[p], x);
    }
  }

  lemma MoveKeepsGoals(s: State, id: Id, amount: int)
    requires GoalsFit(s) && Enabled(s, MoveGoal(id, amount)) && !Happens(s, MoveGoal(id, amount), GoalBeside)
    ensures GoalsFit(Raised(s, id, amount))
  {
    var t := Raised(s, id, amount);
    StepKeepsConfigured(s, MoveGoal(id, amount));
    assert Agrees(t) && t == Step(s, MoveGoal(id, amount)) && Configured(t);
    hide Configured, Agrees, Step;
    forall q, x | q in t.sweeps && x in t.sweeps[q].rows ensures x in t.goals && Fits(t, t.sweeps[q], x) {
      assert x in s.goals && Fits(s, s.sweeps[q], x);
      assert !By(MoveGoal(id, amount), q);
      assert !Awaits(s.sweeps[q], id);
    }
  }

  lemma QuietKeepsFits(s: State, a: Action, q: nat, x: Id)
    requires GoalsFit(s) && Enabled(s, a) && !a.Pay? && !a.Write? && !a.MoveGoal?
    requires q in Step(s, a).sweeps && x in Step(s, a).sweeps[q].rows
    ensures x in Step(s, a).goals && Fits(Step(s, a), Step(s, a).sweeps[q], x)
  {
    hide Configured, Agrees, TreasurySweep.Enabled;
    if q in s.sweeps { assert x in s.goals && Fits(s, s.sweeps[q], x); }
  }

  lemma AllFit(t: State)
    requires Configured(t) && Agrees(t)
    requires forall q, x | q in t.sweeps && x in t.sweeps[q].rows :: x in t.goals && Fits(t, t.sweeps[q], x)
    ensures GoalsFit(t)
  {
    hide Configured, Agrees, Fits;
  }

  /** A step that touches no goal. */
  lemma QuietKeepsGoals(s: State, a: Action)
    requires GoalsFit(s) && Enabled(s, a) && !a.Pay? && !a.Write? && !a.MoveGoal?
    ensures GoalsFit(Step(s, a))
  {
    var t := Step(s, a);
    StepKeepsConfigured(s, a);
    SameAgreement(s, t);
    forall q, x | q in t.sweeps && x in t.sweeps[q].rows ensures x in t.goals && Fits(t, t.sweeps[q], x) {
      QuietKeepsFits(s, a, q, x);
    }
    AllFit(t);
  }

  lemma SameAgreement(s: State, t: State)
    requires t.goals == s.goals && t.entries == s.entries
    ensures Agrees(s) ==> Agrees(t)
  {
  }

  lemma StepKeepsGoals(s: State, a: Action)
    requires GoalsFit(s) && Enabled(s, a) && !Happens(s, a, GoalBeside)
    ensures GoalsFit(Step(s, a))
  {
    hide GoalsFit, Happens, AfterPay, AfterWrite, Raised;
    match a
    case Pay(k, id, fate) => PayKeepsGoals(s, k, id, fate);
    case Write(k) => WriteKeepsGoals(s, k);
    case MoveGoal(id, amount) => MoveKeepsGoals(s, id, amount);
    case _ => QuietKeepsGoals(s, a);
  }

  lemma StepKeepsVault(s: State, a: Action)
    requires VaultFits(s) && Enabled(s, a) && !Happens(s, a, VaultBeside)
    ensures VaultFits(Step(s, a))
  {
    StepKeepsConfigured(s, a);
    hide SweepAmount, TreasurySweep.Enabled, Configured;
  }

  /** A sweep that goes by what is still so does no harm. */
  lemma FittingPay(s: State, a: Action)
    requires Enabled(s, a) && Moves(s, a)
    ensures GoalsFit(s) ==> !Harms(s, a, Overfill)
    ensures VaultFits(s) ==> !Harms(s, a, Undercut)
  {
    if GoalsFit(s) { assert Fits(s, s.sweeps[a.sweep], a.id); }
  }

  lemma {:induction false} GoalsUnharmed(s: State, actions: seq<Action>, harm: Harm)
    requires GoalsFit(s) && Legal(s, actions) && Within(s, actions, {VaultBeside}) && harm != Undercut
    ensures Harmless(s, actions, harm)
    decreases |actions|
  {
    hide Step, Enabled, Happens, GoalsFit;
    if actions != [] {
      StepKeepsGoals(s, actions[0]);
      assert Agrees(Step(s, actions[0])) by { FitAgrees(Step(s, actions[0])); }
      if Moves(s, actions[0]) { FittingPay(s, actions[0]); }
      GoalsUnharmed(Step(s, actions[0]), actions[1..], harm);
    }
  }

  lemma FitAgrees(s: State)
    requires GoalsFit(s)
    ensures Agrees(s)
  {
    hide Agrees;
  }

  lemma {:induction false} VaultUnharmed(s: State, actions: seq<Action>)
    requires VaultFits(s) && Legal(s, actions) && Within(s, actions, {GoalBeside})
    ensures Harmless(s, actions, Undercut)
    decreases |actions|
  {
    hide Step, Enabled, Happens, VaultFits;
    if actions != [] {
      StepKeepsVault(s, actions[0]);
      if Moves(s, actions[0]) { FittingPay(s, actions[0]); }
      VaultUnharmed(Step(s, actions[0]), actions[1..]);
    }
  }

  lemma {:induction false} MoreAllowed(s: State, actions: seq<Action>, few: set<Lapse>, many: set<Lapse>)
    requires Legal(s, actions) && Within(s, actions, few) && few <= many
    ensures Within(s, actions, many)
    decreases |actions|
  {
    hide Step, Enabled, Happens;
    if actions != [] { MoreAllowed(Step(s, actions[0]), actions[1..], few, many); }
  }

  // ------------------------------------------------------------------------------------------ exactly when

  /** In every run with no other lapses, of any number of sweeps, no step does this harm. */
  ghost predicate Never(harm: Harm, allowed: set<Lapse>) {
    forall s: State, actions | s.sweeps == map[] && Agrees(s) && Legal(s, actions) && Within(s, actions, allowed) :: Harmless(s, actions, harm)
  }

  /** What the harm takes. */
  function Cause(harm: Harm): Lapse { if harm.Undercut? then VaultBeside else GoalBeside }

  /** A vault with this balance and a goal with this target, and a sweep. */
  function Beginning(vault: int, target: int): State {
    State(vault, map["goal" := Goal(true, true, 5, 0, target)], map["goal" := 0], map[])
  }

  lemma FirstStep(s: State, a: Action, rest: seq<Action>, allowed: set<Lapse>)
    requires Enabled(s, a) && (forall lapse: Lapse | Happens(s, a, lapse) :: lapse in allowed)
    requires Legal(Step(s, a), rest) && Within(Step(s, a), rest, allowed)
    ensures Legal(s, [a] + rest) && Within(s, [a] + rest, allowed)
    ensures forall harm: Harm | Harms(s, a, harm) || !Harmless(Step(s, a), rest, harm) :: !Harmless(s, [a] + rest, harm)
  {
    hide Step, Enabled, Happens, Harms;
    assert ([a] + rest)[1..] == rest;
  }

  /** A sweep that reads a goal and the vault before something else happens, and then goes on. */
  lemma Disturbed(s: State, t: State, a: Action, rest: seq<Action>, allowed: set<Lapse>) returns (actions: seq<Action>)
    requires 0 !in s.sweeps && Enabled(Step(s, Start(0)), ReadBalance(0)) && t == Step(Step(s, Start(0)), ReadBalance(0))
    requires Enabled(t, a) && Legal(Step(t, a), rest) && Within(Step(t, a), rest, allowed)
    requires forall lapse: Lapse | Happens(t, a, lapse) :: lapse in allowed
    ensures Legal(s, actions) && Within(s, actions, allowed)
    ensures forall harm: Harm | !Harmless(Step(t, a), rest, harm) :: !Harmless(s, actions, harm)
  {
    FirstStep(t, a, rest, allowed);
    FirstStep(Step(s, Start(0)), ReadBalance(0), [a] + rest, allowed);
    FirstStep(s, Start(0), [ReadBalance(0)] + ([a] + rest), allowed);
    actions := [Start(0)] + ([ReadBalance(0)] + ([a] + rest));
  }

  lemma NoSteps(s: State, allowed: set<Lapse>)
    ensures Legal(s, []) && Within(s, [], allowed)
  {
  }

  /** The goal as the sweep read it, and the sweep. */
  function Reader(vault: int, target: int): Sweeper {
    Sweeper(map["goal" := Goal(true, true, 5, 0, target)], Some(vault), {}, Between)
  }

  lemma ReadsBoth(vault: int, target: int) returns (t: State)
    ensures var s := Beginning(vault, target);
            Enabled(Step(s, Start(0)), ReadBalance(0)) && t == Step(Step(s, Start(0)), ReadBalance(0))
    ensures t == Beginning(vault, target).(sweeps := map[0 := Reader(vault, target)])
  {
    var s := Beginning(vault, target);
    t := Step(Step(s, Start(0)), ReadBalance(0));
    assert t.sweeps[0].rows == Reader(vault, target).rows;
  }

  /** A credit of the goal that arrives meanwhile is overwritten, and takes the goal past its target. */
  lemma CreditBeside() returns (actions: seq<Action>)
    ensures var s := Beginning(100, 5);
            Legal(s, actions) && Within(s, actions, {GoalBeside}) && !Harmless(s, actions, ColumnOff) && !Harmless(s, actions, Overfill)
  {
    var t := ReadsBoth(100, 5);
    var u := Step(t, MoveGoal("goal", 3));
    var v := Step(u, Pay(0, "goal", Works));
    NoSteps(Step(v, Write(0)), {GoalBeside});
    FirstStep(v, Write(0), [], {GoalBeside});
    FirstStep(u, Pay(0, "goal", Works), [Write(0)] + [], {GoalBeside});
    assert Harms(u, Pay(0, "goal", Works), Overfill) && Harms(v, Write(0), ColumnOff);
    hide Harms, Harmless, Legal, Within;
    actions := Disturbed(Beginning(100, 5), t, MoveGoal("goal", 3), [Pay(0, "goal", Works)] + ([Write(0)] + []), {GoalBeside});
  }

  /** A debit of the vault that arrives meanwhile takes it below the threshold. */
  lemma DebitBeside() returns (actions: seq<Action>)
    ensures var s := Beginning(9, 100);
            Legal(s, actions) && Within(s, actions, {VaultBeside}) && !Harmless(s, actions, Undercut)
  {
    var t := ReadsBoth(9, 100);
    var u := Step(t, MoveVault(-3));
    var v := Step(u, Pay(0, "goal", Works));
    NoSteps(v, {VaultBeside});
    FirstStep(u, Pay(0, "goal", Works), [], {VaultBeside});
    assert Harms(u, Pay(0, "goal", Works), Undercut);
    hide Harms, Harmless, Legal, Within;
    actions := Disturbed(Beginning(9, 100), t, MoveVault(-3), [Pay(0, "goal", Works)] + [], {VaultBeside});
  }

  /** `current` stays what the entries say, and no sweep fills a goal past its target, exactly when no goal's money
      is moved by others while a sweep goes by what it read of the goal; no sweep takes the vault below a threshold
      exactly when the vault's is not while a sweep goes by its balance. */
  lemma NeverExactly(harm: Harm, allowed: set<Lapse>)
    ensures Never(harm, allowed) <==> Cause(harm) !in allowed
  {
    hide Legal, Within, Harmless;
    if Cause(harm) in allowed {
      if harm.Undercut? {
        var actions := DebitBeside();
        MoreAllowed(Beginning(9, 100), actions, {VaultBeside}, allowed);
      } else {
        var actions := CreditBeside();
        MoreAllowed(Beginning(100, 5), actions, {GoalBeside}, allowed);
      }
    } else {
      forall s: State, actions | s.sweeps == map[] && Agrees(s) && Legal(s, actions) && Within(s, actions, allowed)
        ensures Harmless(s, actions, harm)
      {
        assert forall lapse: Lapse | lapse in allowed :: lapse == GoalBeside || lapse == VaultBeside;
        if harm.Undercut? {
          MoreAllowed(s, actions, allowed, {GoalBeside});
          VaultUnharmed(s, actions);
        } else {
          MoreAllowed(s, actions, allowed, {VaultBeside});
          GoalsUnharmed(s, actions, harm);
        }
      }
    }
  }

  // ------------------------------------------------------------------------------------ a sweep by itself

  function Run(s: State, actions: seq<Action>): State
    requires Legal(s, actions)
    decreases |actions|
  {
    if actions == [] then s else Run(Step(s, actions[0]), actions[1..])
  }

  lemma First(s: State, a: Action, rest: seq<Action>)
    requires Enabled(s, a) && Legal(Step(s, a), rest)
    ensures Legal(s, [a] + rest) && Run(s, [a] + rest) == Run(Step(s, a), rest)
  {
    assert ([a] + rest)[1..] == rest;
  }

  lemma NoStep(s: State)
    ensures Legal(s, []) && Run(s, []) == s
  {
  }

  lemma {:induction false} RunsOn(s: State, first: seq<Action>, rest: seq<Action>)
    requires Legal(s, first) && Legal(Run(s, first), rest)
    ensures Legal(s, first + rest) && Run(s, first + rest) == Run(Run(s, first), rest)
    decreases |first|
  {
    hide Step, Enabled;
    if first == [] {
      assert first + rest == rest;
    } else {
      RunsOn(Step(s, first[0]), first[1..], rest);
      assert (first + rest)[1..] == first[1..] + rest;
    }
  }

  /** The one sweep at work, between two turns, with the goal as it is. */
  predicate IsAt(s: State, k: nat, q: Sweeper, id: Id) {
    && s.sweeps == map[k := q] && q.balance == Some(s.vault) && q.place == Between
    && id in q.rows && id !in q.done && id in s.goals && id in s.entries && q.rows[id] == s.goals[id]
  }

  /** Undisturbed, what a sweep does about a goal is the turn of its loop. */
  lemma TurnIsSteps(s: State, k: nat, q: Sweeper, id: Id, fate: Fate, moved: bool) returns (actions: seq<Action>)
    requires IsAt(s, k, q, id)
    ensures Legal(s, actions)
    ensures var p, t := TreasurySweep.Step(Progress(Books(s.vault, s.vault, s.goals), moved, false), id, fate), Run(s, actions);
            && t.vault == p.books.vault == p.books.ledger && t.goals == p.books.goals && t.entries.Keys == s.entries.Keys
            && t.sweeps == if p.failed then map[] else map[k := q.(balance := Some(t.vault), done := q.done + {id})]
  {
    NoNegativeSweep(s.vault, s.goals[id]);
    hide SweepAmount, Legal, Run;
    var t := Step(s, Pay(k, id, fate));
    if k in t.sweeps && t.sweeps[k].place.Posted? {
      var u := Step(t, Write(k));
      NoStep(u);
      First(t, Write(k), []);
      First(s, Pay(k, id, fate), [Write(k)] + []);
      actions := [Pay(k, id, fate)] + ([Write(k)] + []);
      assert u.goals == TreasurySweep.Posted(Books(s.vault, s.vault, s.goals), id, AmountOf(s, k, id)).goals;
    } else {
      NoStep(t);
      First(s, Pay(k, id, fate), []);
      actions := [Pay(k, id, fate)] + [];
      assert map[k := q] - {k} == map[];
    }
  }

  lemma NoNegativeSweep(balance: int, g: Goal)
    ensures SweepAmount(balance, g) >= 0
  {
  }

  /** The sweep before its i-th turn. */
  ghost predicate IsBefore(s: State, k: nat, q: Sweeper, ids: seq<Id>, i: nat) {
    && s.sweeps == map[k := q] && q.balance == Some(s.vault) && q.place == Between && NoRepeats(ids)
    && forall j | i <= j < |ids| ::
         ids[j] in q.rows && ids[j] !in q.done && ids[j] in s.goals && ids[j] in s.entries && q.rows[ids[j]] == s.goals[ids[j]]
  }

  lemma TurnGoesOn(s: State, t: State, k: nat, q: Sweeper, ids: seq<Id>, i: nat, fate: Fate, moved: bool)
    requires i < |ids| && IsBefore(s, k, q, ids, i)
    requires var p := TreasurySweep.Step(Progress(Books(s.vault, s.vault, s.goals), moved, false), ids[i], fate);
             && !p.failed && t.vault == p.books.vault && t.goals == p.books.goals && t.entries.Keys == s.entries.Keys
             && t.sweeps == map[k := q.(balance := Some(t.vault), done := q.done + {ids[i]})]
    ensures IsBefore(t, k, q.(balance := Some(t.vault), done := q.done + {ids[i]}), ids, i + 1)
  {
    hide SweepAmount;
    assert forall j | i < j < |ids| :: ids[j] != ids[i];
  }

  lemma {:induction false} TurnsAreSteps(s: State, k: nat, q: Sweeper, ids: seq<Id>, fates: seq<Fate>, i: nat, moved: bool)
    returns (actions: seq<Action>)
    requires IsBefore(s, k, q, ids, i)
    ensures Legal(s, actions)
    ensures var p, t := SweepFrom(Progress(Books(s.vault, s.vault, s.goals), moved, false), ids, fates, i), Run(s, actions);
            && t.vault == p.books.vault && t.goals == p.books.goals && t.sweeps.Keys == if p.failed then {} else {k}
    decreases |ids| - i
  {
    hide TreasurySweep.Step, Legal, Run, Step;
    if i >= |ids| {
      NoStep(s);
      return [];
    }
    var start := Progress(Books(s.vault, s.vault, s.goals), moved, false);
    var p := TreasurySweep.Step(start, ids[i], FateAt(fates, i));
    actions := TurnIsSteps(s, k, q, ids[i], FateAt(fates, i), moved);
    SweepOnce(start, ids, fates, i);
    if p.failed {
      FailedStays(p, ids, fates, i + 1);
    } else {
      var t := Run(s, actions);
      TurnGoesOn(s, t, k, q, ids, i, FateAt(fates, i), moved);
      var rest := TurnsAreSteps(t, k, q.(balance := Some(t.vault), done := q.done + {ids[i]}), ids, fates, i + 1, p.moved);
      assert p == Progress(Books(t.vault, t.vault, t.goals), p.moved, false);
      RunsOn(s, actions, rest);
      actions := actions + rest;
    }
  }

  /** A sweep by itself, from its reading of the goals to its end, is a run of these steps, and leaves the same vault
      and goals. */
  lemma SweepIsSteps(s: State, k: nat, order: seq<Id>, only: Option<Id>, fates: seq<Fate>) returns (actions: seq<Action>)
    requires s.sweeps == map[] && NoRepeats(order) && s.goals.Keys == s.entries.Keys
    ensures Legal(s, actions)
    ensures var p, t := Sweep(Books(s.vault, s.vault, s.goals), order, only, fates), Run(s, actions);
            t.vault == p.books.vault && t.goals == p.books.goals && t.sweeps == map[]
  {
    hide Legal, Run, SweepFrom, SweepGoals;
    var ids := SweepGoals(s.goals, order, only);
    SweepGoalsDistinct(s.goals, order, only);
    var begun := Step(s, Start(k));
    var t := Step(begun, ReadBalance(k));
    var q := t.sweeps[k];
    assert t.sweeps == map[k := q];
    var turns := TurnsAreSteps(t, k, q, ids, fates, 0, false);
    First(begun, ReadBalance(k), turns);
    First(s, Start(k), [ReadBalance(k)] + turns);
    actions := [Start(k)] + ([ReadBalance(k)] + turns);
    var end := Run(s, actions);
    if k in end.sweeps {
      NoStep(Step(end, Stop(k)));
      First(end, Stop(k), []);
      RunsOn(s, actions, [Stop(k)] + []);
      actions := actions + ([Stop(k)] + []);
      assert end.sweeps.Keys - {k} == {};
    }
    assert Run(s, actions).sweeps.Keys == {};
  }

  ghost predicate OnlyEnabled(s: State) {
    forall k | k in s.sweeps :: forall id | id in s.sweeps[k].rows ::
      s.sweeps[k].rows[id].active && s.sweeps[k].rows[id].autoSweep && s.sweeps[k].rows[id].threshold > 0
  }

  lemma {:induction false} RunKeepsEnabled(s: State, actions: seq<Action>)
    requires OnlyEnabled(s) && Legal(s, actions)
    ensures OnlyEnabled(Run(s, actions))
    decreases |actions|
  {
    if actions != [] {
      StepKeepsEnabled(s, actions[0]);
      hide OnlyEnabled, Enabled, Step;
      RunKeepsEnabled(Step(s, actions[0]), actions[1..]);
    }
  }

  lemma StepKeepsEnabled(s: State, a: Action)
    requires OnlyEnabled(s) && Enabled(s, a)
    ensures OnlyEnabled(Step(s, a))
  {
    hide SweepAmount;
  }

  /** In every interleaving a sweep posts to goals only that were active, swept automatically and had a positive
      threshold when it read them. */
  lemma SweepsEnabledGoals(s: State, actions: seq<Action>, k: nat, id: Id, fate: Fate)
    requires s.sweeps == map[] && Legal(s, actions) && Enabled(Run(s, actions), Pay(k, id, fate))
    ensures var g := Run(s, actions).sweeps[k].rows[id]; g.active && g.autoSweep && g.threshold > 0
  {
    hide Legal, Run;
    RunKeepsEnabled(s, actions);
  }
}
