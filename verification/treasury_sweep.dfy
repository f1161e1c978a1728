/** The automatic sweep of an organisation's operating vault into its treasury goals. Amounts are in
    minor units. */
module TreasurySweep {
  import opened Basics
  import opened Outcomes

  type Id = string

  datatype Goal = Goal(active: bool, autoSweep: bool, threshold: int, current: int, target: int)

  /** The balance kept on the vault, which the posting procedure checks, the balance that the vault's
      ledger entries add up to, which the sweep reads, and the goals. */
  datatype Books = Books(vault: int, ledger: int, goals: map<Id, Goal>)

  predicate Enabled(g: Goal) { g.active && g.autoSweep && g.threshold > 0 }

  /** What the sweep moves to a goal while the operating balance is `balance`. */
  function SweepAmount(balance: int, g: Goal): int {
    if balance > g.threshold && g.target - g.current > 0 then Min(balance - g.threshold, g.target - g.current) else 0
  }

  /** The goals a sweep goes through, in the order the database returns them. */
  function SweepGoals(goals: map<Id, Goal>, order: seq<Id>, only: Option<Id>): seq<Id> {
    if order == [] then []
    else
      (if order[0] in goals && Enabled(goals[order[0]]) && (only.None? || only.value == order[0]) then [order[0]] else [])
      + SweepGoals(goals, order[1..], only)
  }

  datatype Progress = Progress(books: Books, moved: bool, failed: bool)

  function Posted(b: Books, id: Id, amount: int): Books
    requires id in b.goals
  {
    Books(b.vault - amount, b.ledger - amount, b.goals[id := b.goals[id].(current := b.goals[id].current + amount)])
  }

  /** One turn of the loop; besides what may happen to any call, the posting procedure refuses to overdraw the
      vault. */
  function Step(p: Progress, id: Id, fate: Fate): Progress {
    if p.failed || id !in p.books.goals then p
    else
      var amount := SweepAmount(p.books.ledger, p.books.goals[id]);
      if amount == 0 then p
      else if fate.Refuses? || p.books.vault < amount then p.(failed := true)
      else Progress(Posted(p.books, id, amount), fate.Works? || p.moved, fate.Loses?)
  }

  function FateAt(fates: seq<Fate>, i: nat): Fate { if i < |fates| then fates[i] else Works }

  function SweepFrom(p: Progress, ids: seq<Id>, fates: seq<Fate>, i: nat): Progress
    decreases |ids| - i
  {
    if i >= |ids| then p else SweepFrom(Step(p, ids[i], FateAt(fates, i)), ids, fates, i + 1)
  }

  function Sweep(b: Books, order: seq<Id>, only: Option<Id>, fates: seq<Fate>): Progress {
    SweepFrom(Progress(b, false, false), SweepGoals(b.goals, order, only), fates, 0)
  }

  lemma {:induction false} SweepGoalsDistinct(goals: map<Id, Goal>, order: seq<Id>, only: Option<Id>)
    requires NoRepeats(order)
    ensures NoRepeats(SweepGoals(goals, order, only))
    ensures forall id | id in SweepGoals(goals, order, only) ::
      && id in order && id in goals && (only.None? || only.value == id)
      && goals[id].active && goals[id].autoSweep && goals[id].threshold > 0
  {
    if order != [] { SweepGoalsDistinct(goals, order[1..], only); }
  }

  lemma {:induction false} SweepGoalsComplete(goals: map<Id, Goal>, order: seq<Id>, only: Option<Id>, id: Id)
    requires id in order && id in goals && (only.None? || only.value == id)
    requires goals[id].active && goals[id].autoSweep && goals[id].threshold > 0
    ensures id in SweepGoals(goals, order, only)
  {
    if id != order[0] { SweepGoalsComplete(goals, order[1..], only, id); }
  }

  /** The goals are taken in the order in which the database returns them. */
  lemma {:induction false} SweepGoalsInOrder(goals: map<Id, Goal>, order: seq<Id>, only: Option<Id>, i: nat, j: nat)
    requires NoRepeats(order) && i < j < |SweepGoals(goals, order, only)|
    ensures exists a, b :: 0 <= a < b < |order| && order[a] == SweepGoals(goals, order, only)[i]
                           && order[b] == SweepGoals(goals, order, only)[j]
  {
    var ids, rest := SweepGoals(goals, order, only), SweepGoals(goals, order[1..], only);
    SweepGoalsDistinct(goals, order[1..], only);
    var shift := |ids| - |rest|;
    assert ids == (if shift == 1 then [order[0]] else []) + rest;
    hide SweepGoals, Enabled, NoRepeats;
    if i >= shift {
      assert ids[i] == rest[i - shift] && ids[j] == rest[j - shift];
      SweepGoalsInOrder(goals, order[1..], only, i - shift, j - shift);
      var a, b :| 0 <= a < b < |order[1..]| && order[1..][a] == rest[i - shift] && order[1..][b] == rest[j - shift];
      assert order[a + 1] == ids[i] && order[b + 1] == ids[j];
    } else {
      assert ids[j] == rest[j - 1] && rest[j - 1] in order[1..];
      var b :| 0 <= b < |order[1..]| && order[1..][b] == ids[j];
      assert order[0] == ids[i] && order[b + 1] == ids[j];
    }
  }

  lemma {:induction false} FailedStays(p: Progress, ids: seq<Id>, fates: seq<Fate>, i: nat)
    requires p.failed
    ensures SweepFrom(p, ids, fates, i) == p
    decreases |ids| - i
  {
    if i < |ids| { FailedStays(p, ids, fates, i + 1); }
  }

  class Treasury {
    var vault: int
    var ledger: int
    var goals: map<Id, Goal>
    var order: seq<Id>

    ghost function Now(): Books
      reads this
    {
      Books(vault, ledger, goals)
    }

    /** Posts one debit of the vault and one credit of the goal. */
    method Post(id: Id, amount: int, fate: Fate) returns (ok: bool)
      requires id in goals && amount > 0
      modifies `vault, `ledger, `goals
      ensures ok == (fate.Works? && old(vault) >= amount)
      ensures Now() == if fate.Refuses? || old(vault) < amount then old(Now()) else Posted(old(Now()), id, amount)
    {
      if fate.Refuses? || vault < amount { return false; }
      vault, ledger := vault - amount, ledger - amount;
      goals := goals[id := goals[id].(current := goals[id].current + amount)];
      return fate.Works?;
    }

    method ExecuteAutoSweep(only: Option<Id>, fates: seq<Fate>) returns (moved: Result<bool, ()>)
      requires NoRepeats(order)
      modifies `vault, `ledger, `goals
      ensures var p := Sweep(old(Now()), order, only, fates);
              Now() == p.books && moved == if p.failed then Err(()) else Ok(p.moved)
    {
      var ids := SweepGoals(goals, order, only);
      if ids == [] { return Ok(false); }
      ghost var start := Progress(Now(), false, false);
      var read := goals;
      var currentBalance, any, i := ledger, false, 0;
      SweepGoalsDistinct(goals, order, only);
      hide SweepGoals, SweepFrom, Step;
      while i < |ids|
        invariant i <= |ids| && currentBalance == ledger && goals.Keys == read.Keys
        invariant forall j | i <= j < |ids| :: ids[j] in goals && goals[ids[j]] == read[ids[j]]
        invariant SweepFrom(Progress(Now(), any, false), ids, fates, i) == SweepFrom(start, ids, fates, 0)
      {
        ghost var before := Progress(Now(), any, false);
        SweepOnce(before, ids, fates, i);
        TurnIs(before, ids[i], FateAt(fates, i));
        var goal := read[ids[i]];
        var sweepAmount := 0;
        if currentBalance > goal.threshold {
          var excess, remainingNeeded := currentBalance - goal.threshold, goal.target - goal.current;
          if remainingNeeded > 0 { sweepAmount := Min(excess, remainingNeeded); }
        }
        assert sweepAmount == SweepAmount(before.books.ledger, before.books.goals[ids[i]]);
        assert forall j | i < j < |ids| :: ids[j] != ids[i];
        hide SweepAmount, Min, NoRepeats;
        if sweepAmount > 0 {
          var ok := Post(ids[i], sweepAmount, FateAt(fates, i));
          if !ok {
            FailedStays(Step(before, ids[i], FateAt(fates, i)), ids, fates, i + 1);
            return Err(());
          }
          assert goals[ids[i]].current == goal.current + sweepAmount;
          goals := goals[ids[i] := goals[ids[i]].(current := goal.current + sweepAmount)];
          currentBalance := currentBalance - sweepAmount;
          any := true;
          assert goals == Posted(before.books, ids[i], sweepAmount).goals;
        }
        assert Progress(Now(), any, false) == Step(before, ids[i], FateAt(fates, i));
        i := i + 1;
      }
      SweepEnds(Progress(Now(), any, false), ids, fates);
      return Ok(any);
    }
  }

  lemma TurnIs(p: Progress, id: Id, fate: Fate)
    requires !p.failed && id in p.books.goals
    ensures var amount := SweepAmount(p.books.ledger, p.books.goals[id]);
            Step(p, id, fate) == if amount == 0 then p
                                 else if fate.Refuses? || p.books.vault < amount then p.(failed := true)
                                 else Progress(Posted(p.books, id, amount), fate.Works? || p.moved, fate.Loses?)
  {
  }

  lemma SweepOnce(p: Progress, ids: seq<Id>, fates: seq<Fate>, i: nat)
    requires i < |ids|
    ensures SweepFrom(p, ids, fates, i) == SweepFrom(Step(p, ids[i], FateAt(fates, i)), ids, fates, i + 1)
  {
  }

  lemma SweepEnds(p: Progress, ids: seq<Id>, fates: seq<Fate>)
    ensures SweepFrom(p, ids, fates, |ids|) == p
  {
  }

  // ------------------------------------------------------------------------------------- what a sweep keeps

  /** How much the goals hold. */
  function Held(goals: map<Id, Goal>, order: seq<Id>): int {
    if order == [] then 0 else (if order[0] in goals then goals[order[0]].current else 0) + Held(goals, order[1..])
  }

  lemma {:induction false} HeldOther(goals: map<Id, Goal>, order: seq<Id>, id: Id, g: Goal)
    requires id !in order
    ensures Held(goals[id := g], order) == Held(goals, order)
  {
    if order != [] { HeldOther(goals, order[1..], id, g); }
  }

  lemma {:induction false} HeldOne(goals: map<Id, Goal>, order: seq<Id>, id: Id, g: Goal)
    requires NoRepeats(order) && id in order && id in goals
    ensures Held(goals[id := g], order) == Held(goals, order) + g.current - goals[id].current
  {
    if id == order[0] {
      HeldOther(goals, order[1..], id, g);
    } else {
      HeldOne(goals, order[1..], id, g);
    }
  }

  /** Neither goal configuration nor goals appear or disappear, no goal goes past its target and none
      loses anything; the two balances of the vault move together, and only down. */
  ghost predicate Kept(before: Books, now: Books) {
    && now.goals.Keys == before.goals.Keys
    && (forall id | id in before.goals ::
          && now.goals[id] == before.goals[id].(current := now.goals[id].current)
          && before.goals[id].current <= now.goals[id].current <= Max(before.goals[id].current, before.goals[id].target))
    && now.ledger <= before.ledger && now.ledger - now.vault == before.ledger - before.vault
  }

  lemma {:induction false} SweepKeeps(before: Books, p: Progress, ids: seq<Id>, fates: seq<Fate>, i: nat)
    requires Kept(before, p.books)
    ensures Kept(before, SweepFrom(p, ids, fates, i).books)
    decreases |ids| - i
  {
    if i < |ids| { SweepKeeps(before, Step(p, ids[i], FateAt(fates, i)), ids, fates, i + 1); }
  }

  lemma {:induction false} SweepConserves(p: Progress, order: seq<Id>, ids: seq<Id>, fates: seq<Fate>, i: nat)
    requires NoRepeats(order) && forall id | id in ids :: id in order
    ensures var q := SweepFrom(p, ids, fates, i);
            q.books.vault + Held(q.books.goals, order) == p.books.vault + Held(p.books.goals, order)
    decreases |ids| - i
  {
    if i < |ids| {
      var q := Step(p, ids[i], FateAt(fates, i));
      if q.books != p.books { HeldOne(p.books.goals, order, ids[i], q.books.goals[ids[i]]); }
      SweepConserves(q, order, ids, fates, i + 1);
    }
  }

  /** The balance never falls below a floor that is below the start and below every threshold. */
  lemma {:induction false} SweepLeaves(p: Progress, ids: seq<Id>, fates: seq<Fate>, i: nat, floor: int)
    requires p.books.ledger >= floor
    requires forall id | id in ids && id in p.books.goals :: p.books.goals[id].threshold >= floor
    ensures SweepFrom(p, ids, fates, i).books.ledger >= floor
    decreases |ids| - i
  {
    if i < |ids| { SweepLeaves(Step(p, ids[i], FateAt(fates, i)), ids, fates, i + 1, floor); }
  }

  /** A goal that is full, or whose threshold the balance does not exceed, gets nothing. */
  predicate Settled(b: Books, id: Id) {
    id in b.goals ==> b.ledger <= b.goals[id].threshold || b.goals[id].current >= b.goals[id].target
  }

  lemma {:induction false} SweepSettles(p: Progress, ids: seq<Id>, fates: seq<Fate>, i: nat)
    requires forall j | 0 <= j < i && j < |ids| :: Settled(p.books, ids[j])
    requires NoRepeats(ids)
    ensures var q := SweepFrom(p, ids, fates, i); !q.failed ==> forall id | id in ids :: Settled(q.books, id)
    decreases |ids| - i
  {
    if i < |ids| {
      var q := Step(p, ids[i], FateAt(fates, i));
      if q.failed {
        FailedStays(q, ids, fates, i + 1);
      } else {
        assert Settled(q.books, ids[i]);
        SweepSettles(q, ids, fates, i + 1);
      }
    }
  }

  lemma {:induction false} SettledMovesNothing(p: Progress, ids: seq<Id>, fates: seq<Fate>, i: nat)
    requires forall id | id in ids :: Settled(p.books, id)
    ensures SweepFrom(p, ids, fates, i) == p
    decreases |ids| - i
  {
    if i < |ids| {
      assert Settled(p.books, ids[i]);
      SettledMovesNothing(p, ids, fates, i + 1);
    }
  }

  // --------------------------------------------------------------------------------------------- main results

  /** Whatever fails and wherever a sweep stops: money is only moved, no goal goes past its target, and
      the operating balance stays above the smallest threshold if it was above it. */
  lemma SweepIsSafe(b: Books, order: seq<Id>, only: Option<Id>, fates: seq<Fate>, floor: int)
    requires NoRepeats(order)
    requires forall id | id in SweepGoals(b.goals, order, only) && id in b.goals :: floor <= b.goals[id].threshold
    ensures var now := Sweep(b, order, only, fates).books;
            && Kept(b, now) && now.vault + Held(now.goals, order) == b.vault + Held(b.goals, order)
            && now.ledger >= Min(b.ledger, floor)
  {
    var ids := SweepGoals(b.goals, order, only);
    SweepGoalsDistinct(b.goals, order, only);
    SweepKeeps(b, Progress(b, false, false), ids, fates, 0);
    SweepConserves(Progress(b, false, false), order, ids, fates, 0);
    SweepLeaves(Progress(b, false, false), ids, fates, 0, Min(b.ledger, floor));
  }

  /** A sweep that reaches its end leaves every goal it went through full or with a threshold the balance
      does not exceed; sweeping again moves nothing. */
  lemma SweepReachesFixedPoint(b: Books, order: seq<Id>, only: Option<Id>, fates: seq<Fate>, again: seq<Fate>)
    requires NoRepeats(order) && !Sweep(b, order, only, fates).failed
    ensures var now := Sweep(b, order, only, fates).books;
            && (forall id | id in SweepGoals(b.goals, order, only) :: Settled(now, id))
            && Sweep(now, order, only, again) == Progress(now, false, false)
  {
    var ids := SweepGoals(b.goals, order, only);
    var now := Sweep(b, order, only, fates).books;
    SweepGoalsDistinct(b.goals, order, only);
    SweepSettles(Progress(b, false, false), ids, fates, 0);
    SweepKeeps(b, Progress(b, false, false), ids, fates, 0);
    SameGoals(b.goals, now.goals, order, only);
    SettledMovesNothing(Progress(now, false, false), ids, again, 0);
  }

  lemma {:induction false} SameGoals(goals: map<Id, Goal>, now: map<Id, Goal>, order: seq<Id>, only: Option<Id>)
    requires now.Keys == goals.Keys && forall id | id in goals :: Enabled(now[id]) == Enabled(goals[id])
    ensures SweepGoals(now, order, only) == SweepGoals(goals, order, only)
  {
    if order != [] { SameGoals(goals, now, order[1..], only); }
  }

  /** Where the vault holds what its ledger says and no posting fails, a sweep moves something exactly when
      some goal it goes through is not settled to begin with. */
  lemma SweepMovesExactlyWhen(b: Books, order: seq<Id>, only: Option<Id>)
    requires NoRepeats(order) && b.vault >= b.ledger
    ensures var p := Sweep(b, order, only, []);
            && !p.failed
            && (p.moved <==> exists id :: id in SweepGoals(b.goals, order, only) && !Settled(b, id))
  {
    var ids := SweepGoals(b.goals, order, only);
    SweepGoalsDistinct(b.goals, order, only);
    if forall id | id in ids :: Settled(b, id) {
      SettledMovesNothing(Progress(b, false, false), ids, [], 0);
    } else {
      var id :| id in ids && !Settled(b, id);
      SweepMoves(Progress(b, false, false), b, ids, 0, id);
    }
  }

  lemma {:induction false} SweepMoves(p: Progress, b: Books, ids: seq<Id>, i: nat, id: Id)
    requires !p.failed && p.books.vault >= p.books.ledger
    requires forall k | k in ids && k in p.books.goals :: p.books.goals[k].threshold > 0
    requires p.moved || (p.books == b && !Settled(b, id) && exists j :: i <= j < |ids| && ids[j] == id)
    ensures !SweepFrom(p, ids, [], i).failed && SweepFrom(p, ids, [], i).moved
    decreases |ids| - i
  {
    if i < |ids| { SweepMoves(Step(p, ids[i], Works), b, ids, i + 1, id); }
  }
}
