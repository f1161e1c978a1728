/** Settlement payouts triggered by several people at once, each database call a step of its own. */
module SettlementRaces {
  import opened Outcomes
  import opened Settlement

  type Caller = nat

  datatype Place = Idle | Summed(sum: int) | Inserted(gross: int, row: nat) | Unlinked(stray: nat)

  datatype State = State(books: Books, places: map<Caller, Place>)

  datatype Action =
    | Arrive(amount: int, kind: Kind)
    | Sum(who: Caller)
    | Insert(who: Caller, fee: int, fate: Fate)
    | LinkAll(who: Caller, fate: Fate)
    | Undo(who: Caller, works: bool)

  function PlaceOf(s: State, w: Caller): Place { if w in s.places then s.places[w] else Idle }

  function Move(s: State, w: Caller, place: Place): State { s.(places := s.places[w := place]) }

  predicate Enabled(s: State, a: Action) {
    match a
    case Arrive(_, _) => true
    case Sum(w) => PlaceOf(s, w).Idle?
    case Insert(w, _, _) => PlaceOf(s, w).Summed?
    case LinkAll(w, _) => PlaceOf(s, w).Inserted?
    case Undo(w, _) => PlaceOf(s, w).Unlinked? && PlaceOf(s, w).stray < |s.books.payouts|
  }

  function Step(s: State, a: Action): State
    requires Enabled(s, a)
  {
    match a
    case Arrive(amount, kind) => s.(books := s.books.(txs := s.books.txs + [Tx(amount, kind, None)]))
    case Sum(w) => if Pending(s.books.txs) > 0 then Move(s, w, Summed(Pending(s.books.txs))) else s
    case Insert(w, fee, fate) =>
      var amount := PlaceOf(s, w).sum;
      if amount - fee <= 0 || fate.Refuses? then Move(s, w, Idle)
      else Move(s.(books := Recorded(s.books, amount, fee)), w, if fate.Works? then Inserted(amount, |s.books.payouts|) else Idle)
    case LinkAll(w, fate) =>
      var p := PlaceOf(s, w).row;
      var linked := if fate.Refuses? then s else s.(books := s.books.(txs := Link(s.books.txs, p)));
      Move(linked, w, if fate.Works? then Idle else Unlinked(p))
    case Undo(w, works) =>
      Move(if works then s.(books := Deleted(s.books, PlaceOf(s, w).stray)) else s, w, Idle)
  }

  predicate Legal(s: State, run: seq<Action>)
    decreases |run|
  {
    run != [] ==> Enabled(s, run[0]) && Legal(Step(s, run[0]), run[1..])
  }

  function Run(s: State, run: seq<Action>): State
    requires Legal(s, run)
    decreases |run|
  {
    if run == [] then s else Run(Step(s, run[0]), run[1..])
  }

  // --------------------------------------------------------------------------------------------- invariants

  /** A recorded payout whose caller has yet to link it has no transaction, and no other caller has it. */
  ghost predicate Inv(s: State) {
    && (forall t | t in s.books.txs :: t.payout.Some? ==> t.payout.value < |s.books.payouts|)
    && (forall w | w in s.places && s.places[w].Inserted? ::
          && s.places[w].row < |s.books.payouts| && s.books.payouts[s.places[w].row].amount == s.places[w].gross
          && forall t | t in s.books.txs :: t.payout != Some(s.places[w].row))
    && (forall v, w | v in s.places && w in s.places && v != w && s.places[v].Inserted? && s.places[w].Inserted? ::
          s.places[v].row != s.places[w].row)
  }

  lemma StepKeepsInv(s: State, a: Action)
    requires Inv(s) && Enabled(s, a)
    ensures Inv(Step(s, a))
  {
    hide Pending;
    var t := Step(s, a);
    if a.LinkAll? && !a.fate.Refuses? {
      var p := PlaceOf(s, a.who).row;
      forall x | x in t.books.txs ensures x in s.books.txs || x.payout == Some(p) {
        var i :| 0 <= i < |t.books.txs| && t.books.txs[i] == x;
        assert x == s.books.txs[i] || x.payout == Some(p);
      }
    }
  }

  /** A link once made is never changed, whatever else happens. */
  lemma {:induction false} LinksStay(s: State, run: seq<Action>, i: nat)
    requires Legal(s, run) && i < |s.books.txs| && s.books.txs[i].payout.Some?
    ensures i < |Run(s, run).books.txs| && Run(s, run).books.txs[i] == s.books.txs[i]
    decreases |run|
  {
    hide Pending;
    if run != [] { LinksStay(Step(s, run[0]), run[1..], i); }
  }

  // ----------------------------------------------------------------------------------- what flows in and out

  /** What the completions of a run add up to. */
  function Arrived(run: seq<Action>): int {
    if run == [] then 0 else (if run[0].Arrive? then Signed(Tx(run[0].amount, run[0].kind, None)) else 0) + Arrived(run[1..])
  }

  /** What the links of a run take from the pending transactions. */
  function Taken(s: State, run: seq<Action>): int
    requires Legal(s, run)
    decreases |run|
  {
    if run == [] then 0
    else (if run[0].LinkAll? && !run[0].fate.Refuses? then Pending(s.books.txs) else 0) + Taken(Step(s, run[0]), run[1..])
  }

  lemma {:induction false} LinkEmpties(txs: seq<Tx>, p: nat)
    ensures Pending(Link(txs, p)) == 0
  {
    if txs != [] {
      var n := |txs| - 1;
      assert Link(txs, p)[..n] == Link(txs[..n], p);
      LinkEmpties(txs[..n], p);
    }
  }

  lemma StepFlows(s: State, a: Action)
    requires Enabled(s, a)
    ensures Pending(Step(s, a).books.txs) == Pending(s.books.txs)
         + (if a.Arrive? then Signed(Tx(a.amount, a.kind, None)) else 0)
         - (if a.LinkAll? && !a.fate.Refuses? then Pending(s.books.txs) else 0)
  {
    match a
    case Arrive(amount, kind) => assert (s.books.txs + [Tx(amount, kind, None)])[..|s.books.txs|] == s.books.txs;
    case LinkAll(w, fate) => LinkEmpties(s.books.txs, PlaceOf(s, w).row);
    case _ =>
  }

  lemma {:induction false} RunFlows(s: State, run: seq<Action>)
    requires Legal(s, run)
    ensures Pending(Run(s, run).books.txs) == Pending(s.books.txs) + Arrived(run) - Taken(s, run)
    decreases |run|
  {
    hide Step, Pending;
    if run != [] {
      StepFlows(s, run[0]);
      RunFlows(Step(s, run[0]), run[1..]);
    }
  }

  // ------------------------------------------------------------------------------------------- main results

  /** While a caller does not read the sum again, what it records is what it read. */
  lemma {:induction false} RecordsWhatItRead(s: State, run: seq<Action>, w: Caller, sum: int)
    requires Inv(s) && Legal(s, run) && forall a | a in run :: a != Sum(w)
    requires match PlaceOf(s, w)
             case Summed(amount) => amount == sum
             case Inserted(amount, _) => amount == sum
             case _ => true
    ensures Inv(Run(s, run))
    ensures PlaceOf(Run(s, run), w).Inserted? ==> PlaceOf(Run(s, run), w).gross == sum
    decreases |run|
  {
    hide Inv, Pending;
    if run != [] {
      assert run[0] in run && forall a | a in run[1..] :: a in run;
      StepKeepsInv(s, run[0]);
      RecordsWhatItRead(Step(s, run[0]), run[1..], w, sum);
    }
  }

  /** A caller reads the pending sum, anything happens until it links, and its link is made: the payout's gross
      amount equals the transactions linked to it exactly when, in between, what completed adds up to what
      other callers took. */
  lemma GrossMatchesLinksExactly(s: State, w: Caller, run: seq<Action>, fate: Fate)
    requires Inv(s) && !fate.Refuses? && PlaceOf(s, w).Idle? && Pending(s.books.txs) > 0
    requires Legal(Step(s, Sum(w)), run) && forall a | a in run :: a != Sum(w)
    requires PlaceOf(Run(Step(s, Sum(w)), run), w).Inserted?
    ensures var before := Run(Step(s, Sum(w)), run);
            var p, after := PlaceOf(before, w).row, Step(before, LinkAll(w, fate));
            && p < |after.books.payouts| && after.books.payouts[p].amount == Pending(s.books.txs)
            && LinkedTo(after.books.txs, p) == Pending(s.books.txs) + Arrived(run) - Taken(Step(s, Sum(w)), run)
            && (LinkedTo(after.books.txs, p) == after.books.payouts[p].amount <==> Arrived(run) == Taken(Step(s, Sum(w)), run))
  {
    hide Run, Legal, Pending, Arrived, Taken, LinkedTo;
    var read := Step(s, Sum(w));
    StepKeepsInv(s, Sum(w));
    RecordsWhatItRead(read, run, w, Pending(s.books.txs));
    RunFlows(read, run);
    var before := Run(read, run);
    var p := PlaceOf(before, w).row;
    NoneLinked(before.books.txs, p);
    LinkMoves(before.books.txs, p, p);
  }

  /** Two callers who read the same sum record it twice; the second link finds nothing and does not fail. */
  lemma TwoCallersPayTwice(amount: int) returns (run: seq<Action>)
    requires amount > 0
    ensures var s := State(Books([Tx(amount, Credit, None)], []), map[]);
            Legal(s, run) && Gross(Run(s, run).books.payouts) == 2 * Total(Run(s, run).books.txs)
            && Total(Run(s, run).books.txs) == amount
  {
    var s := State(Books([Tx(amount, Credit, None)], []), map[]);
    assert Pending(s.books.txs) == amount by { assert [Tx(amount, Credit, None)][..0] == []; }
    run := [Sum(0)] + ([Sum(1)] + ([Insert(0, 0, Works)] + ([Insert(1, 0, Works)] + ([LinkAll(0, Works)] + [LinkAll(1, Works)]))));
    var s1 := Step(s, Sum(0));
    var s2 := Step(s1, Sum(1));
    var s3 := Step(s2, Insert(0, 0, Works));
    var s4 := Step(s3, Insert(1, 0, Works));
    var s5 := Step(s4, LinkAll(0, Works));
    var s6 := Step(s5, LinkAll(1, Works));
    var p := Payout(amount, 0, amount, false);
    assert s6.books.payouts == [p, p];
    GrossOne([p], p);
    GrossOne([], p);
    assert [] + [p] == [p] && [p] + [p] == [p, p];
    assert |s6.books.txs| == 1 && s6.books.txs[0] == Tx(amount, Credit, Some(0)) && s6.books.txs[..0] == [];
    hide Step, Enabled, Gross, Total, Pending;
    assert [LinkAll(1, Works)][1..] == [];
    assert Legal(s5, [LinkAll(1, Works)]) && Run(s5, [LinkAll(1, Works)]) == s6;
    First(s4, LinkAll(0, Works), [LinkAll(1, Works)]);
    First(s3, Insert(1, 0, Works), [LinkAll(0, Works)] + [LinkAll(1, Works)]);
    First(s2, Insert(0, 0, Works), [Insert(1, 0, Works)] + ([LinkAll(0, Works)] + [LinkAll(1, Works)]));
    First(s1, Sum(1), [Insert(0, 0, Works)] + ([Insert(1, 0, Works)] + ([LinkAll(0, Works)] + [LinkAll(1, Works)])));
    First(s, Sum(0), [Sum(1)] + ([Insert(0, 0, Works)] + ([Insert(1, 0, Works)] + ([LinkAll(0, Works)] + [LinkAll(1, Works)]))));
  }

  lemma First(s: State, a: Action, rest: seq<Action>)
    requires Enabled(s, a) && Legal(Step(s, a), rest)
    ensures Legal(s, [a] + rest) && Run(s, [a] + rest) == Run(Step(s, a), rest)
  {
    assert ([a] + rest)[1..] == rest;
  }

  /** The calls of one payout, as far as it gets. */
  function PayoffSteps(w: Caller, b: Books, fee: int, calls: Calls): seq<Action> {
    [Sum(w)]
    + if Pending(b.txs) <= 0 then []
      else
        [Insert(w, fee, calls.insert)]
        + if !Payable(Pending(b.txs), fee) || !calls.insert.Works? then []
          else [LinkAll(w, calls.link)] + if calls.link.Works? then [] else [Undo(w, calls.undo)]
  }

  lemma NoSteps(s: State)
    ensures Legal(s, []) && Run(s, []) == s
  {
  }

  /** A payout with nothing else happening meanwhile is the run of its calls, and leaves its caller idle again. */
  lemma PayoffIsSteps(s: State, w: Caller, fee: int, calls: Calls)
    requires PlaceOf(s, w).Idle?
    ensures var steps := PayoffSteps(w, s.books, fee, calls);
            && Legal(s, steps) && Run(s, steps).books == Payoff(s.books, fee, calls).0
            && PlaceOf(Run(s, steps), w).Idle? && forall v | v != w :: PlaceOf(Run(s, steps), v) == PlaceOf(s, v)
  {
    hide Pending, Link, Legal, Run;
    var b := s.books;
    var summed := Step(s, Sum(w));
    if Pending(b.txs) <= 0 {
      NoSteps(summed);
      First(s, Sum(w), []);
    } else {
      var insert := Insert(w, fee, calls.insert);
      var inserted := Step(summed, insert);
      if !Payable(Pending(b.txs), fee) || !calls.insert.Works? {
        NoSteps(inserted);
        First(summed, insert, []);
        First(s, Sum(w), [insert] + []);
      } else {
        var link := LinkAll(w, calls.link);
        var linked := Step(inserted, link);
        var rest := if calls.link.Works? then [] else [Undo(w, calls.undo)];
        if calls.link.Works? {
          NoSteps(linked);
        } else {
          NoSteps(Step(linked, Undo(w, calls.undo)));
          First(linked, Undo(w, calls.undo), []);
          assert [Undo(w, calls.undo)] + [] == [Undo(w, calls.undo)];
        }
        First(inserted, link, rest);
        First(summed, insert, [link] + rest);
        First(s, Sum(w), [insert] + ([link] + rest));
      }
    }
  }
}
