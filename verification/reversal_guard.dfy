/** How often a transaction is reversed, when any number of workers reverse transactions, change their statuses
    and put them under review at the same time: each reads a status, and acts on what it read in later
    statements. */
module ReversalGuard {
  import L = Ledger
  import opened Outcomes
  import opened TransactionStatus

  type Id = L.Id
  type Worker = nat

  /** How far a worker is. `Looked` is about to post a reversal, having looked at the status if guarded;
      `Posted` has posted one and heard of it; `Marking` has found that the status may become REVERSED. `Writing`
      is about to write a status that was allowed when it looked, or, under review, HELD_FOR_REVIEW over one
      that could still be reversed. */
  datatype Place =
    | Idle
    | Looked(tx: Id, guarded: bool)
    | Posted(tx: Id)
    | Marking(tx: Id)
    | Writing(tx: Id, next: Status)
    | Reviewing(tx: Id)

  datatype State = State(books: L.Books, places: map<Worker, Place>)

  function PlaceOf(s: State, w: Worker): Place { if w in s.places then s.places[w] else Idle }

  function Move(s: State, w: Worker, place: Place): State { s.(places := s.places[w := place]) }

  datatype Action =
    | Look(tx: Id, guarded: bool)         // reverseTransactionWithReason, or reverseTransaction alone
    | Post(name: L.Name, fate: Fate)
    | Check(readable: bool)               // updateTransactionStatus to REVERSED after the posting
    | Change(tx: Id, next: Status)        // updateTransactionStatus by anybody
    | Review(tx: Id)                      // lockTransactionForReview
    | Write(works: bool)
    | Crash
    | Posting(order: L.Order, fate: Fate) // any other posting, and locks of wallets
    | Lock(wallet: Id, on: bool)

  predicate Enabled(s: State, w: Worker, a: Action) {
    match a
    case Look(tx, _) => PlaceOf(s, w).Idle? && tx in s.books.txs
    case Post(_, _) => PlaceOf(s, w).Looked?
    case Check(_) => PlaceOf(s, w).Posted?
    case Change(_, _) => PlaceOf(s, w).Idle?
    case Review(_) => PlaceOf(s, w).Idle?
    case Write(_) => PlaceOf(s, w).Marking? || PlaceOf(s, w).Writing? || PlaceOf(s, w).Reviewing?
    case _ => true
  }

  predicate MayBecome(b: L.Books, tx: Id, next: Status) { tx in b.txs && IsValidTransition(b.txs[tx].status, next) }

  /** What a worker writes. */
  function Written(place: Place): (Id, Status)
    requires place.Marking? || place.Writing? || place.Reviewing?
  {
    match place
    case Marking(tx) => (tx, Reversed)
    case Writing(tx, next) => (tx, next)
    case Reviewing(tx) => (tx, HeldForReview)
  }

  function Step(s: State, w: Worker, a: Action): State
    requires Enabled(s, w, a)
  {
    match a
    case Look(tx, guarded) => if guarded && !L.Eligible(s.books, tx) then s else Move(s, w, Looked(tx, guarded))
    case Post(name, fate) =>
      var tx := PlaceOf(s, w).tx;
      var books := L.Step(s.books, L.Mirroring(tx, name, fate));
      Move(s.(books := books), w, if fate.Works? && L.Reverse(s.books, tx, name).Some? then Posted(tx) else Idle)
    case Check(readable) =>
      var tx := PlaceOf(s, w).tx;
      Move(s, w, if readable && MayBecome(s.books, tx, Reversed) then Marking(tx) else Idle)
    case Change(tx, next) => if MayBecome(s.books, tx, next) then Move(s, w, Writing(tx, next)) else s
    case Review(tx) => if L.Eligible(s.books, tx) then Move(s, w, Reviewing(tx)) else s
    case Write(works) =>
      var (tx, next) := Written(PlaceOf(s, w));
      Move(if works then s.(books := L.Step(s.books, L.StatusWrite(tx, next))) else s, w, Idle)
    case Crash => Move(s, w, Idle)
    case Posting(order, fate) => s.(books := L.Step(s.books, L.Posting(order, fate)))
    case Lock(wallet, on) => s.(books := L.Step(s.books, L.WalletLock(wallet, on)))
  }

  type Event = (Worker, Action)

  predicate Legal(s: State, run: seq<Event>)
    decreases |run|
  {
    run != [] ==> Enabled(s, run[0].0, run[0].1) && Legal(Step(s, run[0].0, run[0].1), run[1..])
  }

  function Run(s: State, run: seq<Event>): State
    requires Legal(s, run)
    decreases |run|
  {
    if run == [] then s else Run(Step(s, run[0].0, run[0].1), run[1..])
  }

  // ----------------------------------------------------------------------------------------- what is counted

  /** The step posts a reversal of the transaction. */
  predicate Reverses(s: State, w: Worker, a: Action, tx: Id) {
    && a.Post? && PlaceOf(s, w).Looked? && PlaceOf(s, w).tx == tx && !a.fate.Refuses? && L.Reverse(s.books, tx, a.name).Some?
  }

  function Reversals(s: State, run: seq<Event>, tx: Id): nat
    requires Legal(s, run)
    decreases |run|
  {
    if run == [] then 0
    else (if Reverses(s, run[0].0, run[0].1, tx) then 1 else 0) + Reversals(Step(s, run[0].0, run[0].1), run[1..], tx)
  }

  predicate InHand(place: Place, tx: Id) { place == Posted(tx) || place == Marking(tx) }

  /** A worker has posted a reversal of the transaction and is about to mark it. */
  predicate Underway(s: State, tx: Id) { exists w | w in s.places :: InHand(s.places[w], tx) }

  /** What may go wrong: a reversal posted without a look at the status, or after it was made impossible or begun
      by another since the look; a posting whose answer is lost; a marking that fails, or that the status does not
      allow; and a status written over one that no longer allows it. */
  datatype Lapse = Unguarded | Late | Lost | Unmarked | Early | Stale

  predicate Happens(s: State, w: Worker, a: Action, tx: Id, lapse: Lapse)
    requires Enabled(s, w, a)
  {
    var place := PlaceOf(s, w);
    match lapse
    case Unguarded => Reverses(s, w, a, tx) && !place.guarded
    case Late => Reverses(s, w, a, tx) && place.guarded && (!L.Eligible(s.books, tx) || Underway(s, tx))
    case Lost => Reverses(s, w, a, tx) && a.fate.Loses?
    case Unmarked => InHand(place, tx) && (a.Crash? || (a.Check? && !a.readable) || (a.Write? && !a.works))
    case Early => place == Posted(tx) && a.Check? && a.readable && !MayBecome(s.books, tx, Reversed)
    case Stale =>
      && a.Write? && a.works && Written(place).0 == tx
      && !(if place.Reviewing? then L.Eligible(s.books, tx) else MayBecome(s.books, tx, Written(place).1))
  }

  predicate Lapses(s: State, w: Worker, a: Action, tx: Id)
    requires Enabled(s, w, a)
  {
    exists lapse: Lapse :: Happens(s, w, a, tx, lapse)
  }

  function LapseCount(s: State, run: seq<Event>, tx: Id): nat
    requires Legal(s, run)
    decreases |run|
  {
    if run == [] then 0
    else (if Lapses(s, run[0].0, run[0].1, tx) then 1 else 0) + LapseCount(Step(s, run[0].0, run[0].1), run[1..], tx)
  }

  // --------------------------------------------------------------------------------------- closed transactions

  /** The transaction cannot be reversed, or is just being marked. */
  predicate Closed(s: State, tx: Id) { tx in s.books.txs && (!L.Eligible(s.books, tx) || Underway(s, tx)) }

  lemma MirroringKeepsStatus(b: L.Books, a: L.Action, tx: Id)
    requires tx in b.txs && (a.Mirroring? || a.Posting? || a.WalletLock?)
    ensures tx in L.Step(b, a).txs && L.Step(b, a).txs[tx] == b.txs[tx]
  {
    hide L.Settle, L.BalancedInEach, L.Open, L.Net, L.Prepared, L.RowsFor, L.Mirrors;
  }

  lemma StillUnderway(s: State, t: State, w: Worker, tx: Id)
    requires Underway(s, tx) && !InHand(PlaceOf(s, w), tx) && forall v | v in s.places && v != w :: v in t.places && t.places[v] == s.places[v]
    ensures Underway(t, tx)
  {
    var v :| v in s.places && InHand(s.places[v], tx);
    assert t.places[v] == s.places[v];
  }

  lemma NowUnderway(t: State, w: Worker, tx: Id)
    requires w in t.places && InHand(t.places[w], tx)
    ensures Underway(t, tx)
  {
  }

  /** A step that is no lapse leaves a closed transaction closed. */
  lemma ClosedStays(s: State, w: Worker, a: Action, tx: Id)
    requires Enabled(s, w, a) && Closed(s, tx) && !Lapses(s, w, a, tx)
    ensures Closed(Step(s, w, a), tx)
  {
    hide L.Step, L.Reverse, NextStatuses, Underway;
    var t, place := Step(s, w, a), PlaceOf(s, w);
    assert !Happens(s, w, a, tx, Unmarked) && !Happens(s, w, a, tx, Early) && !Happens(s, w, a, tx, Stale);
    if a.Write? {
      WriteKeepsClosed(s, w, a.works, tx);
    } else {
      if a.Post? { MirroringKeepsStatus(s.books, L.Mirroring(place.tx, a.name, a.fate), tx); }
      if a.Posting? { MirroringKeepsStatus(s.books, L.Posting(a.order, a.fate), tx); }
      if a.Lock? { MirroringKeepsStatus(s.books, L.WalletLock(a.wallet, a.on), tx); }
      if InHand(place, tx) {
        NowUnderwayStep(s, w, a, tx);
      } else if Underway(s, tx) {
        StillUnderway(s, t, w, tx);
      }
    }
  }

  /** A worker that holds a reversal either goes on holding it or lapses, until it writes. */
  lemma NowUnderwayStep(s: State, w: Worker, a: Action, tx: Id)
    requires Enabled(s, w, a) && InHand(PlaceOf(s, w), tx) && !a.Write?
    requires !Happens(s, w, a, tx, Unmarked) && !Happens(s, w, a, tx, Early)
    ensures Underway(Step(s, w, a), tx)
  {
    hide L.Step, L.Reverse, Underway;
    NowUnderway(Step(s, w, a), w, tx);
  }

  lemma WriteKeepsClosed(s: State, w: Worker, works: bool, tx: Id)
    requires Enabled(s, w, Write(works)) && Closed(s, tx)
    requires !Happens(s, w, Write(works), tx, Unmarked) && !Happens(s, w, Write(works), tx, Stale)
    ensures Closed(Step(s, w, Write(works)), tx)
  {
    hide Underway, NextStatuses;
    var t, place := Step(s, w, Write(works)), PlaceOf(s, w);
    var (written, next) := Written(place);
    if works && written == tx {
      if !L.Eligible(s.books, tx) {
        IneligibleStays(s.books.txs[tx].status, next);
      } else if !InHand(place, tx) {
        StillUnderway(s, t, w, tx);
      }
    } else if Underway(s, tx) {
      StillUnderway(s, t, w, tx);
    }
  }

  /** A reversal closes the transaction, unless its answer is lost. */
  lemma ReversalCloses(s: State, w: Worker, a: Action, tx: Id)
    requires Enabled(s, w, a) && Reverses(s, w, a, tx)
    ensures !a.fate.Loses? || Closed(s, tx) ==> Closed(Step(s, w, a), tx)
  {
    hide L.Step, Underway;
    var t := Step(s, w, a);
    MirroringKeepsStatus(s.books, L.Mirroring(tx, a.name, a.fate), tx);
    if a.fate.Works? {
      NowUnderway(t, w, tx);
    } else if Underway(s, tx) {
      StillUnderway(s, t, w, tx);
    }
  }

  /** In every run, a transaction is reversed at most once more than lapses happen to it, and no more often than
      that if it is closed. */
  lemma {:induction false} ReversalsBounded(s: State, run: seq<Event>, tx: Id)
    requires Legal(s, run)
    ensures Reversals(s, run, tx) <= LapseCount(s, run, tx) + if Closed(s, tx) then 0 else 1
    decreases |run|
  {
    hide Step, Enabled, Closed, Lapses, Reverses;
    if run != [] {
      var w, a := run[0].0, run[0].1;
      ReversalsBounded(Step(s, w, a), run[1..], tx);
      StepBounded(s, w, a, tx);
    }
  }

  lemma StepBounded(s: State, w: Worker, a: Action, tx: Id)
    requires Enabled(s, w, a)
    ensures (if Reverses(s, w, a, tx) then 1 else 0) + (if Closed(Step(s, w, a), tx) then 0 else 1)
         <= (if Lapses(s, w, a, tx) then 1 else 0) + if Closed(s, tx) then 0 else 1
  {
    if Reverses(s, w, a, tx) {
      ReversalCloses(s, w, a, tx);
      if Closed(s, tx) || a.fate.Loses? { ReversalLapses(s, w, a, tx); }
    }
    hide Step, Closed, Reverses, Lapses;
    if Closed(s, tx) && !Lapses(s, w, a, tx) { ClosedStays(s, w, a, tx); }
  }

  /** A reversal of a closed transaction, and one whose answer is lost, are lapses. */
  lemma ReversalLapses(s: State, w: Worker, a: Action, tx: Id)
    requires Enabled(s, w, a) && Reverses(s, w, a, tx) && (Closed(s, tx) || a.fate.Loses?)
    ensures Lapses(s, w, a, tx)
  {
    hide Underway;
    assert Happens(s, w, a, tx, Unguarded) || Happens(s, w, a, tx, Late) || Happens(s, w, a, tx, Lost);
  }

  // ------------------------------------------------------------------------------------- exactly when once

  /** Nothing goes wrong in the step but what is allowed. */
  predicate Within(s: State, w: Worker, a: Action, tx: Id, allowed: set<Lapse>)
    requires Enabled(s, w, a)
  {
    forall lapse: Lapse | Happens(s, w, a, tx, lapse) :: lapse in allowed
  }

  predicate AllWithin(s: State, run: seq<Event>, tx: Id, allowed: set<Lapse>)
    requires Legal(s, run)
    decreases |run|
  {
    run != [] ==>
      Within(s, run[0].0, run[0].1, tx, allowed) && AllWithin(Step(s, run[0].0, run[0].1), run[1..], tx, allowed)
  }

  /** In every run with no other lapses, no transaction is reversed twice. */
  ghost predicate ReversedAtMostOnce(allowed: set<Lapse>) {
    forall s, run, tx | Legal(s, run) && AllWithin(s, run, tx, allowed) :: Reversals(s, run, tx) <= 1
  }

  lemma {:induction false} NothingLapses(s: State, run: seq<Event>, tx: Id)
    requires Legal(s, run) && AllWithin(s, run, tx, {})
    ensures LapseCount(s, run, tx) == 0
    decreases |run|
  {
    hide Step, Happens, Enabled;
    if run != [] { NothingLapses(Step(s, run[0].0, run[0].1), run[1..], tx); }
  }

  lemma {:induction false} MoreAllowed(s: State, run: seq<Event>, tx: Id, few: set<Lapse>, many: set<Lapse>)
    requires Legal(s, run) && AllWithin(s, run, tx, few) && few <= many
    ensures AllWithin(s, run, tx, many)
    decreases |run|
  {
    hide Step, Happens, Enabled;
    if run != [] { MoreAllowed(Step(s, run[0].0, run[0].1), run[1..], tx, few, many); }
  }

  /** The run leads from s to t, with no other lapses and at least n reversals. */
  ghost predicate Leads(s: State, run: seq<Event>, t: State, tx: Id, allowed: set<Lapse>, n: nat) {
    Legal(s, run) && Run(s, run) == t && AllWithin(s, run, tx, allowed) && Reversals(s, run, tx) >= n
  }

  lemma NoSteps(s: State, tx: Id, allowed: set<Lapse>)
    ensures Leads(s, [], s, tx, allowed, 0)
  {
  }

  lemma {:induction false} OneMore(s: State, run: seq<Event>, t: State, w: Worker, a: Action, tx: Id, allowed: set<Lapse>, n: nat)
    returns (longer: seq<Event>, u: State)
    requires Leads(s, run, t, tx, allowed, n) && Enabled(t, w, a) && Within(t, w, a, tx, allowed)
    ensures u == Step(t, w, a) && Leads(s, longer, u, tx, allowed, n + if Reverses(t, w, a, tx) then 1 else 0)
    decreases |run|
  {
    hide Step, Enabled, Within, Reverses;
    longer := run + [(w, a)];
    u := Step(t, w, a);
    if run == [] {
      assert longer == [(w, a)] && longer[1..] == [];
      NoSteps(u, tx, allowed);
    } else {
      var next, first := Step(s, run[0].0, run[0].1), if Reverses(s, run[0].0, run[0].1, tx) then 1 else 0;
      var m: nat := if n >= first then n - first else 0;
      assert Leads(next, run[1..], t, tx, allowed, m);
      var rest, v := OneMore(next, run[1..], t, w, a, tx, allowed, m);
      longer := [run[0]] + rest;
      assert longer[1..] == rest;
    }
  }

  // ------------------------------------------------------------------------------ a transfer reversed twice

  function NameAt(k: nat): L.Name { if k == 0 then L.Name("r", "2") else L.Name("s", "3") }

  function NamesAt(k: nat): set<Id> { if k == 0 then {"t"} else if k == 1 then {"t", "r"} else {"t", "r", "s"} }

  function ReferencesAt(k: nat): set<string> { if k == 0 then {"1"} else if k == 1 then {"1", "2"} else {"1", "2", "3"} }

  /** A transfer with this status that has been reversed k times. */
  ghost predicate At(t: State, amount: int, status: Status, k: nat, places: map<Worker, Place>) {
    && t.places == places && L.Moved(t.books, "t", "a", "b", amount) && k <= 2
    && t.books.cached == map["a" := k * amount, "b" := (2 - k) * amount]
    && t.books.txs.Keys == NamesAt(k) && t.books.txs["t"].status == status && t.books.references == ReferencesAt(k)
  }

  lemma NewName(t: State, amount: int, status: Status, k: nat, places: map<Worker, Place>)
    requires At(t, amount, status, k, places) && k < 2
    ensures !L.Taken(t.books, NameAt(k)) && L.Reference(NameAt(k)) == (if k == 0 then "2" else "3")
  {
    L.References();
  }

  lemma PostAt(t: State, amount: int, status: Status, k: nat, places: map<Worker, Place>, w: Worker, fate: Fate)
    requires At(t, amount, status, k, places) && k < 2 && w in places && places[w].Looked? && places[w].tx == "t" && !fate.Refuses?
    ensures var a := Post(NameAt(k), fate);
            && Enabled(t, w, a) && Reverses(t, w, a, "t")
            && At(Step(t, w, a), amount, status, k + 1, places[w := if fate.Works? then Posted("t") else Idle])
  {
    NewName(t, amount, status, k, places);
    hide L.Moved, L.Plain, L.Taken, L.Reference, L.Reverse;
    var name := NameAt(k);
    assert amount <= t.books.cached["b"] by { assert (2 - k) * amount >= amount by { PositiveAmount(t, amount); } }
    var after := L.TransferReverses(t.books, "t", "a", "b", amount, name);
    assert L.Step(t.books, L.Mirroring("t", name, fate)) == after;
    assert k * amount + amount == (k + 1) * amount && (2 - k) * amount - amount == (2 - (k + 1)) * amount;
    assert t.books.txs.Keys + {name.id} == NamesAt(k + 1);
  }

  lemma PositiveAmount(t: State, amount: int)
    requires L.Moved(t.books, "t", "a", "b", amount)
    ensures amount > 0
  {
  }

  lemma StatusAt(t: State, u: State, amount: int, status: Status, next: Status, k: nat, places: map<Worker, Place>, w: Worker)
    requires At(t, amount, status, k, places) && u == Move(t.(books := L.Overwritten(t.books, "t", next)), w, Idle)
    ensures At(u, amount, next, k, places[w := Idle])
  {
    hide L.Plain, L.RowsOf, L.Transfer;
  }

  /** Two wallets with this amount each, and nobody at work. */
  function Beginning(amount: int): State { State(L.TwoWallets(amount), map[]) }

  /** A run from there to a transfer in this state. */
  ghost predicate Reaches(run: seq<Event>, t: State, amount: int, status: Status, k: nat, places: map<Worker, Place>, allowed: set<Lapse>) {
    Leads(Beginning(amount), run, t, "t", allowed, k) && At(t, amount, status, k, places)
  }

  function TransferOrder(amount: int, status: Status): L.Order {
    L.Order(L.Name("t", "1"), status, {}, L.Transfer("a", "b", amount))
  }

  lemma Started(amount: int, status: Status, allowed: set<Lapse>) returns (run: seq<Event>, t: State)
    requires amount > 0
    ensures Reaches(run, t, amount, status, 0, map[], allowed)
  {
    var s, a := Beginning(amount), Posting(TransferOrder(amount, status), Works);
    L.References();
    hide L.Moved, L.Plain, L.Post, L.Reference, L.Stripped, Leads;
    var books := L.TransferPosts(s.books, L.Name("t", "1"), status, "a", "b", amount);
    NoSteps(s, "t", allowed);
    run, t := OneMore(s, [], s, 0, a, "t", allowed, 0);
    assert t == State(books, map[]);
  }

  lemma LookStep(run: seq<Event>, t: State, amount: int, status: Status, k: nat, places: map<Worker, Place>, allowed: set<Lapse>,
                 w: Worker, guarded: bool) returns (longer: seq<Event>, u: State)
    requires Reaches(run, t, amount, status, k, places, allowed) && (w in places ==> places[w] == Idle)
    requires guarded ==> IsReversalEligible(status)
    ensures Reaches(longer, u, amount, status, k, places[w := Looked("t", guarded)], allowed)
  {
    hide L.Moved, Leads;
    assert "t" in t.books.txs;
    longer, u := OneMore(Beginning(amount), run, t, w, Look("t", guarded), "t", allowed, k);
  }

  lemma ReviewStep(run: seq<Event>, t: State, amount: int, status: Status, k: nat, places: map<Worker, Place>, allowed: set<Lapse>,
                   w: Worker) returns (longer: seq<Event>, u: State)
    requires Reaches(run, t, amount, status, k, places, allowed) && (w in places ==> places[w] == Idle) && IsReversalEligible(status)
    ensures Reaches(longer, u, amount, status, k, places[w := Reviewing("t")], allowed)
  {
    hide L.Moved, Leads;
    assert "t" in t.books.txs;
    longer, u := OneMore(Beginning(amount), run, t, w, Review("t"), "t", allowed, k);
  }

  lemma PostStep(run: seq<Event>, t: State, amount: int, status: Status, k: nat, places: map<Worker, Place>, allowed: set<Lapse>,
                 w: Worker, fate: Fate) returns (longer: seq<Event>, u: State)
    requires Reaches(run, t, amount, status, k, places, allowed) && k < 2 && !fate.Refuses?
    requires w in places && places[w].Looked? && places[w].tx == "t" && (fate.Works? || Lost in allowed)
    requires if places[w].guarded
             then Late in allowed || (IsReversalEligible(status) && forall v | v in places :: !InHand(places[v], "t"))
             else Unguarded in allowed
    ensures Reaches(longer, u, amount, status, k + 1, places[w := if fate.Works? then Posted("t") else Idle], allowed)
  {
    PostAt(t, amount, status, k, places, w, fate);
    hide L.Moved, Leads, L.Step, L.Reverse;
    assert "t" in t.books.txs && L.Eligible(t.books, "t") == IsReversalEligible(status);
    longer, u := OneMore(Beginning(amount), run, t, w, Post(NameAt(k), fate), "t", allowed, k);
  }

  lemma CheckStep(run: seq<Event>, t: State, amount: int, status: Status, k: nat, places: map<Worker, Place>, allowed: set<Lapse>,
                  w: Worker, readable: bool) returns (longer: seq<Event>, u: State)
    requires Reaches(run, t, amount, status, k, places, allowed) && w in places && places[w] == Posted("t")
    requires (readable || Unmarked in allowed) && (readable && !IsValidTransition(status, Reversed) ==> Early in allowed)
    ensures var marks := readable && IsValidTransition(status, Reversed);
            Reaches(longer, u, amount, status, k, places[w := if marks then Marking("t") else Idle], allowed)
  {
    hide L.Moved, Leads, NextStatuses;
    assert "t" in t.books.txs;
    longer, u := OneMore(Beginning(amount), run, t, w, Check(readable), "t", allowed, k);
  }

  lemma WriteStep(run: seq<Event>, t: State, amount: int, status: Status, k: nat, places: map<Worker, Place>, allowed: set<Lapse>, w: Worker)
    returns (longer: seq<Event>, u: State)
    requires Reaches(run, t, amount, status, k, places, allowed) && w in places
    requires || (places[w] == Marking("t") && (IsValidTransition(status, Reversed) || Stale in allowed))
             || (places[w] == Reviewing("t") && (IsReversalEligible(status) || Stale in allowed))
    ensures Reaches(longer, u, amount, if places[w].Marking? then Reversed else HeldForReview, k, places[w := Idle], allowed)
  {
    var next := if places[w].Marking? then Reversed else HeldForReview;
    StatusAt(t, Move(t.(books := L.Overwritten(t.books, "t", next)), w, Idle), amount, status, next, k, places, w);
    hide L.Moved, Leads, NextStatuses;
    assert "t" in t.books.txs;
    longer, u := OneMore(Beginning(amount), run, t, w, Write(true), "t", allowed, k);
  }

  /** One reversal as it should be, by one worker. */
  lemma ReversedProperly(run: seq<Event>, t: State, amount: int, places: map<Worker, Place>, allowed: set<Lapse>)
    returns (longer: seq<Event>, u: State)
    requires Reaches(run, t, amount, Completed, 0, places, allowed) && 0 !in places && forall v | v in places :: !InHand(places[v], "t")
    ensures Reaches(longer, u, amount, Reversed, 1, places[0 := Idle], allowed)
  {
    hide Reaches;
    longer, u := LookStep(run, t, amount, Completed, 0, places, allowed, 0, true);
    var p1 := places[0 := Looked("t", true)];
    longer, u := PostStep(longer, u, amount, Completed, 0, p1, allowed, 0, Works);
    var p2 := p1[0 := Posted("t")];
    longer, u := CheckStep(longer, u, amount, Completed, 1, p2, allowed, 0, true);
    var p3 := p2[0 := Marking("t")];
    longer, u := WriteStep(longer, u, amount, Completed, 1, p3, allowed, 0);
    assert p3[0 := Idle] == places[0 := Idle];
  }

  /** A second one, where the status allows it or nobody looks. */
  lemma ReversedAgain(run: seq<Event>, t: State, amount: int, status: Status, places: map<Worker, Place>, allowed: set<Lapse>, guarded: bool)
    returns (longer: seq<Event>, u: State, after: map<Worker, Place>)
    requires Reaches(run, t, amount, status, 1, places, allowed) && 0 in places && places[0] == Idle
    requires if guarded then IsReversalEligible(status) && forall v | v in places :: !InHand(places[v], "t") else Unguarded in allowed
    ensures Reaches(longer, u, amount, status, 2, after, allowed)
  {
    hide Reaches;
    longer, u := LookStep(run, t, amount, status, 1, places, allowed, 0, guarded);
    longer, u := PostStep(longer, u, amount, status, 1, places[0 := Looked("t", guarded)], allowed, 0, Works);
    after := places[0 := Looked("t", guarded)][0 := Posted("t")];
  }

  /** A reversal that ends without marking the transaction, and a second one. */
  lemma UnmarkedTwice(amount: int, status: Status, fate: Fate, readable: bool, allowed: set<Lapse>)
    returns (run: seq<Event>, t: State, places: map<Worker, Place>)
    requires amount > 0 && IsReversalEligible(status) && !fate.Refuses?
    requires if fate.Loses? then Lost in allowed
             else if readable then Early in allowed && !IsValidTransition(status, Reversed) else Unmarked in allowed
    ensures Reaches(run, t, amount, status, 2, places, allowed)
  {
    hide Reaches, NextStatuses;
    run, t := Started(amount, status, allowed);
    run, t := LookStep(run, t, amount, status, 0, map[], allowed, 0, true);
    run, t := PostStep(run, t, amount, status, 0, map[0 := Looked("t", true)], allowed, 0, fate);
    if fate.Works? {
      assert map[0 := Looked("t", true)][0 := Posted("t")] == map[0 := Posted("t")];
      run, t := CheckStep(run, t, amount, status, 1, map[0 := Posted("t")], allowed, 0, readable);
      assert map[0 := Posted("t")][0 := Idle] == map[0 := Idle];
    } else {
      assert map[0 := Looked("t", true)][0 := Idle] == map[0 := Idle];
    }
    run, t, places := ReversedAgain(run, t, amount, status, map[0 := Idle], allowed, true);
  }

  lemma UnguardedTwice(amount: int) returns (run: seq<Event>, t: State, places: map<Worker, Place>)
    requires amount > 0
    ensures Reaches(run, t, amount, Reversed, 2, places, {Unguarded})
  {
    hide Reaches, NextStatuses;
    run, t := Started(amount, Completed, {Unguarded});
    run, t := ReversedProperly(run, t, amount, map[], {Unguarded});
    run, t, places := ReversedAgain(run, t, amount, Reversed, map[0 := Idle], {Unguarded}, false);
  }

  /** Two workers look before either posts. */
  lemma LateTwice(amount: int) returns (run: seq<Event>, t: State, places: map<Worker, Place>)
    requires amount > 0
    ensures Reaches(run, t, amount, Completed, 2, places, {Late})
  {
    hide Reaches, NextStatuses;
    run, t := Started(amount, Completed, {Late});
    run, t := LookStep(run, t, amount, Completed, 0, map[], {Late}, 0, true);
    var p1 := map[0 := Looked("t", true)];
    run, t := LookStep(run, t, amount, Completed, 0, p1, {Late}, 1, true);
    var p2 := p1[1 := Looked("t", true)];
    run, t := PostStep(run, t, amount, Completed, 0, p2, {Late}, 0, Works);
    var p3 := p2[0 := Posted("t")];
    run, t := PostStep(run, t, amount, Completed, 1, p3, {Late}, 1, Works);
    places := p3[1 := Posted("t")];
  }

  /** A review lock that looked before the transaction was reversed writes afterwards: the transaction can be
      reversed again by calls that all look, hear their answers and mark it. */
  lemma StaleTwice(amount: int) returns (run: seq<Event>, t: State, places: map<Worker, Place>)
    requires amount > 0
    ensures Reaches(run, t, amount, HeldForReview, 2, places, {Stale})
  {
    hide Reaches, NextStatuses;
    run, t := Started(amount, Completed, {Stale});
    run, t := ReviewStep(run, t, amount, Completed, 0, map[], {Stale}, 1);
    var p1 := map[1 := Reviewing("t")];
    run, t := ReversedProperly(run, t, amount, p1, {Stale});
    var p2 := p1[0 := Idle];
    run, t := WriteStep(run, t, amount, Reversed, 1, p2, {Stale}, 1);
    run, t, places := ReversedAgain(run, t, amount, HeldForReview, p2[1 := Idle], {Stale}, true);
  }

  /** Any one lapse is enough for a funded transfer to be reversed twice, and the payer ends with the amount more
      than before. */
  lemma LapseReversesTwice(amount: int, lapse: Lapse) returns (run: seq<Event>)
    requires amount > 0
    ensures var s := Beginning(amount);
            && Legal(s, run) && AllWithin(s, run, "t", {lapse}) && Reversals(s, run, "t") >= 2
            && Run(s, run).books.cached == map["a" := 2 * amount, "b" := 0]
  {
    var t, places;
    match lapse {
      case Unguarded => run, t, places := UnguardedTwice(amount);
      case Late => run, t, places := LateTwice(amount);
      case Lost => run, t, places := UnmarkedTwice(amount, Completed, Loses, true, {Lost});
      case Unmarked => run, t, places := UnmarkedTwice(amount, Completed, Works, false, {Unmarked});
      case Early => run, t, places := UnmarkedTwice(amount, Pending, Works, true, {Early});
      case Stale => run, t, places := StaleTwice(amount);
    }
    hide L.Moved, AllWithin, Reversals, Run, Legal, Beginning;
  }

  /** No transaction is reversed twice, in any run of any number of workers, exactly when none of the lapses
      happens. */
  lemma ReversedOnceExactly(allowed: set<Lapse>)
    ensures ReversedAtMostOnce(allowed) <==> allowed == {}
  {
    hide AllWithin, Reversals, Legal, Run, LapseCount;
    if allowed == {} {
      forall s, run, tx | Legal(s, run) && AllWithin(s, run, tx, allowed) ensures Reversals(s, run, tx) <= 1 {
        NothingLapses(s, run, tx);
        ReversalsBounded(s, run, tx);
      }
    } else {
      var lapse :| lapse in allowed;
      var run := LapseReversesTwice(1, lapse);
      MoreAllowed(Beginning(1), run, "t", {lapse}, allowed);
    }
  }

  // ------------------------------------------------------------------------------------- calls as statements

  lemma FirstStep(s: State, w: Worker, a: Action, rest: seq<Event>)
    requires Enabled(s, w, a) && Legal(Step(s, w, a), rest)
    ensures Legal(s, [(w, a)] + rest) && Run(s, [(w, a)] + rest) == Run(Step(s, w, a), rest)
  {
    assert ([(w, a)] + rest)[1..] == rest;
  }

  lemma NoStep(s: State)
    ensures Legal(s, []) && Run(s, []) == s
  {
  }

  /** The statements of one reversal that looks first, with nobody else at work. */
  function GuardedCall(s: State, w: Worker, tx: Id, name: L.Name, calls: L.Calls): seq<Event> {
    if tx !in s.books.txs then []
    else if !L.Eligible(s.books, tx) then [(w, Look(tx, true))]
    else
      [(w, Look(tx, true)), (w, Post(name, calls.post))]
      + if !calls.post.Works? || L.Reverse(s.books, tx, name).None? then []
        else [(w, Check(true))] + if IsValidTransition(s.books.txs[tx].status, Reversed) then [(w, Write(calls.marks))] else []
  }

  lemma TwoMore(s: State, w: Worker, a: Action, b: Action, rest: seq<Event>)
    requires Enabled(s, w, a) && Enabled(Step(s, w, a), w, b) && Legal(Step(Step(s, w, a), w, b), rest)
    ensures Legal(s, [(w, a), (w, b)] + rest) && Run(s, [(w, a), (w, b)] + rest) == Run(Step(Step(s, w, a), w, b), rest)
  {
    hide Step, Enabled;
    FirstStep(Step(s, w, a), w, b, rest);
    FirstStep(s, w, a, [(w, b)] + rest);
    assert [(w, a)] + ([(w, b)] + rest) == [(w, a), (w, b)] + rest;
  }

  lemma MarkingSteps(s: State, w: Worker, tx: Id, marks: bool) returns (rest: seq<Event>)
    requires PlaceOf(s, w) == Posted(tx) && tx in s.books.txs
    ensures rest == [(w, Check(true))] + if IsValidTransition(s.books.txs[tx].status, Reversed) then [(w, Write(marks))] else []
    ensures Legal(s, rest) && Run(s, rest).books == L.Marked(s.books, tx, Reversed, marks) && PlaceOf(Run(s, rest), w).Idle?
  {
    hide NextStatuses;
    var t := Step(s, w, Check(true));
    if IsValidTransition(s.books.txs[tx].status, Reversed) {
      NoStep(Step(t, w, Write(marks)));
      TwoMore(s, w, Check(true), Write(marks), []);
      rest := [(w, Check(true)), (w, Write(marks))];
      assert rest + [] == rest;
    } else {
      NoStep(t);
      FirstStep(s, w, Check(true), []);
      rest := [(w, Check(true))];
      assert rest + [] == rest;
    }
  }

  /** A guarded reversal by one call is the run of its statements. */
  lemma GuardedCallIsSteps(s: State, w: Worker, tx: Id, name: L.Name, calls: L.Calls)
    requires PlaceOf(s, w).Idle?
    ensures var run := GuardedCall(s, w, tx, name, calls);
            && Legal(s, run)
            && Run(s, run).books == (if L.Eligible(s.books, tx) then L.ReverseCall(s.books, tx, name, calls) else s.books)
            && PlaceOf(Run(s, run), w).Idle?
  {
    hide L.Reverse, NextStatuses, Legal, Run;
    var look, post := Look(tx, true), Post(name, calls.post);
    if tx !in s.books.txs {
      NoStep(s);
    } else if !L.Eligible(s.books, tx) {
      NoStep(Step(s, w, look));
      FirstStep(s, w, look, []);
      assert [(w, look)] + [] == [(w, look)];
    } else {
      var t := Step(s, w, look);
      var u := Step(t, w, post);
      var rest: seq<Event> := [];
      if calls.post.Works? && L.Reverse(s.books, tx, name).Some? {
        MirroringKeepsStatus(s.books, L.Mirroring(tx, name, calls.post), tx);
        rest := MarkingSteps(u, w, tx, calls.marks);
      } else {
        NoStep(u);
      }
      TwoMore(s, w, look, post, rest);
    }
  }

  /** A change of status by one call, and a review lock, are the runs of their statements. */
  lemma ChangeIsSteps(s: State, w: Worker, tx: Id, next: Status, works: bool)
    requires PlaceOf(s, w).Idle?
    ensures var run: seq<Event> := [(w, Change(tx, next))] + if MayBecome(s.books, tx, next) then [(w, Write(works))] else [];
            Legal(s, run) && Run(s, run).books == L.Marked(s.books, tx, next, works) && PlaceOf(Run(s, run), w).Idle?
  {
    hide NextStatuses, Legal, Run;
    var t := Step(s, w, Change(tx, next));
    if MayBecome(s.books, tx, next) {
      NoStep(Step(t, w, Write(works)));
      FirstStep(t, w, Write(works), []);
      assert [(w, Write(works))] + [] == [(w, Write(works))];
      FirstStep(s, w, Change(tx, next), [(w, Write(works))]);
    } else {
      NoStep(t);
      FirstStep(s, w, Change(tx, next), []);
    }
  }

  lemma ReviewIsSteps(s: State, w: Worker, tx: Id)
    requires PlaceOf(s, w).Idle?
    ensures var run: seq<Event> := [(w, Review(tx))] + if L.Eligible(s.books, tx) then [(w, Write(true))] else [];
            && Legal(s, run) && PlaceOf(Run(s, run), w).Idle?
            && Run(s, run).books == if L.Eligible(s.books, tx) then L.Overwritten(s.books, tx, HeldForReview) else s.books
  {
    hide NextStatuses, Legal, Run;
    var t := Step(s, w, Review(tx));
    if L.Eligible(s.books, tx) {
      NoStep(Step(t, w, Write(true)));
      FirstStep(t, w, Write(true), []);
      assert [(w, Write(true))] + [] == [(w, Write(true))];
      FirstStep(s, w, Review(tx), [(w, Write(true))]);
    } else {
      NoStep(t);
      FirstStep(s, w, Review(tx), []);
    }
  }

  /** An accepted guarded reversal by one undisturbed call leaves the transaction eligible for another exactly when
      its posting's answer is lost, its marking fails, or the status it has does not allow the marking. */
  lemma LeaksExactly(b: L.Books, tx: Id, name: L.Name, calls: L.Calls)
    requires L.Eligible(b, tx) && L.Reverse(b, tx, name).Some? && !calls.post.Refuses?
    ensures L.Eligible(L.ReverseCall(b, tx, name, calls), tx)
       <==> calls.post.Loses? || !calls.marks || !IsValidTransition(b.txs[tx].status, Reversed)
  {
    hide L.Reverse;
    MirroringKeepsStatus(b, L.Mirroring(tx, name, Works), tx);
  }
}
