/** Settlement payouts of one tenant: the pending total is read, a payout recorded, and the pending
    transactions linked to it, in three separate database calls. A transaction enters the model when it
    completes. Amounts are in minor units. */
module Settlement {
  import opened Outcomes

  datatype Kind = Credit | Debit | OtherType

  /** A completed transaction; it is pending until it is linked to a payout. */
  datatype Tx = Tx(amount: int, kind: Kind, payout: Option<nat>)

  /** The rows of `payouts` are never reused; a deleted one stays as a gap. */
  datatype Payout = Payout(amount: int, fee: int, netAmount: int, deleted: bool)

  datatype Books = Books(txs: seq<Tx>, payouts: seq<Payout>)

  function Signed(t: Tx): int { match t.kind case Credit => t.amount case Debit => -t.amount case OtherType => 0 }

  function Pending(txs: seq<Tx>): int {
    if txs == [] then 0
    else Pending(txs[..|txs| - 1]) + if txs[|txs| - 1].payout.None? then Signed(txs[|txs| - 1]) else 0
  }

  function LinkedTo(txs: seq<Tx>, p: nat): int {
    if txs == [] then 0
    else LinkedTo(txs[..|txs| - 1], p) + if txs[|txs| - 1].payout == Some(p) then Signed(txs[|txs| - 1]) else 0
  }

  function Total(txs: seq<Tx>): int {
    if txs == [] then 0 else Total(txs[..|txs| - 1]) + Signed(txs[|txs| - 1])
  }

  /** What the rows of one kind amount to that are linked to a payout, or, with none, pending. */
  function AmountsOf(txs: seq<Tx>, kind: Kind, payout: Option<nat>): int {
    if txs == [] then 0
    else (if txs[0].kind == kind && txs[0].payout == payout then txs[0].amount else 0) + AmountsOf(txs[1..], kind, payout)
  }

  lemma {:induction false} AmountsOne(txs: seq<Tx>, t: Tx, kind: Kind, payout: Option<nat>)
    ensures AmountsOf(txs + [t], kind, payout)
         == AmountsOf(txs, kind, payout) + if t.kind == kind && t.payout == payout then t.amount else 0
  {
    if txs == [] {
      assert [] + [t] == [t] && [t][1..] == [];
    } else {
      assert (txs + [t])[1..] == txs[1..] + [t];
      AmountsOne(txs[1..], t, kind, payout);
    }
  }

  /** What is pending, and what is linked to a payout, are the credits less the debits; other kinds add nothing. */
  lemma {:induction false} SumsByKind(txs: seq<Tx>, p: nat)
    ensures Pending(txs) == AmountsOf(txs, Credit, None) - AmountsOf(txs, Debit, None)
    ensures LinkedTo(txs, p) == AmountsOf(txs, Credit, Some(p)) - AmountsOf(txs, Debit, Some(p))
  {
    if txs != [] {
      var n := |txs| - 1;
      SumsByKind(txs[..n], p);
      assert txs == txs[..n] + [txs[n]];
      AmountsOne(txs[..n], txs[n], Credit, None);
      AmountsOne(txs[..n], txs[n], Debit, None);
      AmountsOne(txs[..n], txs[n], Credit, Some(p));
      AmountsOne(txs[..n], txs[n], Debit, Some(p));
    }
  }

  /** Links every pending transaction. */
  function Link(txs: seq<Tx>, p: nat): seq<Tx> {
    seq(|txs|, i requires 0 <= i < |txs| => if txs[i].payout.None? then txs[i].(payout := Some(p)) else txs[i])
  }

  predicate Payable(amount: int, fee: int) { amount > 0 && amount - fee > 0 }

  function Recorded(b: Books, amount: int, fee: int): Books {
    b.(payouts := b.payouts + [Payout(amount, fee, amount - fee, false)])
  }

  function Deleted(b: Books, p: nat): Books
    requires p < |b.payouts|
  {
    b.(payouts := b.payouts[p := b.payouts[p].(deleted := true)])
  }

  /** The fates of recording, linking and deleting; nobody looks at the answer of the deletion. */
  datatype Calls = Calls(insert: Fate, link: Fate, undo: bool)

  /** A whole payout with nothing else happening meanwhile. */
  function Payoff(b: Books, fee: int, calls: Calls): (Books, Option<nat>) {
    var amount, p := Pending(b.txs), |b.payouts|;
    if !Payable(amount, fee) || calls.insert.Refuses? then (b, None)
    else if calls.insert.Loses? then (Recorded(b, amount, fee), None)
    else
      var recorded := Recorded(b, amount, fee);
      var linked := if calls.link.Refuses? then recorded else recorded.(txs := Link(b.txs, p));
      if calls.link.Works? then (linked, Some(p))
      else (if calls.undo then Deleted(linked, p) else linked, None)
  }

  class SettlementEngine {
    var txs: seq<Tx>
    var payouts: seq<Payout>

    ghost function Now(): Books
      reads this
    {
      Books(txs, payouts)
    }

    method CalculatePendingSettlement() returns (total: int)
      ensures total == Pending(txs)
      ensures total == AmountsOf(txs, Credit, None) - AmountsOf(txs, Debit, None)
    {
      SumsByKind(txs, 0);
      hide AmountsOf;
      total := 0;
      var i := 0;
      while i < |txs|
        invariant i <= |txs| && total == Pending(txs[..i])
      {
        assert txs[..i + 1][..i] == txs[..i];
        if txs[i].payout.None? {
          match txs[i].kind
          case Credit => total := total + txs[i].amount;
          case Debit => total := total - txs[i].amount;
          case OtherType =>
        }
        i := i + 1;
      }
      assert txs[..i] == txs;
    }

    method RecordPayout(amount: int, fee: int, fate: Fate) returns (row: Option<nat>)
      modifies `payouts
      ensures row == if fate.Works? then Some(|old(payouts)|) else None
      ensures Now() == if fate.Refuses? then old(Now()) else Recorded(old(Now()), amount, fee)
    {
      if fate == Refuses { return None; }
      row := if fate == Works then Some(|payouts|) else None;
      payouts := payouts + [Payout(amount, fee, amount - fee, false)];
    }

    method LinkTransactions(p: nat, fate: Fate) returns (ok: bool)
      modifies `txs
      ensures ok == fate.Works? && txs == if fate.Refuses? then old(txs) else Link(old(txs), p)
    {
      if fate != Refuses { txs := Link(txs, p); }
      return fate == Works;
    }

    method TriggerPayout(fee: int, calls: Calls) returns (payout: Option<nat>)
      modifies this
      ensures (Now(), payout) == Payoff(old(Now()), fee, calls)
    {
      var amount := CalculatePendingSettlement();
      if amount <= 0 { return None; }
      var netAmount := amount - fee;
      if netAmount <= 0 { return None; }
      payout := RecordPayout(amount, fee, calls.insert);
      if payout.None? { return; }
      var linked := LinkTransactions(payout.value, calls.link);
      if !linked {
        if calls.undo { payouts := payouts[payout.value := payouts[payout.value].(deleted := true)]; }
        return None;
      }
    }
  }

  // ----------------------------------------------------------------------------------------- sums and links

  lemma {:induction false} LinkMoves(txs: seq<Tx>, p: nat, q: nat)
    requires LinkedTo(txs, p) == 0 && forall t | t in txs :: t.payout != Some(p)
    ensures Pending(Link(txs, p)) == 0 && Total(Link(txs, p)) == Total(txs)
    ensures LinkedTo(Link(txs, p), p) == Pending(txs)
    ensures q != p ==> LinkedTo(Link(txs, p), q) == LinkedTo(txs, q)
    decreases |txs|
  {
    if txs != [] {
      var n := |txs| - 1;
      assert Link(txs, p)[..n] == Link(txs[..n], p);
      LinkMoves(txs[..n], p, q);
    }
  }

  lemma {:induction false} NoneLinked(txs: seq<Tx>, p: nat)
    requires forall t | t in txs :: t.payout != Some(p)
    ensures LinkedTo(txs, p) == 0
    decreases |txs|
  {
    if txs != [] { NoneLinked(txs[..|txs| - 1], p); }
  }

  /** The gross amounts of the payouts on record. */
  function Gross(payouts: seq<Payout>): int {
    if payouts == [] then 0
    else Gross(payouts[..|payouts| - 1]) + if payouts[|payouts| - 1].deleted then 0 else payouts[|payouts| - 1].amount
  }

  /** Every payout on record is backed by the transactions linked to it, deleted ones by none, and what was
      paid out and what is pending add up to everything that completed. */
  ghost predicate Backed(b: Books) {
    && (forall p | 0 <= p < |b.payouts| ::
          LinkedTo(b.txs, p) == if b.payouts[p].deleted then 0 else b.payouts[p].amount)
    && (forall t | t in b.txs :: t.payout.Some? ==> t.payout.value < |b.payouts|)
    && Gross(b.payouts) + Pending(b.txs) == Total(b.txs)
    && (forall p | 0 <= p < |b.payouts| ::
          b.payouts[p].amount > 0 && b.payouts[p].netAmount == b.payouts[p].amount - b.payouts[p].fee > 0)
  }

  lemma LinkedPayoff(b: Books, fee: int)
    requires Backed(b) && Payable(Pending(b.txs), fee)
    ensures Backed(Recorded(b, Pending(b.txs), fee).(txs := Link(b.txs, |b.payouts|)))
  {
    var p, row := |b.payouts|, Payout(Pending(b.txs), fee, Pending(b.txs) - fee, false);
    var after := Recorded(b, Pending(b.txs), fee).(txs := Link(b.txs, p));
    NoneLinked(b.txs, p);
    GrossOne(b.payouts, row);
    LinkMoves(b.txs, p, p);
    hide Gross, Pending, LinkedTo, Total;
    assert after.payouts == b.payouts + [row];
    forall q | 0 <= q < |after.payouts|
      ensures LinkedTo(after.txs, q) == if after.payouts[q].deleted then 0 else after.payouts[q].amount
    {
      LinkMoves(b.txs, p, q);
    }
  }

  lemma UndonePayoff(b: Books, fee: int)
    requires Backed(b) && Payable(Pending(b.txs), fee)
    ensures Backed(Deleted(Recorded(b, Pending(b.txs), fee), |b.payouts|))
  {
    var p, gap := |b.payouts|, Payout(Pending(b.txs), fee, Pending(b.txs) - fee, true);
    NoneLinked(b.txs, p);
    GrossOne(b.payouts, gap);
    hide Gross, Pending, LinkedTo, Total;
    assert Deleted(Recorded(b, Pending(b.txs), fee), p).payouts == b.payouts + [gap];
  }

  lemma StrandedPayoff(b: Books, fee: int)
    requires Backed(b) && Payable(Pending(b.txs), fee)
    ensures !Backed(Recorded(b, Pending(b.txs), fee))
  {
    var p := |b.payouts|;
    NoneLinked(b.txs, p);
    hide Gross, Pending, LinkedTo, Total;
    var after := Recorded(b, Pending(b.txs), fee);
    assert LinkedTo(after.txs, p) != after.payouts[p].amount;
  }

  lemma OrphanedLinks(b: Books, fee: int)
    requires Backed(b) && Payable(Pending(b.txs), fee)
    ensures !Backed(Deleted(Recorded(b, Pending(b.txs), fee).(txs := Link(b.txs, |b.payouts|)), |b.payouts|))
  {
    var p := |b.payouts|;
    NoneLinked(b.txs, p);
    LinkMoves(b.txs, p, p);
    hide Gross, Pending, LinkedTo, Total, Link;
    var after := Deleted(Recorded(b, Pending(b.txs), fee).(txs := Link(b.txs, p)), p);
    assert after.payouts[p].deleted && LinkedTo(after.txs, p) != 0;
  }

  /** What an attempt's calls must do for its record and its links to agree in the end: the record is
      refused, or it is answered and then the link is answered, or refused and undone, or lost and not
      undone. */
  predicate Settles(calls: Calls) {
    match calls.insert
    case Refuses => true
    case Loses => false
    case Works => match calls.link case Works => true case Refuses => calls.undo case Loses => !calls.undo
  }

  /** A payable attempt leaves the books backed exactly when its calls settle, and one that is not payable
      changes nothing. */
  lemma PayoffKeepsBackedExactly(b: Books, fee: int, calls: Calls)
    requires Backed(b)
    ensures Backed(Payoff(b, fee, calls).0) <==> !Payable(Pending(b.txs), fee) || Settles(calls)
  {
    hide Backed, Link, Pending;
    if Payable(Pending(b.txs), fee) {
      LinkedPayoff(b, fee);
      UndonePayoff(b, fee);
      StrandedPayoff(b, fee);
      OrphanedLinks(b, fee);
    }
  }

  /** The three ways to fail, on one pending transaction: a record whose answer is lost and one whose refused
      link is not undone have no transactions, and a link whose answer is lost is left with a deleted
      record. */
  lemma CallsThatDoNotSettle(amount: int)
    requires amount > 0
    ensures var b := Books([Tx(amount, Credit, None)], []);
            && Payoff(b, 0, Calls(Loses, Works, true)) == (Books(b.txs, [Payout(amount, 0, amount, false)]), None)
            && Payoff(b, 0, Calls(Works, Refuses, false)) == (Books(b.txs, [Payout(amount, 0, amount, false)]), None)
            && Payoff(b, 0, Calls(Works, Loses, true))
            == (Books([Tx(amount, Credit, Some(0))], [Payout(amount, 0, amount, true)]), None)
  {
    var t := Tx(amount, Credit, None);
    assert [t][..0] == [] && Pending([t]) == amount;
    assert Link([t], 0) == [Tx(amount, Credit, Some(0))];
    var row := Payout(amount, 0, amount, false);
    assert [] + [row] == [row] && [row][0 := row.(deleted := true)] == [row.(deleted := true)];
  }

  /** A payout is recorded exactly when what is pending, credits less debits, and what the fee leaves of it are positive
      and the insert is not refused; its gross is that sum, and its net what the fee leaves. */
  lemma PayoutIsCreditsLessDebits(b: Books, fee: int, calls: Calls)
    ensures var gross := AmountsOf(b.txs, Credit, None) - AmountsOf(b.txs, Debit, None);
            var after := Payoff(b, fee, calls).0.payouts;
            if gross > 0 && gross - fee > 0 && !calls.insert.Refuses?
            then |after| == |b.payouts| + 1 && after[..|b.payouts|] == b.payouts && after[|b.payouts|].amount == gross
                 && after[|b.payouts|].fee == fee && after[|b.payouts|].netAmount == gross - fee
            else after == b.payouts
  {
    SumsByKind(b.txs, 0);
    hide AmountsOf, Pending;
  }

  lemma GrossOne(payouts: seq<Payout>, p: Payout)
    ensures Gross(payouts + [p]) == Gross(payouts) + if p.deleted then 0 else p.amount
  {
    assert (payouts + [p])[..|payouts|] == payouts;
  }

  lemma Arrives(b: Books, t: Tx)
    requires Backed(b) && t.payout.None?
    ensures Backed(b.(txs := b.txs + [t]))
  {
    var txs := b.txs + [t];
    assert txs[..|b.txs|] == b.txs;
    forall p | 0 <= p < |b.payouts| ensures LinkedTo(txs, p) == LinkedTo(b.txs, p) {}
  }

  /** A failed link that is undone changes nothing but the gap it leaves. */
  lemma UndonePayoffChangesNothing(b: Books, fee: int, calls: Calls)
    requires calls.insert.Works? && calls.link.Refuses? && calls.undo
    ensures var (after, paid) := Payoff(b, fee, calls);
            paid.None? && after.txs == b.txs && Gross(after.payouts) == Gross(b.payouts)
            && |b.payouts| <= |after.payouts| && after.payouts[..|b.payouts|] == b.payouts
  {
    var gap := Payout(Pending(b.txs), fee, Pending(b.txs) - fee, true);
    GrossOne(b.payouts, gap);
    if Payoff(b, fee, calls).0 != b { assert Payoff(b, fee, calls).0.payouts == b.payouts + [gap]; }
  }

  // ----------------------------------------------------------------------------------------- atomic payouts

  datatype Event = Completion(amount: int, kind: Kind) | Attempt(fee: int, calls: Calls)

  function Apply(b: Books, e: Event): Books {
    match e
    case Completion(amount, kind) => b.(txs := b.txs + [Tx(amount, kind, None)])
    case Attempt(fee, calls) => Payoff(b, fee, calls).0
  }

  function History(b: Books, events: seq<Event>): Books
    decreases |events|
  {
    if events == [] then b else History(Apply(b, events[0]), events[1..])
  }

  /** Over any run of completions and undivided payouts whose calls settle, every payout is backed and nothing
      is lost or paid twice; a link once made stays. */
  lemma {:induction false} HistoryStaysBacked(b: Books, events: seq<Event>)
    requires Backed(b) && forall e | e in events && e.Attempt? :: Settles(e.calls)
    ensures Backed(History(b, events))
    ensures |b.txs| <= |History(b, events).txs|
    ensures forall i | 0 <= i < |b.txs| && b.txs[i].payout.Some? :: History(b, events).txs[i] == b.txs[i]
    decreases |events|
  {
    hide Backed;
    if events != [] {
      assert events[0] in events;
      match events[0] {
        case Completion(amount, kind) => Arrives(b, Tx(amount, kind, None));
        case Attempt(fee, calls) => PayoffKeepsBackedExactly(b, fee, calls);
      }
      HistoryStaysBacked(Apply(b, events[0]), events[1..]);
    }
  }

  /** The transactions that complete in a run, in order. */
  function Completed(events: seq<Event>): seq<Tx> {
    if events == [] then []
    else (if events[0].Completion? then [Tx(events[0].amount, events[0].kind, None)] else []) + Completed(events[1..])
  }

  /** Over any such run the transactions are those there were and those that completed, in order, and only their links
      have changed. */
  lemma {:induction false} HistoryKeepsTransactions(b: Books, events: seq<Event>)
    ensures var all, after := b.txs + Completed(events), History(b, events).txs;
            |after| == |all| && forall i | 0 <= i < |all| :: after[i].(payout := all[i].payout) == all[i]
    decreases |events|
  {
    hide Pending;
    if events != [] {
      HistoryKeepsTransactions(Apply(b, events[0]), events[1..]);
      assert events[0].Completion? ==> Apply(b, events[0]).txs + Completed(events[1..]) == b.txs + Completed(events);
      assert events[0].Attempt? ==> Completed(events) == Completed(events[1..]);
    }
  }
}
