/** What the ledger accepts, said of the tables, and what it never does twice. */
module LedgerAcceptance {
  import opened Basics
  import opened Ledger
  import opened Outcomes
  import opened TransactionStatus
  import opened Words

  // --------------------------------------------------------------------------------- names used only once

  /** The names of the transactions that a run posts, in order. */
  function PostedNames(b: Books, actions: seq<Action>): seq<Name>
    decreases |actions|
  {
    if actions == [] then []
    else
      var o := OrderOf(b, actions[0]);
      (if o.Some? && Post(b, o.value).Some? then [o.value.name] else []) + PostedNames(Step(b, actions[0]), actions[1..])
  }

  /** The reference that counts: the one given, or the identifier where it is blank. */
  function Counting(name: Name): string { if Stripped(name.reference) == "" then name.id else Stripped(name.reference) }

  lemma StepNames(b: Books, a: Action)
    ensures var o, after := OrderOf(b, a), Step(b, a);
            if o.Some? && Post(b, o.value).Some?
            then && o.value.name.id !in b.txs && Counting(o.value.name) !in b.references
                 && after.txs.Keys == b.txs.Keys + {o.value.name.id} && after.references == b.references + {Counting(o.value.name)}
            else after.txs.Keys == b.txs.Keys && after.references == b.references
  {
    hide Prepared, Settle, Open, Net, BalancedInEach, Stripped, MirrorsOf;
  }

  lemma {:induction false} NamesAreNew(b: Books, actions: seq<Action>)
    ensures forall n | n in PostedNames(b, actions) :: n.id !in b.txs && Counting(n) !in b.references
    ensures forall i, j | 0 <= i < j < |PostedNames(b, actions)| ::
              var names := PostedNames(b, actions); names[i].id != names[j].id && Counting(names[i]) != Counting(names[j])
    decreases |actions|
  {
    hide Post, Step, OrderOf, Counting;
    if actions != [] {
      StepNames(b, actions[0]);
      NamesAreNew(Step(b, actions[0]), actions[1..]);
      var o, rest := OrderOf(b, actions[0]), PostedNames(Step(b, actions[0]), actions[1..]);
      if o.Some? && Post(b, o.value).Some? {
        assert PostedNames(b, actions) == [o.value.name] + rest;
        assert forall n | n in rest :: n.id != o.value.name.id && Counting(n) != Counting(o.value.name);
      } else {
        assert PostedNames(b, actions) == rest;
      }
    }
  }

  /** In every run from empty tables, with refused and lost calls, no two transactions that were posted, reversals
      among them, have the same identifier, or the same reference without the blanks around it, the identifier
      standing for a blank one. */
  lemma NoNamePostsTwice(cached: map<Id, int>, currencies: map<Id, string>, actions: seq<Action>, i: nat, j: nat)
    requires i < j < |PostedNames(Opened(cached, currencies), actions)|
    ensures var names := PostedNames(Opened(cached, currencies), actions); var a, b := names[i], names[j];
            && a.id != b.id
            && (if Stripped(a.reference) == "" then a.id else Stripped(a.reference))
               != (if Stripped(b.reference) == "" then b.id else Stripped(b.reference))
  {
    hide PostedNames, Stripped;
    NamesAreNew(Opened(cached, currencies), actions);
  }

  /** Stripping takes off blanks at both ends, all of them, and nothing else. */
  lemma {:induction false} StrippedExactly(s: string) returns (i: nat, j: nat)
    ensures i <= j <= |s| && Stripped(s) == s[i..j]
    ensures (forall k | 0 <= k < i :: s[k] == ' ') && (forall k | j <= k < |s| :: s[k] == ' ')
    ensures Stripped(s) != "" ==> s[i] != ' ' && s[j - 1] != ' '
    decreases |s|
  {
    if s != "" && s[0] == ' ' {
      i, j := StrippedExactly(s[1..]);
      assert s[1..][i..j] == s[i + 1..j + 1];
      assert forall k | 1 <= k < |s| :: s[k] == s[1..][k - 1];
      i, j := i + 1, j + 1;
    } else if s != "" && s[|s| - 1] == ' ' {
      i, j := StrippedExactly(s[..|s| - 1]);
      assert s[..|s| - 1][i..j] == s[i..j];
      assert forall k | 0 <= k < |s| - 1 :: s[k] == s[..|s| - 1][k];
    } else {
      i, j := 0, |s|;
    }
  }

  // ------------------------------------------------------------------------------------- what is accepted

  /** A leg that can be posted: a positive amount on a wallet that is known and not locked, in no currency or in the
      wallet's. */
  predicate Postable(b: Books, e: Entry) {
    && e.wallet.Some? && e.wallet.value in b.cached && e.wallet.value !in b.locked && e.wallet.value in b.currencies
    && e.amount > 0 && (Stripped(e.currency) == "" || Upper(Stripped(e.currency)) == b.currencies[e.wallet.value])
  }

  /** Each debit is covered by its wallet's balance and the legs up to it. */
  predicate Affordable(cached: map<Id, int>, entries: seq<Entry>) {
    forall k | 0 <= k < |entries| && entries[k].wallet.Some? && entries[k].wallet.value in cached && !entries[k].credit ::
      cached[entries[k].wallet.value] + NetFor(entries[..k + 1], entries[k].wallet.value) >= 0
  }

  lemma {:induction false} PreparedExactly(request: seq<Entry>)
    ensures forall e :: e in Prepared(request) <==> e in request && e.wallet.Some?
  {
    if request != [] { PreparedExactly(request[1..]); }
  }

  lemma NoneIn(entries: seq<Entry>, currencies: map<Id, string>, c: string)
    requires c !in CurrenciesOf(entries, currencies)
    ensures NetIn(entries, currencies, c) == 0
  {
    UntouchedCurrency(entries, currencies, c);
  }

  /** A transaction is accepted exactly when its identifier and its reference are new; it has legs on wallets, and each
      can be posted; no wallet its header names is locked; the legs balance, in total and in each currency; and each
      debit is covered. */
  lemma AcceptedExactly(b: Books, o: Order)
    ensures Post(b, o).Some?
      <==> && o.name.id !in b.txs
           && (if Stripped(o.name.reference) == "" then o.name.id else Stripped(o.name.reference)) !in b.references
           && (exists e :: e in o.request && e.wallet.Some?)
           && (forall e | e in o.request && e.wallet.Some? :: Postable(b, e))
           && (forall p | p in o.parties && p in b.cached :: p !in b.locked)
           && Net(Prepared(o.request)) == 0 && (forall c :: NetIn(Prepared(o.request), b.currencies, c) == 0)
           && Affordable(b.cached, Prepared(o.request))
  {
    var entries := Prepared(o.request);
    PostExactly(b, o);
    PreparedExactly(o.request);
    EachCurrency(entries, b.currencies);
    CoveredExactly(b, entries);
    hide Post, Prepared, Stripped, NetIn, Net, BalancedInEach, Covered, Affordable;
    if entries != [] { assert entries[0] in entries; }
    assert (forall e | e in entries :: Postable(b, e)) <==> forall e | e in o.request && e.wallet.Some? :: Postable(b, e);
  }

  lemma PostExactly(b: Books, o: Order)
    ensures var entries := Prepared(o.request);
            Post(b, o).Some?
            <==> && o.name.id !in b.txs
                 && (if Stripped(o.name.reference) == "" then o.name.id else Stripped(o.name.reference)) !in b.references
                 && entries != []
                 && (forall e | e in entries :: e.wallet.Some? && e.wallet.value in b.cached && e.wallet.value !in b.locked)
                 && (forall p | p in o.parties && p in b.cached :: p !in b.locked)
                 && Net(entries) == 0 && BalancedInEach(entries, b.currencies) && Covered(b.cached, b.currencies, entries)
  {
    hide Prepared, Settle, Stripped, Net, BalancedInEach, Covered;
    SettlesExactly(b.cached, b.currencies, Prepared(o.request));
  }

  lemma EachCurrency(entries: seq<Entry>, currencies: map<Id, string>)
    ensures BalancedInEach(entries, currencies) <==> forall c :: NetIn(entries, currencies, c) == 0
  {
    hide NetIn;
    if BalancedInEach(entries, currencies) {
      forall c ensures NetIn(entries, currencies, c) == 0 {
        if c !in CurrenciesOf(entries, currencies) { NoneIn(entries, currencies, c); }
      }
      assert forall c :: NetIn(entries, currencies, c) == 0;
    } else {
      var c :| c in CurrenciesOf(entries, currencies) && NetIn(entries, currencies, c) != 0;
      assert exists x :: NetIn(entries, currencies, x) != 0;
    }
  }

  /** Open and covered, leg by leg. */
  lemma CoveredExactly(b: Books, entries: seq<Entry>)
    ensures Covered(b.cached, b.currencies, entries)
              && (forall e | e in entries :: e.wallet.Some? && e.wallet.value in b.cached && e.wallet.value !in b.locked)
       <==> (forall e | e in entries :: Postable(b, e)) && Affordable(b.cached, entries)
  {
    hide Stripped, NetFor;
    assert forall k | 0 <= k < |entries| :: entries[k] in entries;
  }

  // ------------------------------------------------------------------------------- balances by their words

  /** What the rows of a wallet amount to whose side, or without one whose type, is one of these words in any letter
      case. */
  function AmountsOf(rows: seq<Row>, w: Id, words: set<string>): int {
    if rows == [] then 0
    else (if rows[0].wallet == Some(w) && Upper(if rows[0].side != "" then rows[0].side else rows[0].entryType) in words
          then rows[0].amount else 0)
         + AmountsOf(rows[1..], w, words)
  }

  lemma {:induction false} AmountsOne(rows: seq<Row>, r: Row, w: Id, words: set<string>)
    ensures AmountsOf(rows + [r], w, words) == AmountsOf(rows, w, words) + AmountsOf([r], w, words)
  {
    hide Upper;
    assert [r][1..] == [];
    if rows == [] {
      assert [] + [r] == [r];
    } else {
      assert (rows + [r])[1..] == rows[1..] + [r];
      AmountsOne(rows[1..], r, w, words);
    }
  }

  /** A balance is the credits, deposits and refunds less the debits, withdrawals and payments. */
  lemma {:induction false} BalanceByWords(rows: seq<Row>, w: Id)
    ensures Balance(rows, w)
         == AmountsOf(rows, w, {"CREDIT", "DEPOSIT", "REFUND"}) - AmountsOf(rows, w, {"DEBIT", "WITHDRAWAL", "PAYMENT"})
  {
    if rows != [] {
      var n := |rows| - 1;
      BalanceByWords(rows[..n], w);
      assert rows == rows[..n] + [rows[n]] && [rows[n]][1..] == [];
      AmountsOne(rows[..n], rows[n], w, {"CREDIT", "DEPOSIT", "REFUND"});
      AmountsOne(rows[..n], rows[n], w, {"DEBIT", "WITHDRAWAL", "PAYMENT"});
      WordEffect(rows[n], w);
      hide Upper, AmountsOf, Effect;
    }
  }

  lemma WordEffect(r: Row, w: Id)
    ensures AmountsOf([r], w, {"CREDIT", "DEPOSIT", "REFUND"}) - AmountsOf([r], w, {"DEBIT", "WITHDRAWAL", "PAYMENT"})
         == if r.wallet == Some(w) then Effect(r) else 0
  {
    hide Upper;
    assert [r][1..] == [];
  }

  /** A reversal asks for one leg for each row of the transaction, in order: the same wallet and amount, a credit just
      where the row's type is not the word for one, and the row's currency, or that of the transaction where the row
      has none, or shillings where neither has one. */
  lemma MirrorsExactly(b: Books, tx: Id, i: nat)
    requires tx in b.txs && i < |RowsOf(b.rows, tx)|
    ensures |MirrorsOf(b, tx)| == |RowsOf(b.rows, tx)|
    ensures var row, leg, header := RowsOf(b.rows, tx)[i], MirrorsOf(b, tx)[i], b.txs[tx].currency;
            && leg.wallet == row.wallet && leg.amount == row.amount && (leg.credit <==> row.entryType != "CREDIT")
            && (row.currency != "" ==> leg.currency == row.currency)
            && (row.currency == "" && header != "" ==> leg.currency == header)
            && (row.currency == "" && header == "" ==> leg.currency == "TZS")
  {
    hide RowsOf;
  }

  /** Whether a wallet is locked after a run: as its last lock or unlock in it says, or as before. */
  function LockedAfter(actions: seq<Action>, w: Id, before: bool): bool {
    if actions == [] then before
    else LockedAfter(actions[1..], w, if actions[0].WalletLock? && actions[0].wallet == w then actions[0].on else before)
  }

  lemma {:induction false} LocksExactly(b: Books, actions: seq<Action>, w: Id)
    ensures w in Run(b, actions).locked <==> LockedAfter(actions, w, w in b.locked)
    decreases |actions|
  {
    if actions != [] {
      StepLocks(b, actions[0], w);
      hide Step;
      LocksExactly(Step(b, actions[0]), actions[1..], w);
    }
  }

  lemma StepLocks(b: Books, a: Action, w: Id)
    ensures w in Step(b, a).locked <==> if a.WalletLock? && a.wallet == w then a.on else w in b.locked
  {
    hide Settle, Prepared, RowsFor, BalancedInEach, Reference;
  }

  /** An allocation to a budget is made exactly when its identifier and reference are new and its wallet is known, not
      locked, of the budget's currency, and covers a positive amount. It takes the amount from the wallet, from the
      balance that is kept and from the one its rows give, and from no other wallet, and leaves a completed transaction
      in that currency. */
  lemma BudgetAllocationExactly(b: Books, name: Name, w: Id, amount: int, currency: string, other: Id)
    ensures var done := AllocateToBudget(b, name, w, amount, currency);
            && (done.Some?
                <==> && name.id !in b.txs && Counting(name) !in b.references
                     && w in b.cached && w !in b.locked && w in b.currencies && b.currencies[w] == currency
                     && 0 < amount <= b.cached[w])
            && (done.Some? ==>
                  && done.value.cached == b.cached[w := b.cached[w] - amount]
                  && Balance(done.value.rows, other) == Balance(b.rows, other) - (if other == w then amount else 0)
                  && done.value.txs == b.txs[name.id := Header(Completed, currency)]
                  && done.value.references == b.references + {Counting(name)}
                  && done.value.locked == b.locked && done.value.currencies == b.currencies)
  {
    hide Stripped;
    var debit, credit := Row(name.id, Some(w), "DEBIT", "DEBIT", amount, ""), Row(name.id, None, "CREDIT", "CREDIT", amount, "");
    BalanceConcat(b.rows, [debit, credit], other);
    assert [debit, credit][..1] == [debit] && [debit][..0] == [];
    assert Effect(debit) == -amount by { assert Upper("DEBIT") == "DEBIT"; }
    hide Upper;
    assert Balance([debit], other) == if other == w then -amount else 0;
    assert Balance([debit, credit], other) == Balance([debit], other);
  }
}
