/** The double-entry ledger: balances folded from ledger rows, atomic posting, status changes and reversal.
    Amounts are in ten-thousandths of a currency unit, the precision that is kept. */
module Ledger {
  import opened Basics
  import opened Outcomes
  import opened TransactionStatus
  import opened Words

  type Id = string

  /** A row of the ledger; an absent side or currency is the empty string. */
  datatype Row = Row(tx: Id, wallet: Option<Id>, side: string, entryType: string, amount: int, currency: string)

  /** A leg as it is submitted. */
  datatype Entry = Entry(wallet: Option<Id>, credit: bool, amount: int, currency: string)

  /** What the table of transactions keeps of one. */
  datatype Header = Header(status: Status, currency: string)

  /** `cached` holds the balance kept on each wallet, vault or goal, and `currencies` the upper-cased currency
      of each that has one. */
  datatype Books = Books(
    cached: map<Id, int>, currencies: map<Id, string>, locked: set<Id>,
    rows: seq<Row>, txs: map<Id, Header>, references: set<string>)

  // ------------------------------------------------------------------------------------------------ the fold

  function Word(r: Row): string { Upper(if r.side != "" then r.side else r.entryType) }

  predicate Adds(r: Row) { Word(r) in {"CREDIT", "DEPOSIT", "REFUND"} }

  predicate Subtracts(r: Row) { Word(r) in {"DEBIT", "WITHDRAWAL", "PAYMENT"} }

  /** What a row adds to the balance of its wallet; rows with any other word are passed over. */
  function Effect(r: Row): int { if Adds(r) then r.amount else if Subtracts(r) then -r.amount else 0 }

  function Balance(rows: seq<Row>, w: Id): int {
    if rows == [] then 0
    else Balance(rows[..|rows| - 1], w) + if rows[|rows| - 1].wallet == Some(w) then Effect(rows[|rows| - 1]) else 0
  }

  // ------------------------------------------------------------------------------------------------ posting

  function Prepared(request: seq<Entry>): seq<Entry> {
    if request == [] then []
    else if request[0].wallet.Some? then [request[0]] + Prepared(request[1..])
    else Prepared(request[1..])
  }

  /** Without blanks around it. */
  function Stripped(s: string): string
    decreases |s|
  {
    if s != "" && s[0] == ' ' then Stripped(s[1..])
    else if s != "" && s[|s| - 1] == ' ' then Stripped(s[..|s| - 1])
    else s
  }

  /** A leg names no currency or its wallet's. */
  predicate Fits(e: Entry, currencies: map<Id, string>) {
    && e.wallet.Some? && e.wallet.value in currencies
    && (Stripped(e.currency) == "" || Upper(Stripped(e.currency)) == currencies[e.wallet.value])
  }

  /** The posting procedure works through the legs in order, on balances it has locked: it refuses an
      unknown wallet, an amount that is not positive, another currency, and a debit that would overdraw. */
  function Settle(cached: map<Id, int>, currencies: map<Id, string>, entries: seq<Entry>): Option<map<Id, int>> {
    if entries == [] then Some(cached)
    else
      var e := entries[0];
      if e.wallet.None? || e.wallet.value !in cached || e.amount <= 0 || !Fits(e, currencies) then None
      else
        var next := cached[e.wallet.value] + Signed(e);
        if !e.credit && next < 0 then None else Settle(cached[e.wallet.value := next], currencies, entries[1..])
  }

  function Signed(e: Entry): int { if e.credit then e.amount else -e.amount }

  /** Credits less debits. */
  function Net(entries: seq<Entry>): int { if entries == [] then 0 else Signed(entries[0]) + Net(entries[1..]) }

  predicate IsIn(e: Entry, currencies: map<Id, string>, currency: string) {
    e.wallet.Some? && e.wallet.value in currencies && currencies[e.wallet.value] == currency
  }

  /** Credits less debits on wallets of one currency. */
  function NetIn(entries: seq<Entry>, currencies: map<Id, string>, currency: string): int {
    if entries == [] then 0
    else (if IsIn(entries[0], currencies, currency) then Signed(entries[0]) else 0) + NetIn(entries[1..], currencies, currency)
  }

  function CurrenciesOf(entries: seq<Entry>, currencies: map<Id, string>): set<string> {
    set e | e in entries && e.wallet.Some? && e.wallet.value in currencies :: currencies[e.wallet.value]
  }

  predicate BalancedInEach(entries: seq<Entry>, currencies: map<Id, string>) {
    forall c | c in CurrenciesOf(entries, currencies) :: NetIn(entries, currencies, c) == 0
  }

  function RowsFor(tx: Id, entries: seq<Entry>, currencies: map<Id, string>): seq<Row> {
    seq(|entries|, i requires 0 <= i < |entries| => RowFor(tx, entries[i], currencies))
  }

  function RowFor(tx: Id, e: Entry, currencies: map<Id, string>): Row {
    Row(tx, e.wallet, "", if e.credit then "CREDIT" else "DEBIT", e.amount,
        if e.wallet.Some? && e.wallet.value in currencies then currencies[e.wallet.value] else "")
  }

  datatype Name = Name(id: Id, reference: string)

  /** A transaction to be posted; `parties` are the wallets its header names. */
  datatype Order = Order(name: Name, status: Status, parties: set<Id>, request: seq<Entry>)

  function Reference(name: Name): string { if Stripped(name.reference) == "" then name.id else Stripped(name.reference) }

  predicate Taken(b: Books, name: Name) { name.id in b.txs || Reference(name) in b.references }

  /** Every leg is on a known wallet, and no wallet of a leg or of the header is locked. */
  predicate Open(b: Books, parties: set<Id>, entries: seq<Entry>) {
    && (forall e | e in entries :: e.wallet.Some? && e.wallet.value in b.cached && e.wallet.value !in b.locked)
    && (forall p | p in parties :: p in b.cached ==> p !in b.locked)
  }

  const DEFAULT_CURRENCY := "TZS"

  function Post(b: Books, o: Order): Option<Books> {
    var entries := Prepared(o.request);
    var settled := Settle(b.cached, b.currencies, entries);
    if || entries == [] || !Open(b, o.parties, entries) || Taken(b, o.name) || settled.None? || Net(entries) != 0
       || !BalancedInEach(entries, b.currencies)
    then None
    else Some(b.(cached := settled.value, rows := b.rows + RowsFor(o.name.id, entries, b.currencies),
                 txs := b.txs[o.name.id := Header(o.status, DEFAULT_CURRENCY)],
                 references := b.references + {Reference(o.name)}))
  }

  // ---------------------------------------------------------------------------------- statuses and reversal

  function Overwritten(b: Books, tx: Id, next: Status): Books {
    if tx in b.txs then b.(txs := b.txs[tx := b.txs[tx].(status := next)]) else b
  }

  /** A change of status that is not allowed, or whose write fails, is passed over. */
  function Marked(b: Books, tx: Id, next: Status, works: bool): Books {
    if works && tx in b.txs && IsValidTransition(b.txs[tx].status, next) then Overwritten(b, tx, next) else b
  }

  function RowsOf(rows: seq<Row>, tx: Id): seq<Row> {
    if rows == [] then [] else if rows[0].tx == tx then [rows[0]] + RowsOf(rows[1..], tx) else RowsOf(rows[1..], tx)
  }

  function Others(rows: seq<Row>, tx: Id): seq<Row> {
    if rows == [] then [] else if rows[0].tx == tx then Others(rows[1..], tx) else [rows[0]] + Others(rows[1..], tx)
  }

  function FirstSet(a: string, b: string, c: string): string { if a != "" then a else if b != "" then b else c }

  /** The opposite leg, which looks at the entry type alone and for the exact word. */
  function Mirror(r: Row, currency: string): Entry {
    Entry(r.wallet, r.entryType != "CREDIT", r.amount, FirstSet(r.currency, currency, DEFAULT_CURRENCY))
  }

  function Mirrors(rows: seq<Row>, currency: string): seq<Entry> {
    seq(|rows|, i requires 0 <= i < |rows| => Mirror(rows[i], currency))
  }

  function MirrorsOf(b: Books, tx: Id): seq<Entry>
    requires tx in b.txs
  {
    Mirrors(RowsOf(b.rows, tx), b.txs[tx].currency)
  }

  function Reverse(b: Books, tx: Id, name: Name): Option<Books> {
    if tx !in b.txs then None else Post(b, Order(name, Completed, {}, MirrorsOf(b, tx)))
  }

  /** How the calls of a reversal end: its posting, and the change of status after it, which is only tried
      when the posting is known to have worked. */
  datatype Calls = Calls(post: Fate, marks: bool)

  function ReverseCall(b: Books, tx: Id, name: Name, calls: Calls): Books {
    match Reverse(b, tx, name)
    case None => b
    case Some(after) =>
      match calls.post
      case Refuses => b
      case Loses => after
      case Works => Marked(after, tx, Reversed, calls.marks)
  }

  predicate Eligible(b: Books, tx: Id) { tx in b.txs && IsReversalEligible(b.txs[tx].status) }

  class TransactionService {
    var cached: map<Id, int>
    var currencies: map<Id, string>
    var locked: set<Id>
    var rows: seq<Row>
    var txs: map<Id, Header>
    var references: set<string>

    ghost function Now(): Books
      reads this
    {
      Books(cached, currencies, locked, rows, txs, references)
    }

    method CalculateBalanceFromLedger(wallet: Id) returns (balance: int)
      ensures balance == Balance(rows, wallet)
    {
      balance := 0;
      var i := 0;
      while i < |rows|
        invariant i <= |rows| && balance == Balance(rows[..i], wallet)
      {
        var leg := rows[i];
        assert rows[..i + 1][..i] == rows[..i] && rows[..i + 1][i] == leg;
        if leg.wallet == Some(wallet) {
          var side := Upper(if leg.side != "" then leg.side else leg.entryType);
          if side == "CREDIT" || side == "DEPOSIT" || side == "REFUND" {
            balance := balance + leg.amount;
          } else if side == "DEBIT" || side == "WITHDRAWAL" || side == "PAYMENT" {
            balance := balance - leg.amount;
          }
        }
        i := i + 1;
      }
      assert rows[..i] == rows;
    }

    /** Works through the legs; returns the new balances when they all go through and balance in each
        currency. */
    method SettleLegs(entries: seq<Entry>) returns (balances: Option<map<Id, int>>)
      ensures balances
           == if Net(entries) == 0 && BalancedInEach(entries, currencies) then Settle(cached, currencies, entries) else None
    {
      hide Fits, IsIn;
      var next, net, nets, i := cached, 0, map[], 0;
      assert entries[0..] == entries;
      while i < |entries|
        invariant i <= |entries|
        invariant Settle(cached, currencies, entries) == Settle(next, currencies, entries[i..])
        invariant Net(entries) == net + Net(entries[i..])
        invariant nets.Keys == CurrenciesOf(entries[..i], currencies)
        invariant forall c ::
          NetIn(entries, currencies, c) == (if c in nets then nets[c] else 0) + NetIn(entries[i..], currencies, c)
      {
        var e := entries[i];
        assert entries[i..][1..] == entries[i + 1..] && entries[..i + 1] == entries[..i] + [e];
        if e.wallet.None? || e.wallet.value !in next || e.amount <= 0 || !Fits(e, currencies) { return None; }
        FitsIsIn(e, currencies);
        var balance := next[e.wallet.value] + Signed(e);
        if !e.credit && balance < 0 { return None; }
        var currency := currencies[e.wallet.value];
        net := net + Signed(e);
        nets := nets[currency := (if currency in nets then nets[currency] else 0) + Signed(e)];
        next := next[e.wallet.value := balance];
        i := i + 1;
      }
      assert entries[..i] == entries;
      if net != 0 || exists c | c in nets.Keys :: nets[c] != 0 { return None; }
      return Some(next);
    }

    method PostTransactionWithLedger(o: Order, fate: Fate) returns (ok: bool)
      modifies this
      ensures ok == (Post(old(Now()), o).Some? && fate.Works?)
      ensures Now() == if Post(old(Now()), o).Some? && !fate.Refuses? then Post(old(Now()), o).value else old(Now())
    {
      if fate.Refuses? { return false; }
      var entries := Prepared(o.request);
      if entries == [] { return false; }
      if exists e | e in entries :: e.wallet.None? || e.wallet.value !in cached || e.wallet.value in locked { return false; }
      if exists p | p in o.parties :: p in cached && p in locked { return false; }
      var reference := if Stripped(o.name.reference) == "" then o.name.id else Stripped(o.name.reference);
      if o.name.id in txs || reference in references { return false; }
      var balances := SettleLegs(entries);
      if balances.None? { return false; }
      cached, rows := balances.value, rows + RowsFor(o.name.id, entries, currencies);
      txs, references := txs[o.name.id := Header(o.status, DEFAULT_CURRENCY)], references + {reference};
      return fate.Works?;
    }

    /** The reading of a status, by which a change of it is decided. */
    method CheckTransition(tx: Id, next: Status) returns (ok: bool)
      ensures ok == (tx in txs && IsValidTransition(txs[tx].status, next))
    {
      return tx in txs && IsValidTransition(txs[tx].status, next);
    }

    /** The write of a status goes by the id alone, whatever the status has become. */
    method WriteStatus(tx: Id, next: Status)
      modifies `txs
      ensures Now() == Overwritten(old(Now()), tx, next)
    {
      if tx in txs { txs := txs[tx := txs[tx].(status := next)]; }
    }

    /** Both with nothing in between. */
    method UpdateTransactionStatus(tx: Id, next: Status, works: bool)
      modifies `txs
      ensures Now() == Marked(old(Now()), tx, next, works)
    {
      var ok := CheckTransition(tx, next);
      if ok && works { WriteStatus(tx, next); }
    }

    /** The review lock, with nothing in between its reading and its write. */
    method LockTransactionForReview(tx: Id) returns (ok: bool)
      modifies `txs
      ensures ok == Eligible(old(Now()), tx)
      ensures Now() == if ok then Overwritten(old(Now()), tx, HeldForReview) else old(Now())
    {
      if tx !in txs || !IsReversalEligible(txs[tx].status) { return false; }
      WriteStatus(tx, HeldForReview);
      return true;
    }

    method ReverseTransaction(tx: Id, name: Name, calls: Calls) returns (ok: bool)
      modifies this
      ensures ok == (Reverse(old(Now()), tx, name).Some? && calls.post.Works?)
      ensures Now() == ReverseCall(old(Now()), tx, name, calls)
    {
      hide Post;
      if tx !in txs { return false; }
      ok := PostTransactionWithLedger(Order(name, Completed, {}, Mirrors(RowsOf(rows, tx), txs[tx].currency)), calls.post);
      if ok { UpdateTransactionStatus(tx, Reversed, calls.marks); }
    }

    /** The reversal that looks at the status first. */
    method ReverseTransactionWithReason(tx: Id, name: Name, calls: Calls) returns (ok: bool)
      modifies this
      ensures ok == (Eligible(old(Now()), tx) && Reverse(old(Now()), tx, name).Some? && calls.post.Works?)
      ensures Now() == if Eligible(old(Now()), tx) then ReverseCall(old(Now()), tx, name, calls) else old(Now())
    {
      if tx !in txs || !IsReversalEligible(txs[tx].status) { return false; }
      ok := ReverseTransaction(tx, name, calls);
    }
  }

  lemma FitsIsIn(e: Entry, currencies: map<Id, string>)
    requires Fits(e, currencies)
    ensures e.wallet.value in currencies && forall c :: IsIn(e, currencies, c) <==> c == currencies[e.wallet.value]
  {
  }

  // -------------------------------------------------------------------------------- the fold and the rows

  lemma {:induction false} BalanceConcat(a: seq<Row>, b: seq<Row>, w: Id)
    ensures Balance(a + b, w) == Balance(a, w) + Balance(b, w)
  {
    if b == [] {
      assert a + b == a;
    } else {
      assert (a + b)[..|a + b| - 1] == a + b[..|b| - 1];
      BalanceConcat(a, b[..|b| - 1], w);
    }
  }

  lemma {:induction false} BalanceSplits(rows: seq<Row>, tx: Id, w: Id)
    ensures Balance(rows, w) == Balance(RowsOf(rows, tx), w) + Balance(Others(rows, tx), w)
  {
    if rows != [] {
      assert rows == [rows[0]] + rows[1..];
      BalanceConcat([rows[0]], rows[1..], w);
      BalanceSplits(rows[1..], tx, w);
      if rows[0].tx == tx {
        BalanceConcat([rows[0]], RowsOf(rows[1..], tx), w);
      } else {
        BalanceConcat([rows[0]], Others(rows[1..], tx), w);
      }
    }
  }

  lemma PostedWords(tx: Id, e: Entry, currencies: map<Id, string>)
    ensures Effect(RowFor(tx, e, currencies)) == Signed(e) && Mirrored(RowFor(tx, e, currencies))
  {
    assert Upper("CREDIT") == "CREDIT" && Upper("DEBIT") == "DEBIT";
  }

  /** Adds where its type is exactly the word for a credit, and subtracts elsewhere. */
  predicate Mirrored(r: Row) { if r.entryType == "CREDIT" then Adds(r) else Subtracts(r) }

  // ------------------------------------------------------------------------------------------ posting keeps

  /** A wallet's kept balance and its ledger differ by an amount that no posting changes. */
  function Drift(b: Books, w: Id): int
    requires w in b.cached
  {
    b.cached[w] - Balance(b.rows, w)
  }

  /** What prepared legs add to a wallet. */
  function NetFor(entries: seq<Entry>, w: Id): int {
    if entries == [] then 0 else (if entries[0].wallet == Some(w) then Signed(entries[0]) else 0) + NetFor(entries[1..], w)
  }

  lemma {:induction false} RowsForBalance(tx: Id, entries: seq<Entry>, currencies: map<Id, string>, w: Id)
    ensures Balance(RowsFor(tx, entries, currencies), w) == NetFor(entries, w)
  {
    hide Effect, Mirrored;
    if entries != [] {
      var first := RowsFor(tx, entries, currencies)[0];
      assert RowsFor(tx, entries, currencies) == [first] + RowsFor(tx, entries[1..], currencies);
      BalanceConcat([first], RowsFor(tx, entries[1..], currencies), w);
      PostedWords(tx, entries[0], currencies);
      assert [first][..0] == [];
      RowsForBalance(tx, entries[1..], currencies, w);
    }
  }

  lemma {:induction false} SettleAdds(cached: map<Id, int>, currencies: map<Id, string>, entries: seq<Entry>, w: Id)
    requires Settle(cached, currencies, entries).Some?
    ensures var settled := Settle(cached, currencies, entries).value;
            settled.Keys == cached.Keys && (w in cached ==> settled[w] == cached[w] + NetFor(entries, w))
    ensures w in cached && cached[w] >= 0 ==> Settle(cached, currencies, entries).value[w] >= 0
    decreases |entries|
  {
    hide Fits;
    if entries != [] {
      var e := entries[0];
      SettleAdds(cached[e.wallet.value := cached[e.wallet.value] + Signed(e)], currencies, entries[1..], w);
    }
  }

  /** Posting moves a wallet's kept balance and its ledger balance by the same amount, and never takes a
      balance below zero. */
  lemma PostKeepsBalances(b: Books, o: Order, w: Id)
    requires Post(b, o).Some?
    ensures var after := Post(b, o).value;
            && after.cached.Keys == b.cached.Keys && after.currencies == b.currencies
            && Balance(after.rows, w) == Balance(b.rows, w) + NetFor(Prepared(o.request), w)
            && (w in b.cached ==> Drift(after, w) == Drift(b, w) && (b.cached[w] >= 0 ==> after.cached[w] >= 0))
  {
    hide Settle, Balance, RowsFor, NetFor, Net, BalancedInEach, Open, Taken;
    var entries := Prepared(o.request);
    BalanceConcat(b.rows, RowsFor(o.name.id, entries, b.currencies), w);
    RowsForBalance(o.name.id, entries, b.currencies, w);
    SettleAdds(b.cached, b.currencies, entries, w);
  }

  // ------------------------------------------------------------------------------- total of one currency

  function TotalOf(wallets: seq<Id>, rows: seq<Row>): int {
    if wallets == [] then 0 else Balance(rows, wallets[0]) + TotalOf(wallets[1..], rows)
  }

  function NetForAll(entries: seq<Entry>, wallets: seq<Id>): int {
    if wallets == [] then 0 else NetFor(entries, wallets[0]) + NetForAll(entries, wallets[1..])
  }

  lemma {:induction false} NetForAllFirst(entries: seq<Entry>, wallets: seq<Id>)
    requires entries != [] && entries[0].wallet.Some? && NoRepeats(wallets)
    ensures NetForAll(entries, wallets) == NetForAll(entries[1..], wallets)
         + if entries[0].wallet.value in wallets then Signed(entries[0]) else 0
  {
    if wallets != [] { NetForAllFirst(entries, wallets[1..]); }
  }

  lemma {:induction false} NothingForAll(wallets: seq<Id>)
    ensures NetForAll([], wallets) == 0
  {
    if wallets != [] { NothingForAll(wallets[1..]); }
  }

  /** The list has the wallets of this currency, each once. */
  ghost predicate AllIn(wallets: seq<Id>, b: Books, currency: string) {
    NoRepeats(wallets) && forall w :: w in wallets <==> w in b.cached && w in b.currencies && b.currencies[w] == currency
  }

  lemma {:induction false} NetForAllIsNetIn(entries: seq<Entry>, wallets: seq<Id>, b: Books, currency: string)
    requires AllIn(wallets, b, currency) && forall e | e in entries :: e.wallet.Some? && e.wallet.value in b.cached
    ensures NetForAll(entries, wallets) == NetIn(entries, b.currencies, currency)
  {
    if entries == [] {
      NothingForAll(wallets);
    } else {
      NetForAllFirst(entries, wallets);
      NetForAllIsNetIn(entries[1..], wallets, b, currency);
    }
  }

  lemma {:induction false} UntouchedCurrency(entries: seq<Entry>, currencies: map<Id, string>, currency: string)
    requires currency !in CurrenciesOf(entries, currencies)
    ensures NetIn(entries, currencies, currency) == 0
  {
    if entries != [] {
      assert !IsIn(entries[0], currencies, currency);
      assert CurrenciesOf(entries[1..], currencies) <= CurrenciesOf(entries, currencies);
      UntouchedCurrency(entries[1..], currencies, currency);
    }
  }

  lemma {:induction false} TotalAfterPost(b: Books, o: Order, wallets: seq<Id>)
    requires Post(b, o).Some?
    ensures TotalOf(wallets, Post(b, o).value.rows) == TotalOf(wallets, b.rows) + NetForAll(Prepared(o.request), wallets)
    decreases |wallets|
  {
    hide Post, Prepared;
    if wallets != [] {
      PostKeepsBalances(b, o, wallets[0]);
      TotalAfterPost(b, o, wallets[1..]);
    }
  }

  lemma PostKeepsTotal(b: Books, o: Order, wallets: seq<Id>, currency: string)
    requires Post(b, o).Some? && AllIn(wallets, b, currency)
    ensures TotalOf(wallets, Post(b, o).value.rows) == TotalOf(wallets, b.rows)
  {
    hide AllIn, Settle, RowsFor, NetIn, CurrenciesOf, Net;
    var entries := Prepared(o.request);
    TotalAfterPost(b, o, wallets);
    NetForAllIsNetIn(entries, wallets, b, currency);
    if currency !in CurrenciesOf(entries, b.currencies) { UntouchedCurrency(entries, b.currencies, currency); }
  }

  // --------------------------------------------------------------------------------------------------- runs

  /** The statements that the calls are made of, each a step of its own: a posting, the posting of a
      transaction's mirrored legs, the write of a status, and a lock set or taken off by others. */
  datatype Action =
    | Posting(order: Order, fate: Fate)
    | Mirroring(tx: Id, name: Name, fate: Fate)
    | StatusWrite(tx: Id, next: Status)
    | WalletLock(wallet: Id, on: bool)

  /** The transaction an action tries to post, if its call gets to the database. */
  function OrderOf(b: Books, a: Action): Option<Order> {
    match a
    case Posting(order, fate) => if fate.Refuses? then None else Some(order)
    case Mirroring(tx, name, fate) =>
      if tx !in b.txs || fate.Refuses? then None else Some(Order(name, Completed, {}, MirrorsOf(b, tx)))
    case _ => None
  }

  function OrSame(b: Books, result: Option<Books>): Books { match result case Some(after) => after case None => b }

  function Step(b: Books, a: Action): Books {
    match a
    case Posting(order, fate) => if fate.Refuses? then b else OrSame(b, Post(b, order))
    case Mirroring(tx, name, fate) => if fate.Refuses? then b else OrSame(b, Reverse(b, tx, name))
    case StatusWrite(tx, next) => Overwritten(b, tx, next)
    case WalletLock(w, on) => b.(locked := if on then b.locked + {w} else b.locked - {w})
  }

  function Run(b: Books, actions: seq<Action>): Books
    decreases |actions|
  {
    if actions == [] then b else Run(Step(b, actions[0]), actions[1..])
  }

  predicate SameLedger(b: Books, c: Books) { b.cached == c.cached && b.currencies == c.currencies && b.rows == c.rows }

  /** An action changes the ledger only by the transaction it posts. */
  lemma StepPosts(b: Books, a: Action)
    ensures var o := OrderOf(b, a);
            SameLedger(Step(b, a), if o.None? then b else OrSame(b, Post(b, o.value)))
  {
    hide Post;
  }

  /** Over any run of these statements, in whatever order the calls they belong to interleave, accepted, refused
      or with their answers lost, the ledger balances of each currency add up to what they added up to before,
      each wallet's kept balance stays as far from its ledger balance as it was, and none goes below zero. */
  lemma {:induction false} RunConserves(b: Books, actions: seq<Action>, wallets: seq<Id>, currency: string)
    requires AllIn(wallets, b, currency)
    ensures var after := Run(b, actions);
            && TotalOf(wallets, after.rows) == TotalOf(wallets, b.rows) && after.cached.Keys == b.cached.Keys
            && forall w | w in b.cached :: Drift(after, w) == Drift(b, w) && (b.cached[w] >= 0 ==> after.cached[w] >= 0)
    decreases |actions|
  {
    hide Step, Drift, TotalOf, NoRepeats;
    if actions != [] {
      StepConserves(b, actions[0], wallets, currency);
      RunConserves(Step(b, actions[0]), actions[1..], wallets, currency);
    }
  }

  lemma StepConserves(b: Books, a: Action, wallets: seq<Id>, currency: string)
    requires AllIn(wallets, b, currency)
    ensures var after := Step(b, a);
            && TotalOf(wallets, after.rows) == TotalOf(wallets, b.rows)
            && after.cached.Keys == b.cached.Keys && after.currencies == b.currencies
            && forall w | w in b.cached :: Drift(after, w) == Drift(b, w) && (b.cached[w] >= 0 ==> after.cached[w] >= 0)
  {
    hide Post, Step, TotalOf, AllIn, Balance;
    StepPosts(b, a);
    var o := OrderOf(b, a);
    if o.Some? && Post(b, o.value).Some? {
      PostKeepsTotal(b, o.value, wallets, currency);
      PostKeepsBalances(b, o.value, "");
      forall w | w in b.cached
        ensures Drift(Step(b, a), w) == Drift(b, w) && (b.cached[w] >= 0 ==> Step(b, a).cached[w] >= 0)
      {
        PostKeepsBalances(b, o.value, w);
      }
    }
  }

  // ------------------------------------------------------------------------------------------------ reversal

  /** What stays of a row's effect once its mirror has been posted. */
  function Remainder(r: Row): int { Effect(r) + if r.entryType == "CREDIT" then -r.amount else r.amount }

  function Remainders(rows: seq<Row>, w: Id): int {
    if rows == [] then 0 else (if rows[0].wallet == Some(w) then Remainder(rows[0]) else 0) + Remainders(rows[1..], w)
  }

  /** A row is undone exactly when its words agree with each other. */
  lemma UndoneExactly(r: Row)
    requires r.amount > 0
    ensures Remainder(r) == 0 <==> Mirrored(r)
  {
    hide Word;
  }

  lemma {:induction false} PreparedNet(entries: seq<Entry>, w: Id)
    ensures NetFor(Prepared(entries), w) == NetFor(entries, w)
  {
    if entries != [] { PreparedNet(entries[1..], w); }
  }

  lemma {:induction false} MirrorsBalance(rows: seq<Row>, currency: string, w: Id)
    ensures Balance(rows, w) + NetFor(Mirrors(rows, currency), w) == Remainders(rows, w)
  {
    hide Effect;
    if rows != [] {
      assert rows == [rows[0]] + rows[1..] && [rows[0]][..0] == [];
      BalanceConcat([rows[0]], rows[1..], w);
      assert Mirrors(rows, currency)[1..] == Mirrors(rows[1..], currency);
      MirrorsBalance(rows[1..], currency, w);
    }
  }

  /** After a reversal every balance is what the other transactions make it, plus whatever the original
      rows' words leave over. */
  lemma ReversalLeaves(b: Books, tx: Id, name: Name, w: Id)
    requires Reverse(b, tx, name).Some?
    ensures Balance(Reverse(b, tx, name).value.rows, w)
         == Balance(Others(b.rows, tx), w) + Remainders(RowsOf(b.rows, tx), w)
  {
    hide Post, Remainders, Mirrors, NetFor, Balance;
    PostKeepsBalances(b, Order(name, Completed, {}, MirrorsOf(b, tx)), w);
    PreparedNet(MirrorsOf(b, tx), w);
    MirrorsBalance(RowsOf(b.rows, tx), b.txs[tx].currency, w);
    BalanceSplits(b.rows, tx, w);
  }

  lemma {:induction false} NoRemainders(rows: seq<Row>, w: Id)
    requires forall r | r in rows :: r.wallet != Some(w) || Remainder(r) == 0
    ensures Remainders(rows, w) == 0
  {
    hide Remainder;
    if rows != [] { NoRemainders(rows[1..], w); }
  }

  lemma {:induction false} OneRemainder(rows: seq<Row>, i: nat)
    requires i < |rows| && rows[i].wallet.Some?
    requires forall j, k | 0 <= j < k < |rows| && rows[j].wallet.Some? :: rows[j].wallet != rows[k].wallet
    ensures Remainders(rows, rows[i].wallet.value) == Remainder(rows[i])
  {
    hide Remainder;
    if i == 0 {
      forall r | r in rows[1..] ensures r.wallet != rows[0].wallet {}
      RestHasNone(rows[1..], rows[0].wallet.value);
    } else {
      assert rows[i] == rows[1..][i - 1];
      OneRemainder(rows[1..], i - 1);
    }
  }

  lemma {:induction false} RestHasNone(rows: seq<Row>, w: Id)
    requires forall r | r in rows :: r.wallet != Some(w)
    ensures Remainders(rows, w) == 0
  {
    hide Remainder;
    if rows != [] { RestHasNone(rows[1..], w); }
  }

  /** Every wallet is back where it would be without the transaction. */
  ghost predicate Restored(b: Books, after: Books, tx: Id) {
    forall w :: Balance(after.rows, w) == Balance(Others(b.rows, tx), w)
  }

  /** A reversal whose rows' words agree restores every balance. */
  lemma ReversalRestores(b: Books, tx: Id, name: Name)
    requires Reverse(b, tx, name).Some? && forall r | r in RowsOf(b.rows, tx) :: Mirrored(r)
    ensures Restored(b, Reverse(b, tx, name).value, tx)
  {
    hide Reverse, Mirrored;
    forall w ensures Balance(Reverse(b, tx, name).value.rows, w) == Balance(Others(b.rows, tx), w) {
      ReversalLeaves(b, tx, name, w);
      forall r | r in RowsOf(b.rows, tx) ensures Remainder(r) == 0 { MirroredRemainder(r); }
      NoRemainders(RowsOf(b.rows, tx), w);
    }
  }

  lemma MirroredRemainder(r: Row)
    requires Mirrored(r)
    ensures Remainder(r) == 0
  {
    hide Word;
  }

  /** Where no two rows of the transaction share a wallet, its reversal restores every balance exactly when
      the words of every row on a wallet agree. */
  lemma ReversalRestoresExactly(b: Books, tx: Id, name: Name)
    requires Reverse(b, tx, name).Some?
    requires var rows := RowsOf(b.rows, tx);
             forall j, k | 0 <= j < k < |rows| && rows[j].wallet.Some? :: rows[j].wallet != rows[k].wallet
    ensures Restored(b, Reverse(b, tx, name).value, tx)
       <==> forall r | r in RowsOf(b.rows, tx) && r.wallet.Some? :: Mirrored(r)
  {
    var rows := RowsOf(b.rows, tx);
    AcceptedAmounts(b, tx, name);
    hide Reverse, Mirrored, Balance;
    if Restored(b, Reverse(b, tx, name).value, tx) {
      forall r | r in rows && r.wallet.Some? ensures Mirrored(r) {
        var i :| 0 <= i < |rows| && rows[i] == r;
        ReversalLeaves(b, tx, name, r.wallet.value);
        OneRemainder(rows, i);
        UndoneExactly(r);
      }
    }
    if forall r | r in rows && r.wallet.Some? :: Mirrored(r) {
      forall w ensures Balance(Reverse(b, tx, name).value.rows, w) == Balance(Others(b.rows, tx), w) {
        ReversalLeaves(b, tx, name, w);
        forall r | r in rows && r.wallet == Some(w) ensures Remainder(r) == 0 { MirroredRemainder(r); }
        NoRemainders(rows, w);
      }
    }
  }

  lemma {:induction false} PreparedAll(entries: seq<Entry>, e: Entry)
    requires e in entries && e.wallet.Some?
    ensures e in Prepared(entries)
  {
    if e != entries[0] { PreparedAll(entries[1..], e); }
  }

  lemma {:induction false} SettledLegs(cached: map<Id, int>, currencies: map<Id, string>, entries: seq<Entry>)
    requires Settle(cached, currencies, entries).Some?
    ensures forall e | e in entries :: e.wallet.Some? && e.wallet.value in cached && e.amount > 0 && Fits(e, currencies)
    decreases |entries|
  {
    hide Fits;
    if entries != [] {
      var e := entries[0];
      SettledLegs(cached[e.wallet.value := cached[e.wallet.value] + Signed(e)], currencies, entries[1..]);
    }
  }

  lemma AcceptedAmounts(b: Books, tx: Id, name: Name)
    requires Reverse(b, tx, name).Some?
    ensures forall r | r in RowsOf(b.rows, tx) && r.wallet.Some? :: r.amount > 0
  {
    hide Settle, RowsFor, Net, BalancedInEach, Open, Taken, Prepared, Fits, RowsOf;
    var rows, mirrors := RowsOf(b.rows, tx), MirrorsOf(b, tx);
    SettledLegs(b.cached, b.currencies, Prepared(mirrors));
    forall r | r in rows && r.wallet.Some? ensures r.amount > 0 {
      var i :| 0 <= i < |rows| && rows[i] == r;
      PreparedAll(mirrors, mirrors[i]);
    }
  }

  // ------------------------------------------------------------------------- reversal of posted transactions

  ghost predicate AllMirrored(rows: seq<Row>) { forall r | r in rows :: Mirrored(r) }

  lemma {:induction false} RunStaysMirrored(b: Books, actions: seq<Action>)
    requires AllMirrored(b.rows)
    ensures AllMirrored(Run(b, actions).rows)
    decreases |actions|
  {
    hide Step, Mirrored, Prepared, Settle, Net, BalancedInEach, Open, Taken, OrderOf;
    if actions != [] {
      StepPosts(b, actions[0]);
      var o := OrderOf(b, actions[0]);
      if o.Some? && Post(b, o.value).Some? {
        var entries := Prepared(o.value.request);
        var added := RowsFor(o.value.name.id, entries, b.currencies);
        forall r | r in added ensures Mirrored(r) {
          var i :| 0 <= i < |entries| && added[i] == r;
          PostedWords(o.value.name.id, entries[i], b.currencies);
        }
      }
      RunStaysMirrored(Step(b, actions[0]), actions[1..]);
    }
  }

  lemma {:induction false} RowsOfSubset(rows: seq<Row>, tx: Id)
    ensures forall r | r in RowsOf(rows, tx) :: r in rows && r.tx == tx
  {
    if rows != [] { RowsOfSubset(rows[1..], tx); }
  }

  /** Books before anything was posted. */
  function Opened(cached: map<Id, int>, currencies: map<Id, string>): Books {
    Books(cached, currencies, {}, [], map[], {})
  }

  /** Whatever has been posted and reversed before, an accepted reversal of any transaction restores every
      balance to what it would be without it. */
  lemma PostedTransactionsAreUndone(cached: map<Id, int>, currencies: map<Id, string>, actions: seq<Action>, tx: Id, name: Name)
    requires Reverse(Run(Opened(cached, currencies), actions), tx, name).Some?
    ensures var b := Run(Opened(cached, currencies), actions);
            Restored(b, Reverse(b, tx, name).value, tx)
  {
    hide Run, Reverse, Mirrored, Restored;
    var b := Run(Opened(cached, currencies), actions);
    RunStaysMirrored(Opened(cached, currencies), actions);
    RowsOfSubset(b.rows, tx);
    ReversalRestores(b, tx, name);
  }

  // ---------------------------------------------------------------------------------------- repeated reversal

  /** The same transaction reversed again and again, without a look at its status. */
  function ReverseAll(b: Books, tx: Id, names: seq<Name>): Option<Books>
    decreases |names|
  {
    if names == [] then Some(b)
    else match Reverse(b, tx, names[0]) case None => None case Some(after) => ReverseAll(after, tx, names[1..])
  }

  lemma {:induction false} RowsOfConcat(a: seq<Row>, b: seq<Row>, tx: Id)
    ensures RowsOf(a + b, tx) == RowsOf(a, tx) + RowsOf(b, tx)
  {
    if a == [] {
      assert a + b == b;
    } else {
      assert (a + b)[1..] == a[1..] + b;
      RowsOfConcat(a[1..], b, tx);
    }
  }

  lemma {:induction false} RowsOfNone(rows: seq<Row>, tx: Id)
    requires forall r | r in rows :: r.tx != tx
    ensures RowsOf(rows, tx) == []
  {
    if rows != [] { RowsOfNone(rows[1..], tx); }
  }

  lemma ReversalKeepsOriginal(b: Books, tx: Id, name: Name)
    requires Reverse(b, tx, name).Some?
    ensures RowsOf(Reverse(b, tx, name).value.rows, tx) == RowsOf(b.rows, tx)
  {
    hide Settle, RowsOf, Mirrors, Prepared, Net, BalancedInEach, Open;
    var added := RowsFor(name.id, Prepared(MirrorsOf(b, tx)), b.currencies);
    RowsOfConcat(b.rows, added, tx);
    RowsOfNone(added, tx);
  }

  /** Each of `n` reversals takes the transaction's effect out once more, so the balances are restored
      after the first one and after no other that matters. */
  lemma {:induction false} RepeatedReversals(b: Books, tx: Id, names: seq<Name>, w: Id)
    requires ReverseAll(b, tx, names).Some? && forall r | r in RowsOf(b.rows, tx) :: Mirrored(r)
    ensures Balance(ReverseAll(b, tx, names).value.rows, w)
         == Balance(b.rows, w) - |names| * Balance(RowsOf(b.rows, tx), w)
    decreases |names|
  {
    hide Reverse, Mirrored, Balance;
    if names != [] {
      var after, effect := Reverse(b, tx, names[0]).value, Balance(RowsOf(b.rows, tx), w);
      ReversalKeepsOriginal(b, tx, names[0]);
      ReversalRestores(b, tx, names[0]);
      BalanceSplits(b.rows, tx, w);
      RepeatedReversals(after, tx, names[1..], w);
      assert |names| * effect == effect + |names[1..]| * effect;
    }
  }

  /** Any number of reversals restores a balance that the transaction changed exactly when it is one. */
  lemma RestoredByOneReversalExactly(b: Books, tx: Id, names: seq<Name>, w: Id)
    requires ReverseAll(b, tx, names).Some? && forall r | r in RowsOf(b.rows, tx) :: Mirrored(r)
    requires Balance(RowsOf(b.rows, tx), w) != 0
    ensures Balance(ReverseAll(b, tx, names).value.rows, w) == Balance(Others(b.rows, tx), w) <==> |names| == 1
  {
    hide ReverseAll, Balance, Mirrored;
    RepeatedReversals(b, tx, names, w);
    BalanceSplits(b.rows, tx, w);
    var effect, n := Balance(RowsOf(b.rows, tx), w), |names|;
    assert effect == n * effect <==> n == 1;
  }

  // ------------------------------------------------------------------------------------- accepted reversals

  function Walletless(entries: seq<Entry>): seq<Entry> {
    if entries == [] then []
    else if entries[0].wallet.None? then [entries[0]] + Walletless(entries[1..])
    else Walletless(entries[1..])
  }

  lemma {:induction false} NetSplits(entries: seq<Entry>)
    ensures Net(entries) == Net(Prepared(entries)) + Net(Walletless(entries))
  {
    if entries != [] { NetSplits(entries[1..]); }
  }

  /** Every leg has a positive amount in its wallet's currency, and whenever a leg debits a wallet, its balance
      with all legs up to that one is not negative. */
  predicate Covered(cached: map<Id, int>, currencies: map<Id, string>, entries: seq<Entry>) {
    forall k | 0 <= k < |entries| ::
      && Fits(entries[k], currencies) && entries[k].wallet.value in cached && entries[k].amount > 0
      && (!entries[k].credit ==> cached[entries[k].wallet.value] + NetFor(entries[..k + 1], entries[k].wallet.value) >= 0)
  }

  lemma PrefixNet(entries: seq<Entry>, k: nat, w: Id)
    requires 0 < k < |entries|
    ensures NetFor(entries[..k + 1], w) == NetFor(entries[..1], w) + NetFor(entries[1..][..k], w)
  {
    assert entries[..k + 1][1..] == entries[1..][..k] && entries[..1][1..] == [] && entries[..1][0] == entries[0];
  }

  /** The posting procedure goes through exactly when the legs are covered. */
  lemma {:induction false} SettlesExactly(cached: map<Id, int>, currencies: map<Id, string>, entries: seq<Entry>)
    ensures Settle(cached, currencies, entries).Some? <==> Covered(cached, currencies, entries)
    decreases |entries|
  {
    if entries != [] {
      var e := entries[0];
      assert entries[..1][1..] == [] && entries[..1][0] == e;
      if Fits(e, currencies) && e.wallet.value in cached && e.amount > 0 {
        var w := e.wallet.value;
        hide Fits;
        assert NetFor(entries[..1], w) == Signed(e);
        var next := cached[w := cached[w] + Signed(e)];
        SettlesExactly(next, currencies, entries[1..]);
        CoveredStep(cached, currencies, entries, next);
      }
    }
  }

  lemma CoveredStep(cached: map<Id, int>, currencies: map<Id, string>, entries: seq<Entry>, next: map<Id, int>)
    requires entries != [] && Fits(entries[0], currencies) && entries[0].wallet.value in cached && entries[0].amount > 0
    requires next == cached[entries[0].wallet.value := cached[entries[0].wallet.value] + NetFor(entries[..1], entries[0].wallet.value)]
    ensures Covered(cached, currencies, entries)
       <==> (entries[0].credit || next[entries[0].wallet.value] >= 0) && Covered(next, currencies, entries[1..])
  {
    var rest := entries[1..];
    assert entries[..1][1..] == [];
    forall k | 0 < k < |entries| && entries[k].wallet.Some? && entries[k].wallet.value in cached
      ensures entries[k] == rest[k - 1]
      ensures var w := entries[k].wallet.value;
              cached[w] + NetFor(entries[..k + 1], w) == next[w] + NetFor(rest[..k - 1 + 1], w)
    {
      PrefixNet(entries, k, entries[k].wallet.value);
    }
    forall k | 0 <= k < |rest| ensures rest[k] == entries[k + 1] {}
  }

  /** A reversal is accepted exactly when the transaction is known and the reversal's identifiers are new, some
      row is on a wallet, no such wallet is locked, the rows on no wallet carry all of the transaction's
      imbalance (none, for balanced rows), the mirrored legs balance in each currency, and they are covered. */
  lemma ReversalAcceptedExactly(b: Books, tx: Id, name: Name)
    ensures Reverse(b, tx, name).Some?
       <==> && tx in b.txs && !Taken(b, name) && var legs := Prepared(MirrorsOf(b, tx));
            && legs != [] && Open(b, {}, legs) && Net(Walletless(MirrorsOf(b, tx))) == Net(MirrorsOf(b, tx))
            && BalancedInEach(legs, b.currencies) && Covered(b.cached, b.currencies, legs)
  {
    hide Settle, Covered, Prepared, Net, Walletless, Mirrors, RowsFor, BalancedInEach, Open, Taken;
    if tx in b.txs {
      NetSplits(MirrorsOf(b, tx));
      SettlesExactly(b.cached, b.currencies, Prepared(MirrorsOf(b, tx)));
    }
  }

  // ------------------------------------------------------------------- accepted reversals of posted transactions

  /** Legs as a posting accepts them, but for funds and locks. */
  ghost predicate Postable(entries: seq<Entry>, b: Books) {
    && entries != [] && Net(entries) == 0 && BalancedInEach(entries, b.currencies)
    && forall e | e in entries :: Fits(e, b.currencies) && e.wallet.value in b.cached && e.amount > 0
  }

  ghost predicate PostedAs(b: Books, tx: Id, entries: seq<Entry>) {
    Postable(entries, b) && RowsOf(b.rows, tx) == RowsFor(tx, entries, b.currencies)
  }

  /** All rows belong to transactions, and the rows of each are those of accepted legs. */
  ghost predicate Whole(b: Books) {
    (forall r | r in b.rows :: r.tx in b.txs) && forall tx | tx in b.txs :: exists entries :: PostedAs(b, tx, entries)
  }

  lemma {:induction false} RowsOfAll(rows: seq<Row>, tx: Id)
    requires forall r | r in rows :: r.tx == tx
    ensures RowsOf(rows, tx) == rows
  {
    if rows != [] { RowsOfAll(rows[1..], tx); }
  }

  lemma PostKeepsWhole(b: Books, o: Order)
    requires Whole(b) && Post(b, o).Some?
    ensures Whole(Post(b, o).value)
  {
    hide Settle, RowsOf, Net, BalancedInEach, Fits, RowFor, Prepared;
    var after, entries, id := Post(b, o).value, Prepared(o.request), o.name.id;
    var added := RowsFor(id, entries, b.currencies);
    SettledLegs(b.cached, b.currencies, entries);
    SettleAdds(b.cached, b.currencies, entries, id);
    forall r | r in added ensures r.tx == id {
      var i :| 0 <= i < |entries| && added[i] == r;
      RowForTx(id, entries[i], b.currencies);
    }
    forall tx | tx in after.txs ensures exists es :: PostedAs(after, tx, es) {
      RowsOfConcat(b.rows, added, tx);
      if tx == id {
        RowsOfNone(b.rows, tx);
        RowsOfAll(added, tx);
        assert PostedAs(after, tx, entries);
      } else {
        RowsOfNone(added, tx);
        var es :| PostedAs(b, tx, es);
        assert PostedAs(after, tx, es);
      }
    }
  }

  lemma RowForTx(tx: Id, e: Entry, currencies: map<Id, string>)
    ensures RowFor(tx, e, currencies).tx == tx
  {
  }

  lemma {:induction false} RunStaysWhole(b: Books, actions: seq<Action>)
    requires Whole(b)
    ensures Whole(Run(b, actions))
    decreases |actions|
  {
    hide Step, Post, OrderOf, RowsOf, Postable;
    if actions != [] {
      StepPosts(b, actions[0]);
      StepTransactions(b, actions[0]);
      var o, next := OrderOf(b, actions[0]), Step(b, actions[0]);
      var posted := if o.None? then b else OrSame(b, Post(b, o.value));
      if o.Some? && Post(b, o.value).Some? { PostKeepsWhole(b, o.value); }
      forall tx | tx in next.txs ensures exists es :: PostedAs(next, tx, es) {
        var es :| PostedAs(posted, tx, es);
        SamePosted(posted, next, tx, es);
      }
      RunStaysWhole(next, actions[1..]);
    }
  }

  lemma SamePosted(b: Books, c: Books, tx: Id, entries: seq<Entry>)
    requires SameLedger(b, c) && PostedAs(b, tx, entries)
    ensures PostedAs(c, tx, entries)
  {
  }

  lemma StepTransactions(b: Books, a: Action)
    ensures var o := OrderOf(b, a);
            Step(b, a).txs.Keys == (if o.None? then b else OrSame(b, Post(b, o.value))).txs.Keys
  {
    hide Post;
  }

  /** A currency as the tables hold it. */
  predicate Plain(c: string) { c != "" && Stripped(c) == c && Upper(c) == c }

  lemma {:induction false} MirrorsOpposite(tx: Id, entries: seq<Entry>, currencies: map<Id, string>, currency: string, c: string)
    ensures var mirrors := Mirrors(RowsFor(tx, entries, currencies), currency);
            Net(mirrors) == -Net(entries) && NetIn(mirrors, currencies, c) == -NetIn(entries, currencies, c)
  {
    if entries != [] {
      var mirrors := Mirrors(RowsFor(tx, entries, currencies), currency);
      assert mirrors[1..] == Mirrors(RowsFor(tx, entries[1..], currencies), currency);
      MirrorOpposite(tx, entries[0], currencies, currency, c);
      hide IsIn, Signed, Mirror;
      MirrorsOpposite(tx, entries[1..], currencies, currency, c);
    }
  }

  lemma MirrorOpposite(tx: Id, e: Entry, currencies: map<Id, string>, currency: string, c: string)
    ensures var m := Mirror(RowFor(tx, e, currencies), currency);
            && Signed(m) == -Signed(e) && (IsIn(m, currencies, c) <==> IsIn(e, currencies, c))
            && m.wallet == e.wallet && m.amount == e.amount
    ensures Fits(e, currencies) && Plain(currencies[e.wallet.value]) ==>
      Fits(Mirror(RowFor(tx, e, currencies), currency), currencies)
  {
  }

  lemma {:induction false} PreparedAlready(entries: seq<Entry>)
    requires forall e | e in entries :: e.wallet.Some?
    ensures Prepared(entries) == entries && Walletless(entries) == []
  {
    if entries != [] { PreparedAlready(entries[1..]); }
  }

  /** The mirrored legs of accepted legs are accepted legs. */
  lemma MirrorsPostable(b: Books, tx: Id, entries: seq<Entry>)
    requires tx in b.txs && PostedAs(b, tx, entries) && forall w | w in b.currencies :: Plain(b.currencies[w])
    ensures Postable(MirrorsOf(b, tx), b)
  {
    hide Plain, RowsOf, Signed, Fits, Mirror, RowFor;
    var mirrors, currency := MirrorsOf(b, tx), b.txs[tx].currency;
    forall i | 0 <= i < |entries|
      ensures Fits(mirrors[i], b.currencies) && mirrors[i].wallet == entries[i].wallet && mirrors[i].amount == entries[i].amount
    {
      assert entries[i] in entries;
      FitsIsIn(entries[i], b.currencies);
      MirrorOpposite(tx, entries[i], b.currencies, currency, "");
    }
    MirrorsOpposite(tx, entries, b.currencies, currency, "");
    forall c | c in CurrenciesOf(mirrors, b.currencies) ensures NetIn(mirrors, b.currencies, c) == 0 {
      var m :| m in mirrors && m.wallet.Some? && m.wallet.value in b.currencies && b.currencies[m.wallet.value] == c;
      var i :| 0 <= i < |mirrors| && mirrors[i] == m;
      assert entries[i] in entries;
      MirrorsOpposite(tx, entries, b.currencies, currency, c);
    }
  }

  /** After any run from empty tables, the reversal of a transaction posted in it is accepted exactly when its
      identifiers are new, no wallet of the transaction is locked, and its credits can be taken back. */
  lemma PostedReversalsNeedOnlyFunds(cached: map<Id, int>, currencies: map<Id, string>, actions: seq<Action>, tx: Id, name: Name)
    requires tx in Run(Opened(cached, currencies), actions).txs && forall w | w in currencies :: Plain(currencies[w])
    ensures var b := Run(Opened(cached, currencies), actions);
            Reverse(b, tx, name).Some?
            <==> && !Taken(b, name) && (forall r | r in RowsOf(b.rows, tx) :: r.wallet.Some? && r.wallet.value !in b.locked)
                 && Covered(b.cached, b.currencies, MirrorsOf(b, tx))
  {
    var b := Run(Opened(cached, currencies), actions);
    RunStaysWhole(Opened(cached, currencies), actions);
    RunKeepsCurrencies(Opened(cached, currencies), actions);
    var entries :| PostedAs(b, tx, entries);
    MirrorsPostable(b, tx, entries);
    hide Plain, Run, RowsOf, Covered, Taken, Fits, RowFor, RowsFor, Net, BalancedInEach, Reverse;
    var mirrors := MirrorsOf(b, tx);
    PreparedAlready(mirrors);
    ReversalAcceptedExactly(b, tx, name);
    OpenMirrors(b, tx);
    NoNet();
  }

  lemma NoNet()
    ensures Net([]) == 0
  {
  }

  lemma OpenMirrors(b: Books, tx: Id)
    requires tx in b.txs && forall e | e in MirrorsOf(b, tx) :: e.wallet.Some? && e.wallet.value in b.cached
    ensures Open(b, {}, MirrorsOf(b, tx)) <==> forall r | r in RowsOf(b.rows, tx) :: r.wallet.Some? && r.wallet.value !in b.locked
  {
    hide RowsOf;
    var rows, mirrors := RowsOf(b.rows, tx), MirrorsOf(b, tx);
    forall i | 0 <= i < |rows| ensures mirrors[i].wallet == rows[i].wallet && mirrors[i] in mirrors && rows[i] in rows {}
  }

  lemma {:induction false} RunKeepsCurrencies(b: Books, actions: seq<Action>)
    ensures Run(b, actions).currencies == b.currencies
    decreases |actions|
  {
    hide Step, OrderOf;
    if actions != [] {
      StepPosts(b, actions[0]);
      RunKeepsCurrencies(Step(b, actions[0]), actions[1..]);
    }
  }

  // ------------------------------------------------------------------------------------------------ witnesses

  /** One leg in each direction between two wallets. */
  function Transfer(from: Id, to: Id, amount: int): seq<Entry> {
    [Entry(Some(from), false, amount, ""), Entry(Some(to), true, amount, "")]
  }

  /** Two legs that move a positive amount from one funded, open wallet to another of the same currency. */
  lemma PairPosts(b: Books, o: Order, from: Id, to: Id, amount: int, first: bool)
    requires from != to && from in b.cached && to in b.cached && from !in b.locked && to !in b.locked
    requires from in b.currencies && to in b.currencies && b.currencies[from] == b.currencies[to]
    requires !Taken(b, o.name) && 0 < amount <= b.cached[from] && o.parties == {} && |o.request| == 2
    requires forall e | e in o.request :: Fits(e, b.currencies) && e.amount == amount
    requires var out, back := o.request[if first then 0 else 1], o.request[if first then 1 else 0];
             out.wallet == Some(from) && !out.credit && back.wallet == Some(to) && back.credit
    ensures Post(b, o).Some?
    ensures var after := Post(b, o).value;
            && after.cached == b.cached[from := b.cached[from] - amount][to := b.cached[to] + amount]
            && after.rows == b.rows + [RowFor(o.name.id, o.request[0], b.currencies),
                                       RowFor(o.name.id, o.request[1], b.currencies)]
            && after.currencies == b.currencies && after.locked == b.locked
            && after.txs == b.txs[o.name.id := Header(o.status, DEFAULT_CURRENCY)]
            && after.references == b.references + {Reference(o.name)}
  {
    hide Fits, RowFor, Taken, Reference;
    var entries := o.request;
    assert entries == [entries[0], entries[1]] && entries[1..] == [entries[1]] && entries[1..][1..] == [];
    PreparedAlready(entries);
    assert Net(entries[1..]) == Signed(entries[1]) && Net(entries) == 0;
    var c := b.currencies[from];
    assert NetIn(entries[1..], b.currencies, c) == Signed(entries[1]) && NetIn(entries, b.currencies, c) == 0;
    assert CurrenciesOf(entries, b.currencies) == {c};
    var middle := b.cached[entries[0].wallet.value := b.cached[entries[0].wallet.value] + Signed(entries[0])];
    assert Settle(middle, b.currencies, entries[1..])
        == Some(middle[entries[1].wallet.value := middle[entries[1].wallet.value] + Signed(entries[1])]);
    assert b.cached[from := b.cached[from] - amount][to := b.cached[to] + amount]
        == b.cached[to := b.cached[to] + amount][from := b.cached[from] - amount];
  }

  /** What a book needs for a transfer to be reversed: its two rows, and the money at the receiver. */
  ghost predicate Moved(b: Books, tx: Id, from: Id, to: Id, amount: int) {
    && from != to && from in b.cached && to in b.cached && from !in b.locked && to !in b.locked && 0 < amount
    && from in b.currencies && to in b.currencies && b.currencies[from] == b.currencies[to] && Plain(b.currencies[from])
    && tx in b.txs && RowsOf(b.rows, tx) == [RowFor(tx, Transfer(from, to, amount)[0], b.currencies),
                                             RowFor(tx, Transfer(from, to, amount)[1], b.currencies)]
  }

  lemma TransferPosts(b: Books, name: Name, status: Status, from: Id, to: Id, amount: int) returns (after: Books)
    requires from != to && from in b.cached && to in b.cached && from !in b.locked && to !in b.locked
    requires from in b.currencies && to in b.currencies && b.currencies[from] == b.currencies[to] && Plain(b.currencies[from])
    requires !Taken(b, name) && 0 < amount <= b.cached[from] && forall r | r in b.rows :: r.tx != name.id
    ensures Post(b, Order(name, status, {}, Transfer(from, to, amount))) == Some(after) && Moved(after, name.id, from, to, amount)
    ensures after.cached == b.cached[from := b.cached[from] - amount][to := b.cached[to] + amount]
    ensures after.txs == b.txs[name.id := Header(status, DEFAULT_CURRENCY)] && after.references == b.references + {Reference(name)}
  {
    var o := Order(name, status, {}, Transfer(from, to, amount));
    forall e | e in o.request ensures Fits(e, b.currencies) && e.amount == amount { NoBlanks(); }
    hide Fits, Taken, Plain, Post, Reference;
    PairPosts(b, o, from, to, amount, true);
    after := Post(b, o).value;
    var added := [RowFor(name.id, o.request[0], b.currencies), RowFor(name.id, o.request[1], b.currencies)];
    RowsOfNone(b.rows, name.id);
    RowsOfConcat(b.rows, added, name.id);
    RowsOfAll(added, name.id);
  }

  lemma NoBlanks()
    ensures Stripped("") == ""
  {
  }

  lemma TransferReverses(b: Books, tx: Id, from: Id, to: Id, amount: int, name: Name) returns (after: Books)
    requires Moved(b, tx, from, to, amount) && !Taken(b, name) && amount <= b.cached[to]
    ensures Reverse(b, tx, name) == Some(after) && Moved(after, tx, from, to, amount)
    ensures after.cached == b.cached[from := b.cached[from] + amount][to := b.cached[to] - amount]
    ensures after.txs == b.txs[name.id := Header(Completed, DEFAULT_CURRENCY)] && after.references == b.references + {Reference(name)}
  {
    hide Post, Taken, Reference, RowsOf;
    var rows, currency := RowsOf(b.rows, tx), b.txs[tx].currency;
    var o := Order(name, Completed, {}, MirrorsOf(b, tx));
    MirrorFits(b, tx, Transfer(from, to, amount)[0], currency);
    MirrorFits(b, tx, Transfer(from, to, amount)[1], currency);
    assert o.request == [Mirror(rows[0], currency), Mirror(rows[1], currency)];
    hide Fits, Plain, Mirrors;
    PairPosts(b, o, to, from, amount, false);
    after := Reverse(b, tx, name).value;
    ReversalKeepsOriginal(b, tx, name);
    assert b.cached[to := b.cached[to] - amount][from := b.cached[from] + amount]
        == b.cached[from := b.cached[from] + amount][to := b.cached[to] - amount];
  }

  lemma MirrorFits(b: Books, tx: Id, e: Entry, currency: string)
    requires e.wallet.Some? && e.wallet.value in b.currencies && Plain(b.currencies[e.wallet.value])
    ensures var m := Mirror(RowFor(tx, e, b.currencies), currency);
            Fits(m, b.currencies) && m.wallet == e.wallet && m.amount == e.amount && m.credit == !e.credit
  {
  }

  lemma TransferBalance(b: Books, tx: Id, from: Id, to: Id, amount: int)
    requires Moved(b, tx, from, to, amount)
    ensures (forall r | r in RowsOf(b.rows, tx) :: Mirrored(r)) && Balance(RowsOf(b.rows, tx), from) == -amount
  {
    var out, back := Transfer(from, to, amount)[0], Transfer(from, to, amount)[1];
    PostedWords(tx, out, b.currencies);
    PostedWords(tx, back, b.currencies);
    hide RowsOf, Effect, Mirrored, Plain;
    var r, t := RowFor(tx, out, b.currencies), RowFor(tx, back, b.currencies);
    assert [r, t][..1] == [r] && [r][..0] == [];
    assert Balance([r], from) == -amount;
  }

  /** Two wallets of one currency with this amount on each. */
  function TwoWallets(amount: int): Books {
    Opened(map["a" := amount, "b" := amount], map["a" := DEFAULT_CURRENCY, "b" := DEFAULT_CURRENCY])
  }

  /** A funded transfer reversed twice without a look at its status: both reversals are accepted, and the payer
      ends with the amount more than before the transfer. */
  lemma ReversedTwice(amount: int)
    requires amount > 0
    ensures var posted := Post(TwoWallets(amount), Order(Name("t", "1"), Completed, {}, Transfer("a", "b", amount)));
            && posted.Some? && var twice := ReverseAll(posted.value, "t", [Name("r", "2"), Name("s", "3")]);
            && twice.Some? && twice.value.cached == map["a" := 2 * amount, "b" := 0] && Balance(twice.value.rows, "a") == amount
  {
    hide Post, Reverse, Balance, Mirrored, Moved, Plain;
    var r, s := Name("r", "2"), Name("s", "3");
    References();
    var posted := TransferPosts(TwoWallets(amount), Name("t", "1"), Completed, "a", "b", amount);
    var once := TransferReverses(posted, "t", "a", "b", amount, r);
    var twice := TransferReverses(once, "t", "a", "b", amount, s);
    assert [r, s][1..] == [s] && [s][1..] == [];
    assert ReverseAll(once, "t", [s]) == Some(twice);
    TransferBalance(posted, "t", "a", "b", amount);
    RepeatedReversals(posted, "t", [r, s], "a");
    TransferOnly(amount);
  }

  lemma TransferOnly(amount: int)
    requires amount > 0 && Post(TwoWallets(amount), Order(Name("t", "1"), Completed, {}, Transfer("a", "b", amount))).Some?
    ensures var b := Post(TwoWallets(amount), Order(Name("t", "1"), Completed, {}, Transfer("a", "b", amount))).value;
            Balance(b.rows, "a") == -amount
  {
    hide Post, Moved, Plain, Balance;
    References();
    var b := TransferPosts(TwoWallets(amount), Name("t", "1"), Completed, "a", "b", amount);
    PostKeepsBalances(TwoWallets(amount), Order(Name("t", "1"), Completed, {}, Transfer("a", "b", amount)), "a");
    TransferNet(amount);
    EmptyBalance("a");
  }

  lemma EmptyBalance(w: Id)
    ensures Balance([], w) == 0
  {
  }

  lemma TransferNet(amount: int)
    ensures NetFor(Prepared(Transfer("a", "b", amount)), "a") == -amount
  {
    var entries := Transfer("a", "b", amount);
    PreparedAlready(entries);
    assert entries[1..] == [entries[1]] && entries[1..][1..] == [];
    assert NetFor(entries[1..], "a") == 0;
  }

  lemma References()
    ensures Plain(DEFAULT_CURRENCY)
    ensures Reference(Name("t", "1")) == "1" && Reference(Name("r", "2")) == "2" && Reference(Name("s", "3")) == "3"
  {
    assert Upper("TZS") == "TZS";
  }

  /** The budget procedure debits a wallet of the budget's currency and credits the budget on no wallet; its rows name
      no currency. */
  function AllocateToBudget(b: Books, name: Name, w: Id, amount: int, currency: string): Option<Books> {
    if Taken(b, name) || w !in b.cached || w in b.locked || w !in b.currencies || b.currencies[w] != currency
       || amount <= 0 || b.cached[w] < amount then None
    else Some(b.(cached := b.cached[w := b.cached[w] - amount],
                 rows := b.rows + [Row(name.id, Some(w), "DEBIT", "DEBIT", amount, ""),
                                   Row(name.id, None, "CREDIT", "CREDIT", amount, "")],
                 txs := b.txs[name.id := Header(Completed, currency)], references := b.references + {Reference(name)}))
  }

  /** No budget allocation can be reversed, whatever the funds. */
  lemma BudgetAllocationIsNotReversed(b: Books, name: Name, w: Id, amount: int, currency: string, reversal: Name)
    requires AllocateToBudget(b, name, w, amount, currency).Some? && forall r | r in b.rows :: r.tx != name.id
    ensures Reverse(AllocateToBudget(b, name, w, amount, currency).value, name.id, reversal).None?
  {
    hide Taken, Reference, Settle, Open, BalancedInEach, Covered, Reverse;
    var after := AllocateToBudget(b, name, w, amount, currency).value;
    var added := [Row(name.id, Some(w), "DEBIT", "DEBIT", amount, ""), Row(name.id, None, "CREDIT", "CREDIT", amount, "")];
    RowsOfNone(b.rows, name.id);
    RowsOfConcat(b.rows, added, name.id);
    RowsOfAll(added, name.id);
    hide RowsOf;
    var mirrors := [Mirror(added[0], currency), Mirror(added[1], currency)];
    assert [] + added == added && MirrorsOf(after, name.id) == mirrors;
    hide FirstSet;
    assert mirrors[1..] == [mirrors[1]] && mirrors[1..][1..] == [];
    assert Walletless(mirrors[1..]) == [mirrors[1]] && Walletless(mirrors) == [mirrors[1]] && [mirrors[1]][1..] == [];
    assert Net(mirrors[1..]) == -amount && Net([mirrors[1]]) == -amount;
    ReversalAcceptedExactly(after, name.id, reversal);
  }
}
