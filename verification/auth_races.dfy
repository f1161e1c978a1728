/** Logins, refreshes and logouts at the same time, statement by statement. A statement sees the rows that are
    committed when it starts; before it writes one of them it waits for other transactions that hold the row, and
    then goes by what is committed there by now. What a transaction writes is seen by others once it commits. */
module AuthRaces {
  import opened AuthSessions
  import opened Outcomes

  /** What a transaction is for. Ending a family, after a reuse or a device mismatch, has its UPDATE begun or not. */
  datatype Work =
    | LoggingIn(user: UserId)
    | LoggingOut
    | Exchanging(token: Token, device: Option<string>)
    | Ending(family: Family, reason: Reason, begun: bool)

  /** A transaction: the rows committed when its UPDATE of many rows began, those of them it has yet to come to, the
      rows it holds, what it has written, and the row it has inserted. */
  datatype Txn = Txn(
    at: int, work: Work, seen: set<Token>, todo: set<Token>, held: set<Token>, written: map<Token, Session>, inserted: Option<Token>)

  datatype State = State(cfg: Config, rows: map<Token, Session>, txns: map<nat, Txn>)

  datatype Action =
    | BeginLogin(user: UserId, at: int)
    | BeginLogout(token: Token, at: int)
    | BeginRefresh(token: Token, fingerprint: string, at: int)
    | BeginEnding
    | RevokeRow(token: Token)
    | Insert(token: Token, family: Family, fingerprint: string)
    | Exchange(next: Token)
    | Commit
    | Abort

  // -------------------------------------------------------------------------------------------- statements

  predicate IsLive(row: Session) { row.revokedAt.None? }

  /** The condition of the transaction's UPDATE. */
  predicate Matches(work: Work, row: Session) {
    match work
    case LoggingIn(user) => row.user == user && IsLive(row)
    case LoggingOut => IsLive(row)
    case Exchanging(_, _) => false
    case Ending(family, _, _) => row.family == family
  }

  /** What it makes of a row. */
  function Revised(work: Work, row: Session, at: int): Session {
    match work
    case LoggingIn(_) => Revoke(row, at, NewLogin)
    case LoggingOut => Revoke(row, at, LoggedOut)
    case Exchanging(_, _) => row
    case Ending(_, reason, _) => Revoke(row, if reason == Reused && row.revokedAt.Some? then row.revokedAt.value else at, reason)
  }

  function Matching(rows: map<Token, Session>, work: Work): set<Token> { set t | t in rows && Matches(work, rows[t]) }

  /** No other transaction holds the row. */
  predicate Free(s: State, k: nat, t: Token) { forall q | q in s.txns && q != k :: t !in s.txns[q].held }

  /** The token is no row yet, of the table or of a transaction. */
  predicate Unknown(s: State, t: Token) { t !in s.rows && forall q | q in s.txns :: s.txns[q].inserted != Some(t) }

  predicate Done(n: Txn) {
    && n.todo == {}
    && match n.work
       case LoggingIn(_) => n.inserted.Some?
       case LoggingOut => true
       case Exchanging(_, _) => n.inserted.Some?
       case Ending(_, _, begun) => begun
  }

  predicate Enabled(s: State, k: nat, a: Action) {
    match a
    case BeginLogin(_, _) => k !in s.txns
    case BeginLogout(_, _) => k !in s.txns
    case BeginRefresh(t, _, _) => k !in s.txns && Free(s, k, t)
    case BeginEnding => k in s.txns && s.txns[k].work.Ending? && !s.txns[k].work.begun
    case RevokeRow(t) => k in s.txns && t in s.txns[k].todo && Free(s, k, t)
    case Insert(t, _, _) => k in s.txns && s.txns[k].work.LoggingIn? && s.txns[k].todo == {} && s.txns[k].inserted.None? && Unknown(s, t)
    case Exchange(next) =>
      && k in s.txns && s.txns[k].work.Exchanging? && s.txns[k].work.token in s.rows && s.txns[k].inserted.None? && Unknown(s, next)
    case Commit => k in s.txns && Done(s.txns[k])
    case Abort => k in s.txns
  }

  function With(s: State, k: nat, n: Txn): State { s.(txns := s.txns[k := n]) }

  /** An UPDATE of many rows begins. */
  function Begun(rows: map<Token, Session>, at: int, work: Work, held: set<Token>): Txn {
    Txn(at, work, rows.Keys, Matching(rows, work), held, map[], None)
  }

  /** The token's row is read and held; what it says decides what the transaction is for. */
  function AfterRead(s: State, k: nat, t: Token, fingerprint: string, at: int): State {
    if t !in s.rows || s.rows[t].expiresAt <= at then s
    else
      var row := s.rows[t];
      var work :=
        if row.revokedAt.Some? || row.replacedBy.Some? then Ending(row.family, Reused, false)
        else if Mismatch(fingerprint, row.fingerprint) then Ending(row.family, DeviceMismatch, false)
        else Exchanging(t, if fingerprint != "" then Some(fingerprint) else row.fingerprint);
      With(s, k, Txn(at, work, {}, {}, {t}, map[], None))
  }

  /** The UPDATE comes to a row. */
  function AfterRevoke(s: State, k: nat, t: Token): State
    requires k in s.txns
  {
    var n := s.txns[k].(todo := s.txns[k].todo - {t});
    if t in s.rows && Matches(n.work, s.rows[t])
    then With(s, k, n.(held := n.held + {t}, written := n.written[t := Revised(n.work, s.rows[t], n.at)]))
    else With(s, k, n)
  }

  function AfterInsert(s: State, k: nat, t: Token, family: Family, fingerprint: string): State
    requires k in s.txns && s.txns[k].work.LoggingIn?
  {
    var n := s.txns[k];
    var row := NewSession(n.work.user, family, GivenPrint(fingerprint), n.at, s.cfg);
    With(s, k, n.(written := n.written[t := row], inserted := Some(t)))
  }

  /** The next row is inserted, and the one held is replaced by it. */
  function AfterExchange(s: State, k: nat, next: Token): State
    requires k in s.txns && s.txns[k].work.Exchanging? && s.txns[k].work.token in s.rows
  {
    var n := s.txns[k];
    var t, row := n.work.token, s.rows[n.work.token];
    var written := map[next := NewSession(row.user, row.family, n.work.device, n.at, s.cfg)];
    With(s, k, n.(written := written[t := Revoke(row, n.at, Rotated).(replacedBy := Some(next))], inserted := Some(next)))
  }

  function Step(s: State, k: nat, a: Action): State
    requires Enabled(s, k, a)
  {
    match a
    case BeginLogin(user, at) => With(s, k, Begun(s.rows, at, LoggingIn(user), {}))
    case BeginLogout(t, at) =>
      With(s, k, Txn(at, LoggingOut, s.rows.Keys, if t in s.rows && IsLive(s.rows[t]) then {t} else {}, {}, map[], None))
    case BeginRefresh(t, fingerprint, at) => AfterRead(s, k, t, fingerprint, at)
    case BeginEnding => With(s, k, Begun(s.rows, s.txns[k].at, s.txns[k].work.(begun := true), s.txns[k].held))
    case RevokeRow(t) => AfterRevoke(s, k, t)
    case Insert(t, family, fingerprint) => AfterInsert(s, k, t, family, fingerprint)
    case Exchange(next) => AfterExchange(s, k, next)
    case Commit => s.(rows := s.rows + s.txns[k].written, txns := s.txns - {k})
    case Abort => s.(txns := s.txns - {k})
  }

  type Event = (nat, Action)

  predicate Legal(s: State, run: seq<Event>)
    decreases |run|
  {
    run != [] ==> Enabled(s, run[0].0, run[0].1) && Legal(Step(s, run[0].0, run[0].1), run[1..])
  }

  function Run(s: State, run: seq<Event>): State
    requires Legal(s, run)
    decreases |run|
  {
    if run == [] then s else Run(Step(s, run[0].0, run[0].1), run[1..])
  }

  // --------------------------------------------------------------------------------------------- invariants

  /** What a transaction has written over a row: the row revoked. */
  predicate Revokes(before: Session, after: Session) {
    && after.user == before.user && after.family == before.family && after.revokedAt.Some?
    && (before.replacedBy.Some? ==> after.replacedBy == before.replacedBy)
  }

  /** Every row of the kind that the transaction's UPDATE saw is live no more, or yet to be come to, or revoked. */
  predicate Handled(rows: map<Token, Session>, n: Txn) {
    forall t | t in n.seen && t in rows && IsLive(rows[t]) && Matches(n.work, rows[t]) :: t in n.todo || t in n.written
  }

  /** A transaction writes revoked versions of rows it holds, and at most one new row, of the same user. */
  predicate Sound(rows: map<Token, Session>, n: Txn) {
    && n.seen <= rows.Keys && n.todo <= n.seen && n.held <= rows.Keys
    && (forall t | t in n.written && n.inserted != Some(t) :: t in n.held && Revokes(rows[t], n.written[t]))
    && (!n.work.Exchanging? ==> forall t | t in n.written && n.inserted != Some(t) :: t in n.seen)
    && (n.inserted.Some? ==> n.inserted.value in n.written && n.inserted.value !in rows && IsLive(n.written[n.inserted.value]))
    && match n.work
       case LoggingIn(user) => Handled(rows, n) && (n.inserted.Some? ==> n.written[n.inserted.value].user == user)
       case LoggingOut => n.inserted.None?
       case Ending(_, _, begun) => n.inserted.None? && (begun ==> Handled(rows, n))
       case Exchanging(t, _) =>
         && n.todo == {} && t in n.held && IsLive(rows[t]) && rows[t].replacedBy.None?
         && (n.inserted.Some? ==> t in n.written && t != n.inserted.value && n.written[t].replacedBy.Some?
                                  && n.written[n.inserted.value].user == rows[t].user)
  }

  ghost predicate Inv(s: State) {
    && (forall q | q in s.txns :: Sound(s.rows, s.txns[q]))
    && (forall p, q, t | p in s.txns && q in s.txns && t in s.txns[p].held && t in s.txns[q].held :: p == q)
    && (forall p, q | p in s.txns && q in s.txns && s.txns[p].inserted.Some? && s.txns[p].inserted == s.txns[q].inserted :: p == q)
  }

  /** Rows are only added and revoked. */
  predicate Follows(before: map<Token, Session>, after: map<Token, Session>) {
    && before.Keys <= after.Keys
    && forall t | t in before ::
         && after[t].user == before[t].user && after[t].family == before[t].family
         && (IsLive(after[t]) ==> IsLive(before[t])) && (before[t].replacedBy.Some? ==> after[t].replacedBy.Some?)
  }

  /** What others commit leaves a transaction sound, as long as it stays off the rows it holds and its new row. */
  lemma SoundStays(before: map<Token, Session>, after: map<Token, Session>, n: Txn)
    requires Sound(before, n) && Follows(before, after)
    requires forall t | t in n.held :: after[t] == before[t]
    requires n.inserted.Some? ==> n.inserted.value !in after
    ensures Sound(after, n)
  {
  }

  lemma CommitFollows(rows: map<Token, Session>, n: Txn)
    requires Sound(rows, n)
    ensures Follows(rows, rows + n.written)
  {
  }

  lemma CommitKeepsInv(s: State, k: nat)
    requires Inv(s) && Enabled(s, k, Commit)
    ensures Inv(Step(s, k, Commit))
  {
    var t, n := Step(s, k, Commit), s.txns[k];
    CommitFollows(s.rows, n);
    forall q | q in t.txns ensures Sound(t.rows, t.txns[q]) {
      hide Follows, Handled;
      assert forall u | u in t.txns[q].held :: u !in n.written;
      SoundStays(s.rows, t.rows, t.txns[q]);
    }
  }

  /** A step of one transaction that commits nothing. */
  lemma OwnStepKeepsInv(s: State, t: State, k: nat)
    requires Inv(s) && t.rows == s.rows && t.txns.Keys == s.txns.Keys + {k} && forall q | q in s.txns && q != k :: t.txns[q] == s.txns[q]
    requires Sound(t.rows, t.txns[k]) && forall u | u in t.txns[k].held :: Free(s, k, u)
    requires t.txns[k].inserted.Some? ==> forall q | q in s.txns && q != k :: s.txns[q].inserted != t.txns[k].inserted
    ensures Inv(t)
  {
    hide Sound;
  }

  lemma BegunIsSound(rows: map<Token, Session>, at: int, work: Work, held: set<Token>)
    requires held <= rows.Keys && (work.LoggingIn? || (work.Ending? && work.begun))
    ensures Sound(rows, Begun(rows, at, work, held))
  {
  }

  lemma LogoutIsSound(s: State, k: nat, t: Token, at: int)
    requires k !in s.txns
    ensures Sound(s.rows, Step(s, k, BeginLogout(t, at)).txns[k])
  {
  }

  lemma OfOne(s: State, k: nat)
    requires Inv(s) && k in s.txns
    ensures var n := s.txns[k];
            && Sound(s.rows, n) && n.held <= s.rows.Keys && (n.work.Exchanging? ==> n.todo == {})
            && (forall t | t in n.held :: Free(s, k, t))
            && (n.inserted.Some? ==> forall q | q in s.txns && q != k :: s.txns[q].inserted != n.inserted)
  {
    hide Handled, Matches, Revokes;
  }

  lemma LeavingKeepsInv(s: State, t: State, k: nat)
    requires Inv(s) && t == s.(txns := s.txns - {k})
    ensures Inv(t)
  {
    hide Sound;
  }

  lemma ReadIsSound(s: State, k: nat, t: Token, fingerprint: string, at: int)
    requires k !in s.txns && k in AfterRead(s, k, t, fingerprint, at).txns
    ensures Sound(s.rows, AfterRead(s, k, t, fingerprint, at).txns[k])
  {
  }

  lemma RevokeIsSound(s: State, k: nat, t: Token)
    requires k in s.txns && t in s.txns[k].todo && Sound(s.rows, s.txns[k]) && !s.txns[k].work.Exchanging?
    ensures Sound(s.rows, AfterRevoke(s, k, t).txns[k])
  {
  }

  lemma InsertIsSound(s: State, k: nat, t: Token, family: Family, fingerprint: string)
    requires Enabled(s, k, Insert(t, family, fingerprint)) && Sound(s.rows, s.txns[k])
    ensures Sound(s.rows, AfterInsert(s, k, t, family, fingerprint).txns[k])
  {
  }

  lemma ExchangeIsSound(s: State, k: nat, next: Token)
    requires Enabled(s, k, Exchange(next)) && Sound(s.rows, s.txns[k])
    ensures Sound(s.rows, AfterExchange(s, k, next).txns[k])
  {
  }

  lemma StepKeepsInv(s: State, k: nat, a: Action)
    requires Inv(s) && Enabled(s, k, a)
    ensures Inv(Step(s, k, a))
  {
    hide Inv, Sound, Matching;
    var t := Step(s, k, a);
    if k in s.txns { OfOne(s, k); }
    match a
    case Commit => CommitKeepsInv(s, k);
    case Abort => LeavingKeepsInv(s, t, k);
    case BeginLogin(user, at) =>
      BegunIsSound(s.rows, at, LoggingIn(user), {});
      OwnStepKeepsInv(s, t, k);
    case BeginLogout(_, _) =>
      assert Sound(s.rows, t.txns[k]) by { LogoutIsSound(s, k, a.token, a.at); }
      OwnStepKeepsInv(s, t, k);
    case BeginRefresh(u, fingerprint, at) =>
      if k in t.txns {
        ReadIsSound(s, k, u, fingerprint, at);
        OwnStepKeepsInv(s, t, k);
      }
    case BeginEnding =>
      BegunIsSound(s.rows, s.txns[k].at, s.txns[k].work.(begun := true), s.txns[k].held);
      OwnStepKeepsInv(s, t, k);
    case RevokeRow(u) =>
      RevokeIsSound(s, k, u);
      OwnStepKeepsInv(s, t, k);
    case Insert(u, family, fingerprint) =>
      InsertIsSound(s, k, u, family, fingerprint);
      OwnStepKeepsInv(s, t, k);
    case Exchange(next) =>
      ExchangeIsSound(s, k, next);
      OwnStepKeepsInv(s, t, k);
  }

  lemma {:induction false} RunKeepsInv(s: State, run: seq<Event>)
    requires Inv(s) && Legal(s, run)
    ensures Inv(Run(s, run))
    decreases |run|
  {
    hide Inv, Step, Enabled;
    if run != [] {
      StepKeepsInv(s, run[0].0, run[0].1);
      RunKeepsInv(Step(s, run[0].0, run[0].1), run[1..]);
    }
  }

  // ------------------------------------------------------------------------------------- one live row a user

  ghost predicate OneLive(rows: map<Token, Session>) {
    forall t, u | t in rows && u in rows && IsLive(rows[t]) && IsLive(rows[u]) && rows[t].user == rows[u].user :: t == u
  }

  predicate LogsIn(s: State, k: nat, user: UserId) { k in s.txns && s.txns[k].work == LoggingIn(user) }

  /** The UPDATE of every login at work saw all live rows of its user. */
  ghost predicate Covered(s: State) {
    forall q, user, t | LogsIn(s, q, user) && t in s.rows && s.rows[t].user == user && IsLive(s.rows[t]) :: t in s.txns[q].seen
  }

  /** The commit of a transaction adds a row for the user. */
  predicate Adds(n: Txn, user: UserId) {
    n.inserted.Some? && n.inserted.value in n.written && n.written[n.inserted.value].user == user
  }

  /** A login, or an exchange, is committed while another login of the user is at work, which began its UPDATE
      before it could see the new row. */
  datatype Slip = LoginBeside | ExchangeBeside

  predicate Happens(s: State, k: nat, a: Action, slip: Slip)
    requires Enabled(s, k, a)
  {
    && a.Commit? && (if slip.LoginBeside? then s.txns[k].work.LoggingIn? else s.txns[k].work.Exchanging?)
    && exists q | q in s.txns :: q != k && s.txns[q].work.LoggingIn? && Adds(s.txns[k], s.txns[q].work.user)
  }

  predicate Slips(s: State, k: nat, a: Action)
    requires Enabled(s, k, a)
  {
    Happens(s, k, a, LoginBeside) || Happens(s, k, a, ExchangeBeside)
  }

  /** What is live after a commit was live before, or is the new row; and a login leaves no row of its user live that
      its UPDATE saw. */
  lemma LiveAfterCommit(s: State, k: nat, t: Token)
    requires Inv(s) && Enabled(s, k, Commit) && t in Step(s, k, Commit).rows && IsLive(Step(s, k, Commit).rows[t])
    ensures var n, rows := s.txns[k], Step(s, k, Commit).rows;
            if n.inserted == Some(t) then Adds(n, rows[t].user)
            else t in s.rows && IsLive(s.rows[t]) && s.rows[t].user == rows[t].user && t !in n.written
                 && (n.work.LoggingIn? && rows[t].user == n.work.user ==> t !in n.seen)
                 && (n.work.Exchanging? ==> t != n.work.token)
  {
    var n := s.txns[k];
    assert Sound(s.rows, n);
  }

  lemma CommitKeepsOneLive(s: State, k: nat)
    requires Inv(s) && OneLive(s.rows) && Covered(s) && Enabled(s, k, Commit)
    ensures OneLive(Step(s, k, Commit).rows)
  {
    var n, rows := s.txns[k], Step(s, k, Commit).rows;
    assert Sound(s.rows, n);
    forall t, u | t in rows && u in rows && IsLive(rows[t]) && IsLive(rows[u]) && rows[t].user == rows[u].user ensures t == u {
      hide Step, Handled;
      LiveAfterCommit(s, k, t);
      LiveAfterCommit(s, k, u);
      if n.work.LoggingIn? { assert LogsIn(s, k, n.work.user); }
    }
  }

  lemma CommitKeepsCovered(s: State, k: nat)
    requires Inv(s) && Covered(s) && Enabled(s, k, Commit) && !Slips(s, k, Commit)
    ensures Covered(Step(s, k, Commit))
  {
    var n, after := s.txns[k], Step(s, k, Commit);
    assert Sound(s.rows, n);
    forall q, user, t | LogsIn(after, q, user) && t in after.rows && after.rows[t].user == user && IsLive(after.rows[t])
      ensures t in after.txns[q].seen
    {
      LiveAfterCommit(s, k, t);
      assert LogsIn(s, q, user);
    }
  }

  /** A step that commits nothing: the UPDATE of a login that begins sees all rows there are. */
  lemma QuietSeen(s: State, k: nat, a: Action, q: nat, user: UserId)
    requires Enabled(s, k, a) && !a.Commit? && LogsIn(Step(s, k, a), q, user)
    ensures var t := Step(s, k, a);
            t.rows == s.rows && (t.txns[q].seen == s.rows.Keys || (LogsIn(s, q, user) && t.txns[q].seen == s.txns[q].seen))
  {
    hide Matching, Revised, Free, Unknown, Done;
  }

  lemma QuietKeepsCovered(s: State, k: nat, a: Action)
    requires Covered(s) && Enabled(s, k, a) && !a.Commit?
    ensures Step(s, k, a).rows == s.rows && Covered(Step(s, k, a))
  {
    var t := Step(s, k, a);
    forall q, user, r | LogsIn(t, q, user) && r in t.rows && t.rows[r].user == user && IsLive(t.rows[r]) ensures r in t.txns[q].seen {
      QuietSeen(s, k, a, q, user);
      hide Step, Enabled, LogsIn;
    }
    hide Covered, Matching, Revised;
  }

  lemma StepKeepsOneLive(s: State, k: nat, a: Action)
    requires Inv(s) && OneLive(s.rows) && Covered(s) && Enabled(s, k, a) && !Slips(s, k, a)
    ensures OneLive(Step(s, k, a).rows) && Covered(Step(s, k, a))
  {
    hide OneLive, Inv, Covered, Step, Enabled, Slips;
    if a.Commit? {
      CommitKeepsOneLive(s, k);
      CommitKeepsCovered(s, k);
    } else {
      QuietKeepsCovered(s, k, a);
    }
  }

  /** The transactions' slips are all among those allowed. */
  predicate Within(s: State, run: seq<Event>, allowed: set<Slip>)
    requires Legal(s, run)
    decreases |run|
  {
    run != [] ==>
      && (forall slip: Slip | Happens(s, run[0].0, run[0].1, slip) :: slip in allowed)
      && Within(Step(s, run[0].0, run[0].1), run[1..], allowed)
  }

  lemma {:induction false} RunKeepsOneLive(s: State, run: seq<Event>)
    requires Inv(s) && OneLive(s.rows) && Covered(s) && Legal(s, run) && Within(s, run, {})
    ensures OneLive(Run(s, run).rows)
    decreases |run|
  {
    hide Inv, Step, Enabled, OneLive, Covered, Happens;
    if run != [] {
      StepKeepsInv(s, run[0].0, run[0].1);
      StepKeepsOneLive(s, run[0].0, run[0].1);
      RunKeepsOneLive(Step(s, run[0].0, run[0].1), run[1..]);
    }
  }

  // --------------------------------------------------------------------------------------- what a commit leaves

  /** The login's new row is then the only live one of its user. */
  predicate Alone(rows: map<Token, Session>, user: UserId, token: Option<Token>) {
    forall t | t in rows && rows[t].user == user && IsLive(rows[t]) :: Some(t) == token
  }

  predicate Dead(rows: map<Token, Session>, family: Family) { forall t | t in rows && rows[t].family == family :: !IsLive(rows[t]) }

  /** In every run, a login's commit leaves its user with the new row alone live exactly when every live row of the
      user was already committed as the login's UPDATE began. */
  lemma LoginLeavesOneExactly(s: State, run: seq<Event>, k: nat, user: UserId)
    requires s.txns == map[] && Legal(s, run)
    requires LogsIn(Run(s, run), k, user) && Enabled(Run(s, run), k, Commit)
    ensures var t := Run(s, run);
            Alone(Step(t, k, Commit).rows, user, t.txns[k].inserted)
            <==> forall r | r in t.rows && t.rows[r].user == user && IsLive(t.rows[r]) :: r in t.txns[k].seen
  {
    hide Legal, Run;
    assert Inv(s);
    RunKeepsInv(s, run);
    var t := Run(s, run);
    var n, rows := t.txns[k], Step(t, k, Commit).rows;
    assert Sound(t.rows, n);
    forall r | r in rows && rows[r].user == user && IsLive(rows[r]) && Some(r) != n.inserted
      ensures r in t.rows && t.rows[r].user == user && IsLive(t.rows[r]) && r !in n.seen
    {
      LiveAfterCommit(t, k, r);
    }
    forall r | r in t.rows && t.rows[r].user == user && IsLive(t.rows[r]) && r !in n.seen
      ensures r in rows && rows[r].user == user && IsLive(rows[r]) && Some(r) != n.inserted
    {
      assert r !in n.written;
    }
  }

  /** And the end of a family, after a reuse or a device mismatch, leaves none of its rows live exactly when every live
      one was committed as its UPDATE began. */
  lemma EndingLeavesNoneExactly(s: State, run: seq<Event>, k: nat)
    requires s.txns == map[] && Legal(s, run)
    requires Enabled(Run(s, run), k, Commit) && Run(s, run).txns[k].work.Ending?
    ensures var t := Run(s, run); var family := t.txns[k].work.family;
            Dead(Step(t, k, Commit).rows, family)
            <==> forall r | r in t.rows && t.rows[r].family == family && IsLive(t.rows[r]) :: r in t.txns[k].seen
  {
    hide Legal, Run;
    assert Inv(s);
    RunKeepsInv(s, run);
    var t := Run(s, run);
    var n, rows, family := t.txns[k], Step(t, k, Commit).rows, t.txns[k].work.family;
    assert Sound(t.rows, n);
    forall r | r in rows && rows[r].family == family && IsLive(rows[r])
      ensures r in t.rows && t.rows[r].family == family && IsLive(t.rows[r]) && r !in n.seen
    {
    }
    forall r | r in t.rows && t.rows[r].family == family && IsLive(t.rows[r]) && r !in n.seen
      ensures r in rows && rows[r].family == family && IsLive(rows[r])
    {
      assert r !in n.written;
    }
  }

  // ------------------------------------------------------------------------------------- exchanged at most once

  /** The commit of an exchange of the token. */
  predicate Exchanges(s: State, k: nat, a: Action, t: Token) {
    a.Commit? && k in s.txns && s.txns[k].work.Exchanging? && s.txns[k].work.token == t
  }

  function ExchangeCount(s: State, run: seq<Event>, t: Token): nat
    requires Legal(s, run)
    decreases |run|
  {
    if run == [] then 0
    else (if Exchanges(s, run[0].0, run[0].1, t) then 1 else 0) + ExchangeCount(Step(s, run[0].0, run[0].1), run[1..], t)
  }

  predicate Spent(s: State, t: Token) { t in s.rows && s.rows[t].replacedBy.Some? }

  lemma StepSpends(s: State, k: nat, a: Action, t: Token)
    requires Inv(s) && Enabled(s, k, a)
    ensures Spent(s, t) ==> Spent(Step(s, k, a), t) && !Exchanges(s, k, a, t)
    ensures Exchanges(s, k, a, t) ==> Spent(Step(s, k, a), t)
  {
    if a.Commit? {
      assert Sound(s.rows, s.txns[k]);
      CommitFollows(s.rows, s.txns[k]);
    } else {
      hide Inv, Matching, Revised;
    }
  }

  /** Whatever overlaps, a refresh token is exchanged at most once. */
  lemma {:induction false} ExchangedOnceInAllInterleavings(s: State, run: seq<Event>, t: Token)
    requires Inv(s) && Legal(s, run)
    ensures ExchangeCount(s, run, t) <= if Spent(s, t) then 0 else 1
    decreases |run|
  {
    hide Inv, Step, Enabled, Spent, Exchanges;
    if run != [] {
      StepKeepsInv(s, run[0].0, run[0].1);
      StepSpends(s, run[0].0, run[0].1, t);
      ExchangedOnceInAllInterleavings(Step(s, run[0].0, run[0].1), run[1..], t);
    }
  }

  // ---------------------------------------------------------------------------------------------- two live rows

  /** The run leads from s to t, with no other slips. */
  ghost predicate Leads(s: State, run: seq<Event>, t: State, allowed: set<Slip>) {
    Legal(s, run) && Run(s, run) == t && Within(s, run, allowed)
  }

  lemma NoSteps(s: State, allowed: set<Slip>)
    ensures Leads(s, [], s, allowed)
  {
  }

  lemma {:induction false} OneMore(s: State, run: seq<Event>, t: State, k: nat, a: Action, allowed: set<Slip>)
    returns (longer: seq<Event>, u: State)
    requires Leads(s, run, t, allowed) && Enabled(t, k, a) && forall slip: Slip | Happens(t, k, a, slip) :: slip in allowed
    ensures u == Step(t, k, a) && Leads(s, longer, u, allowed)
    decreases |run|
  {
    hide Step, Enabled, Happens;
    u := Step(t, k, a);
    if run == [] {
      longer := [(k, a)];
      assert longer[1..] == [];
      NoSteps(u, allowed);
    } else {
      var rest, v := OneMore(Step(s, run[0].0, run[0].1), run[1..], t, k, a, allowed);
      longer := [run[0]] + rest;
      assert longer[1..] == rest;
    }
  }

  lemma {:induction false} MoreAllowed(s: State, run: seq<Event>, few: set<Slip>, many: set<Slip>)
    requires Legal(s, run) && Within(s, run, few) && few <= many
    ensures Within(s, run, many)
    decreases |run|
  {
    hide Step, Enabled, Happens;
    if run != [] { MoreAllowed(Step(s, run[0].0, run[0].1), run[1..], few, many); }
  }

  /** A live row of user 0. */
  function RowAt(cfg: Config, family: Family): Session { NewSession(0, family, None, 0, cfg) }

  /** A login of user 0 that has done its UPDATE, and one that has also inserted its row. */
  function Updated(seen: set<Token>): Txn { Txn(0, LoggingIn(0), seen, {}, {}, map[], None) }

  function Inserted(cfg: Config, seen: set<Token>, token: Token): Txn {
    Updated(seen).(written := map[token := RowAt(cfg, token)], inserted := Some(token))
  }

  /** A login begins, where it finds nothing to revoke. */
  lemma Begins(s: State, run: seq<Event>, t: State, k: nat, allowed: set<Slip>) returns (longer: seq<Event>, u: State)
    requires Leads(s, run, t, allowed) && k !in t.txns && t.rows == map[]
    ensures Leads(s, longer, u, allowed) && u == With(t, k, Updated({}))
  {
    hide Leads;
    longer, u := OneMore(s, run, t, k, BeginLogin(0, 0), allowed);
    assert t.rows.Keys == {} && Matching(t.rows, LoggingIn(0)) == {};
  }

  lemma Inserts(s: State, run: seq<Event>, t: State, k: nat, token: Token, seen: set<Token>, allowed: set<Slip>)
    returns (longer: seq<Event>, u: State)
    requires Leads(s, run, t, allowed) && k in t.txns && t.txns[k].(held := {}) == Updated(seen) && Unknown(t, token)
    ensures Leads(s, longer, u, allowed) && u == With(t, k, Inserted(t.cfg, seen, token).(held := t.txns[k].held))
  {
    hide Leads;
    longer, u := OneMore(s, run, t, k, Insert(token, token, ""), allowed);
    assert map[][token := RowAt(t.cfg, token)] == map[token := RowAt(t.cfg, token)];
  }

  lemma Commits(s: State, run: seq<Event>, t: State, k: nat, allowed: set<Slip>) returns (longer: seq<Event>, u: State)
    requires Leads(s, run, t, allowed) && Enabled(t, k, Commit)
    requires || (t.txns[k].work.LoggingIn? && LoginBeside in allowed)
             || (t.txns[k].work.Exchanging? && ExchangeBeside in allowed)
             || forall q | q in t.txns && q != k :: !t.txns[q].work.LoggingIn?
    ensures Leads(s, longer, u, allowed) && u == t.(rows := t.rows + t.txns[k].written, txns := t.txns - {k})
  {
    hide Leads;
    longer, u := OneMore(s, run, t, k, Commit, allowed);
  }

  /** Two logins of one user, both of whose UPDATEs begin before either commits. */
  lemma TwoLogins(cfg: Config) returns (run: seq<Event>, t: State)
    ensures Leads(State(cfg, map[], map[]), run, t, {LoginBeside})
    ensures t == State(cfg, map[1 := RowAt(cfg, 1), 2 := RowAt(cfg, 2)], map[])
  {
    hide Leads;
    var s, allowed := State(cfg, map[], map[]), {LoginBeside};
    NoSteps(s, allowed);
    run, t := Begins(s, [], s, 1, allowed);
    run, t := Begins(s, run, t, 2, allowed);
    assert t.txns == map[1 := Updated({}), 2 := Updated({})];
    assert Unknown(t, 1);
    run, t := Inserts(s, run, t, 1, 1, {}, allowed);
    assert Unknown(t, 2);
    run, t := Inserts(s, run, t, 2, 2, {}, allowed);
    assert t.txns == map[1 := Inserted(cfg, {}, 1), 2 := Inserted(cfg, {}, 2)];
    run, t := Commits(s, run, t, 1, allowed);
    assert t.txns == map[2 := Inserted(cfg, {}, 2)];
    run, t := Commits(s, run, t, 2, allowed);
    assert t.rows == map[1 := RowAt(cfg, 1), 2 := RowAt(cfg, 2)];
    assert t.txns == map[];
  }

  /** The row whose token is exchanged, what becomes of it, and what it is exchanged for. */
  const OLD := Session(0, 1, None, 1, None, None, None)
  const EXCHANGED := OLD.(revokedAt := Some(0), reason := Some(Rotated), replacedBy := Some(2))

  function Next(cfg: Config): Session { NewSession(0, 1, None, 0, cfg) }

  function Reader(): Txn { Txn(0, Exchanging(1, None), {}, {}, {1}, map[], None) }

  function Exchanger(cfg: Config): Txn { Reader().(written := map[1 := EXCHANGED, 2 := Next(cfg)], inserted := Some(2)) }

  /** A login whose UPDATE has yet to come to the row. */
  function Waiting(): Txn { Updated({1}).(todo := {1}) }

  /** An exchange has its row and a login of the user begins its UPDATE, which waits for that row. */
  lemma ExchangeAndLogin(cfg: Config) returns (run: seq<Event>, t: State)
    ensures Leads(State(cfg, map[1 := OLD], map[]), run, t, {ExchangeBeside})
    ensures t == State(cfg, map[1 := EXCHANGED, 2 := Next(cfg)], map[4 := Waiting()])
  {
    hide Leads;
    var s, allowed := State(cfg, map[1 := OLD], map[]), {ExchangeBeside};
    NoSteps(s, allowed);
    run, t := OneMore(s, [], s, 3, BeginRefresh(1, "", 0), allowed);
    assert t.txns == map[3 := Reader()];
    run, t := OneMore(s, run, t, 4, BeginLogin(0, 0), allowed);
    assert t.rows.Keys == {1} && Matching(t.rows, LoggingIn(0)) == {1};
    assert t.txns == map[3 := Reader(), 4 := Waiting()];
    assert Unknown(t, 2);
    run, t := OneMore(s, run, t, 3, Exchange(2), allowed);
    assert t.txns[3].written == map[1 := EXCHANGED, 2 := Next(cfg)];
    assert t.txns == map[3 := Exchanger(cfg), 4 := Waiting()];
    run, t := Commits(s, run, t, 3, allowed);
    assert t.rows == map[1 := EXCHANGED, 2 := Next(cfg)];
    assert t.txns == map[4 := Waiting()];
  }

  /** The login goes on: the row it waited for is no longer live, and the one it was exchanged for it never sees. */
  lemma LoginBesideExchange(cfg: Config) returns (run: seq<Event>, t: State)
    ensures Leads(State(cfg, map[1 := OLD], map[]), run, t, {ExchangeBeside})
    ensures t == State(cfg, map[1 := EXCHANGED, 2 := Next(cfg), 5 := RowAt(cfg, 5)], map[])
  {
    hide Leads;
    var s, allowed := State(cfg, map[1 := OLD], map[]), {ExchangeBeside};
    run, t := ExchangeAndLogin(cfg);
    run, t := OneMore(s, run, t, 4, RevokeRow(1), allowed);
    assert Waiting().todo - {1} == {};
    assert t.txns == map[4 := Updated({1})];
    assert Unknown(t, 5);
    run, t := Inserts(s, run, t, 4, 5, {1}, allowed);
    assert t.txns == map[4 := Inserted(cfg, {1}, 5)];
    run, t := Commits(s, run, t, 4, allowed);
    assert t.rows == map[1 := EXCHANGED, 2 := Next(cfg), 5 := RowAt(cfg, 5)];
    assert t.txns == map[];
  }

  /** In every run with no other slips, from tables with at most one live row a user, there is never more than one. */
  ghost predicate KeepsOneLive(allowed: set<Slip>) {
    forall s: State, run | s.txns == map[] && OneLive(s.rows) && Legal(s, run) && Within(s, run, allowed) :: OneLive(Run(s, run).rows)
  }

  /** No user ever has two live rows, whatever overlaps, exactly when no login and no exchange is committed while
      another login of the user is between the beginning of its UPDATE and its end. */
  lemma OneLiveRowExactly(allowed: set<Slip>)
    ensures KeepsOneLive(allowed) <==> allowed == {}
  {
    hide Legal, Run, Within;
    if allowed == {} {
      forall s: State, run | s.txns == map[] && OneLive(s.rows) && Legal(s, run) && Within(s, run, allowed) ensures OneLive(Run(s, run).rows) {
        assert Inv(s) && Covered(s);
        RunKeepsOneLive(s, run);
      }
    } else if LoginBeside in allowed {
      var s := State(Config(1, 1), map[], map[]);
      var run, t := TwoLogins(s.cfg);
      MoreAllowed(s, run, {LoginBeside}, allowed);
      assert IsLive(t.rows[1]) && IsLive(t.rows[2]) && t.rows[1].user == t.rows[2].user;
      assert OneLive(s.rows) && !OneLive(t.rows);
    } else {
      assert ExchangeBeside in allowed by {
        var slip :| slip in allowed;
        assert slip == LoginBeside || slip == ExchangeBeside;
      }
      var s := State(Config(1, 1), map[1 := OLD], map[]);
      var run, t := LoginBesideExchange(s.cfg);
      MoreAllowed(s, run, {ExchangeBeside}, allowed);
      assert IsLive(t.rows[2]) && IsLive(t.rows[5]) && t.rows[2].user == t.rows[5].user;
      assert OneLive(s.rows) && !OneLive(t.rows);
    }
  }

  // --------------------------------------------------------------------------------- a reuse beside an exchange

  /** The row before the one that is exchanged. */
  const FIRST := Session(0, 1, None, 1, Some(0), Some(Rotated), Some(1))

  function Ender(todo: set<Token>, held: set<Token>, written: map<Token, Session>): Txn {
    Txn(0, Ending(1, Reused, true), {0, 1}, todo, held, written, None)
  }

  /** An exchange has inserted its row as the reuse of an older token of the family is detected. */
  lemma ExchangeAndReuse(cfg: Config) returns (run: seq<Event>, t: State)
    ensures Leads(State(cfg, map[0 := FIRST, 1 := OLD], map[]), run, t, {})
    ensures t == State(cfg, map[0 := FIRST, 1 := OLD], map[3 := Exchanger(cfg), 4 := Txn(0, Ending(1, Reused, false), {}, {}, {0}, map[], None)])
  {
    hide Leads;
    var s, allowed: set<Slip> := State(cfg, map[0 := FIRST, 1 := OLD], map[]), {};
    NoSteps(s, allowed);
    run, t := OneMore(s, [], s, 3, BeginRefresh(1, "", 0), allowed);
    assert t.txns == map[3 := Reader()];
    run, t := OneMore(s, run, t, 3, Exchange(2), allowed);
    assert t.txns[3].written == map[1 := EXCHANGED, 2 := Next(cfg)];
    assert t.txns == map[3 := Exchanger(cfg)];
    run, t := OneMore(s, run, t, 4, BeginRefresh(0, "", 0), allowed);
  }

  /** The family's UPDATE begins, and the exchange commits. */
  lemma EndingBegins(cfg: Config) returns (run: seq<Event>, t: State)
    ensures Leads(State(cfg, map[0 := FIRST, 1 := OLD], map[]), run, t, {})
    ensures t == State(cfg, map[0 := FIRST, 1 := EXCHANGED, 2 := Next(cfg)], map[4 := Ender({0, 1}, {0}, map[])])
  {
    hide Leads;
    var s, allowed: set<Slip> := State(cfg, map[0 := FIRST, 1 := OLD], map[]), {};
    run, t := ExchangeAndReuse(cfg);
    run, t := OneMore(s, run, t, 4, BeginEnding, allowed);
    assert t.rows.Keys == {0, 1} && Matching(t.rows, Ending(1, Reused, true)) == {0, 1};
    assert t.txns == map[3 := Exchanger(cfg), 4 := Ender({0, 1}, {0}, map[])];
    run, t := Commits(s, run, t, 3, allowed);
    assert t.rows == map[0 := FIRST, 1 := EXCHANGED, 2 := Next(cfg)];
    assert t.txns == map[4 := Ender({0, 1}, {0}, map[])];
  }

  /** The family's UPDATE waits for the exchanged row and never sees the new one: the family lives on. */
  lemma ReuseBesideExchange(cfg: Config) returns (run: seq<Event>, t: State)
    ensures Leads(State(cfg, map[0 := FIRST, 1 := OLD], map[]), run, t, {})
    ensures Enabled(t, 4, Commit) && t.txns[4].work == Ending(1, Reused, true) && !Dead(Step(t, 4, Commit).rows, 1)
  {
    hide Leads;
    var s, allowed: set<Slip> := State(cfg, map[0 := FIRST, 1 := OLD], map[]), {};
    run, t := EndingBegins(cfg);
    assert {0, 1} - {0} == {1} && {1} - {1} == {};
    run, t := OneMore(s, run, t, 4, RevokeRow(0), allowed);
    run, t := OneMore(s, run, t, 4, RevokeRow(1), allowed);
    assert t.txns[4].todo == {};
    assert 2 in Step(t, 4, Commit).rows && Step(t, 4, Commit).rows[2] == Next(cfg);
  }

  // ------------------------------------------------------------------------------------------ calls by themselves

  lemma FirstStep(s: State, k: nat, a: Action, rest: seq<Event>)
    requires Enabled(s, k, a) && Legal(Step(s, k, a), rest)
    ensures Legal(s, [(k, a)] + rest) && Run(s, [(k, a)] + rest) == Run(Step(s, k, a), rest)
  {
    assert ([(k, a)] + rest)[1..] == rest;
  }

  lemma OneStep(s: State, k: nat, a: Action)
    requires Enabled(s, k, a)
    ensures Legal(s, [(k, a)]) && Run(s, [(k, a)]) == Step(s, k, a)
  {
    assert [(k, a)][1..] == [];
  }

  /** What an UPDATE writes that comes to these rows undisturbed. */
  function Writes(rows: map<Token, Session>, work: Work, at: int, todo: set<Token>): map<Token, Session>
    requires todo <= rows.Keys
  {
    map t | t in todo :: Revised(work, rows[t], at)
  }

  lemma {:induction false} RevokesAll(s: State, k: nat) returns (run: seq<Event>)
    requires s.txns.Keys == {k} && s.txns[k].todo <= Matching(s.rows, s.txns[k].work)
    ensures Legal(s, run)
    ensures var n := s.txns[k];
            Run(s, run) == With(s, k, n.(todo := {}, held := n.held + n.todo, written := n.written + Writes(s.rows, n.work, n.at, n.todo)))
    decreases s.txns[k].todo
  {
    var n := s.txns[k];
    if n.todo == {} {
      run := [];
      assert n.held + n.todo == n.held && n.written + Writes(s.rows, n.work, n.at, n.todo) == n.written;
      assert With(s, k, n) == s;
    } else {
      var t :| t in n.todo;
      var u := Step(s, k, RevokeRow(t));
      run := RevokesAll(u, k);
      FirstStep(s, k, RevokeRow(t), run);
      run := [(k, RevokeRow(t))] + run;
      RevokesOne(s.rows, n, t);
    }
  }

  lemma RevokesOne(rows: map<Token, Session>, n: Txn, t: Token)
    requires t in n.todo && n.todo <= rows.Keys
    ensures n.held + {t} + (n.todo - {t}) == n.held + n.todo
    ensures n.written[t := Revised(n.work, rows[t], n.at)] + Writes(rows, n.work, n.at, n.todo - {t})
         == n.written + Writes(rows, n.work, n.at, n.todo)
  {
    hide Revised;
  }

  lemma {:induction false} RunsOn(s: State, run: seq<Event>, rest: seq<Event>)
    requires Legal(s, run) && Legal(Run(s, run), rest)
    ensures Legal(s, run + rest) && Run(s, run + rest) == Run(Run(s, run), rest)
    decreases |run|
  {
    hide Step, Enabled;
    if run == [] {
      assert run + rest == rest;
    } else {
      RunsOn(Step(s, run[0].0, run[0].1), run[1..], rest);
      assert (run + rest)[1..] == run[1..] + rest;
    }
  }

  /** Nobody else is at work, and the transaction has just begun its UPDATE: it goes through its rows and ends. */
  lemma UpdateAlone(s: State, k: nat) returns (run: seq<Event>, t: State)
    requires s.txns.Keys == {k} && s.txns[k].todo == Matching(s.rows, s.txns[k].work) && s.txns[k].written == map[]
    ensures Legal(s, run) && t == Run(s, run) && t.rows == s.rows && t.cfg == s.cfg && t.txns.Keys == {k}
    ensures t.txns[k].work == s.txns[k].work && t.txns[k].todo == {} && t.txns[k].at == s.txns[k].at && t.txns[k].inserted == s.txns[k].inserted
    ensures t.txns[k].written == Writes(s.rows, s.txns[k].work, s.txns[k].at, Matching(s.rows, s.txns[k].work))
  {
    var n := s.txns[k];
    run := RevokesAll(s, k);
    hide Legal, Run, Writes;
    t := Run(s, run);
    assert map[] + Writes(s.rows, n.work, n.at, n.todo) == Writes(s.rows, n.work, n.at, n.todo);
  }

  /** A login with nobody else at work is its transaction. */
  lemma LoginIsSteps(s: State, k: nat, store: Store, user: UserId, identity: Option<User>, passwordOk: bool, fingerprint: string,
                     f: Fresh, at: int) returns (run: seq<Event>)
    requires s.txns == map[] && store.sessions == s.rows && f.token !in s.rows
    ensures Legal(s, run) && Run(s, run).txns == map[]
    ensures Run(s, run).rows == LoginStep(store, user, identity, passwordOk, fingerprint, f, at, s.cfg).0.sessions
  {
    hide Legal, Run, Matching;
    if identity.None? || !passwordOk || identity.value.status != Active {
      run := [];
      NothingRuns(s);
    } else {
      var begin, insert := BeginLogin(user, at), Insert(f.token, f.family, fingerprint);
      var t := Step(s, k, begin);
      var revokes, u := UpdateAlone(t, k);
      var v := Step(u, k, insert);
      OneStep(v, k, Commit);
      FirstStep(u, k, insert, [(k, Commit)]);
      RunsOn(t, revokes, [(k, insert)] + [(k, Commit)]);
      FirstStep(s, k, begin, revokes + ([(k, insert)] + [(k, Commit)]));
      run := [(k, begin)] + (revokes + ([(k, insert)] + [(k, Commit)]));
      LoginWrites(s.rows, user, at, f.token, NewSession(user, f.family, GivenPrint(fingerprint), at, s.cfg));
      assert Run(s, run) == Step(v, k, Commit);
      assert Step(v, k, Commit).txns == map[];
    }
  }

  lemma NothingRuns(s: State)
    ensures Legal(s, []) && Run(s, []) == s
  {
  }

  lemma LoginWrites(rows: map<Token, Session>, user: UserId, at: int, token: Token, row: Session)
    ensures rows + Writes(rows, LoggingIn(user), at, Matching(rows, LoggingIn(user)))[token := row] == RevokeLiveOfUser(rows, user, at)[token := row]
  {
  }

  lemma EndingWrites(rows: map<Token, Session>, family: Family, reason: Reason, at: int)
    ensures var work := Ending(family, reason, true);
            rows + Writes(rows, work, at, Matching(rows, work)) == RevokeFamily(rows, family, at, reason)
  {
  }

  /** A logout of a session, with nobody else at work, is its transaction. */
  lemma LogoutIsSteps(s: State, k: nat, store: Store, token: Token, at: int) returns (run: seq<Event>)
    requires s.txns == map[] && store.sessions == s.rows
    ensures Legal(s, run) && Run(s, run).txns == map[]
    ensures Run(s, run).rows == LogoutStep(store, None, Some(token), at).sessions
  {
    hide Legal, Run;
    var begin := BeginLogout(token, at);
    var t := Step(s, k, begin);
    if t.txns[k].todo == {} {
      OneStep(t, k, Commit);
      FirstStep(s, k, begin, [(k, Commit)]);
      run := [(k, begin)] + [(k, Commit)];
      assert Step(t, k, Commit).txns == map[] && Step(t, k, Commit).rows == s.rows;
    } else {
      var u := Step(t, k, RevokeRow(token));
      assert u.txns[k].todo == {};
      OneStep(u, k, Commit);
      FirstStep(t, k, RevokeRow(token), [(k, Commit)]);
      FirstStep(s, k, begin, [(k, RevokeRow(token))] + [(k, Commit)]);
      run := [(k, begin)] + ([(k, RevokeRow(token))] + [(k, Commit)]);
      assert Step(u, k, Commit).txns == map[];
      assert Step(u, k, Commit).rows == s.rows[token := Revoke(s.rows[token], at, LoggedOut)];
    }
  }

  /** A refresh whose user's account is active, with nobody else at work, is its transaction. */
  lemma RefreshIsSteps(s: State, k: nat, store: Store, token: Token, fingerprint: string, f: Fresh, at: int) returns (run: seq<Event>)
    requires s.txns == map[] && store.sessions == s.rows && f.token !in s.rows
    requires token in s.rows ==> s.rows[token].user in store.users && store.users[s.rows[token].user].status == Active
    ensures Legal(s, run) && Run(s, run).txns == map[]
    ensures Run(s, run).rows == RefreshStep(store, token, fingerprint, f, at, s.cfg).0.sessions
  {
    hide Legal, Run, Matching, RevokeFamily;
    var begin := BeginRefresh(token, fingerprint, at);
    var t := Step(s, k, begin);
    if k !in t.txns {
      OneStep(s, k, begin);
      run := [(k, begin)];
    } else if t.txns[k].work.Exchanging? {
      var u := Step(t, k, Exchange(f.token));
      OneStep(u, k, Commit);
      FirstStep(t, k, Exchange(f.token), [(k, Commit)]);
      FirstStep(s, k, begin, [(k, Exchange(f.token))] + [(k, Commit)]);
      run := [(k, begin)] + ([(k, Exchange(f.token))] + [(k, Commit)]);
      assert Step(u, k, Commit).txns == map[];
      assert Run(s, run) == Step(u, k, Commit);
    } else {
      var u := Step(t, k, BeginEnding);
      var revokes, v := UpdateAlone(u, k);
      OneStep(v, k, Commit);
      RunsOn(u, revokes, [(k, Commit)]);
      FirstStep(t, k, BeginEnding, revokes + [(k, Commit)]);
      FirstStep(s, k, begin, [(k, BeginEnding)] + (revokes + [(k, Commit)]));
      run := [(k, begin)] + ([(k, BeginEnding)] + (revokes + [(k, Commit)]));
      EndingWrites(s.rows, s.rows[token].family, t.txns[k].work.reason, at);
      assert Run(s, run) == Step(v, k, Commit);
      assert Step(v, k, Commit).txns == map[];
    }
  }
}
