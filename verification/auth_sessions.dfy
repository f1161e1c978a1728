/** Refresh-token rotation: login, refresh with reuse detection, logout and the check of access
    tokens, each one transaction over the session, user and revoked-token tables. A session row is
    kept under its token hash, which the table makes unique. */
module AuthSessions {
  import opened Outcomes

  type Token = nat
  type UserId = nat
  type Family = nat

  datatype AccountStatus = Active | Blocked | Frozen | Inactive

  datatype User = User(tokenVersion: nat, status: AccountStatus)

  datatype Reason = NewLogin | Rotated | Reused | DeviceMismatch | LoggedOut

  datatype Session = Session(
    user: UserId, family: Family, fingerprint: Option<string>, expiresAt: int,
    revokedAt: Option<int>, reason: Option<Reason>, replacedBy: Option<Token>)

  datatype AccessToken = AccessToken(sub: UserId, jti: nat, version: nat, exp: int)

  datatype Store = Store(
    sessions: map<Token, Session>, users: map<UserId, User>, revoked: map<nat, int>, issued: set<AccessToken>)

  /** Token lifetimes in seconds. */
  datatype Config = Config(accessTtl: nat, refreshTtl: nat)

  /** Values drawn at random for one call. */
  datatype Fresh = Fresh(token: Token, family: Family, jti: nat)

  datatype Granted = Granted(access: AccessToken, refresh: Token)

  datatype Refusal =
    | InvalidCredentials | AccountNotActive | InvalidRefreshToken | ReuseDetected | DeviceChanged | IdentityNotActive

  type Reply = Result<Granted, Refusal>

  predicate Unused(s: Store, f: Fresh) {
    && f.token !in s.sessions
    && (forall t | t in s.sessions :: s.sessions[t].family != f.family)
    && (forall a | a in s.issued :: a.jti != f.jti)
    && f.jti !in s.revoked
  }

  // -------------------------------------------------------------------------------- specification

  /** An empty fingerprint counts as none. */
  function GivenPrint(fingerprint: string): Option<string> {
    if fingerprint == "" then None else Some(fingerprint)
  }

  function Revoke(s: Session, at: int, reason: Reason): Session {
    s.(revokedAt := Some(at), reason := Some(reason))
  }

  function RevokeLiveOfUser(sessions: map<Token, Session>, user: UserId, now: int): map<Token, Session> {
    map t | t in sessions ::
      if sessions[t].user == user && sessions[t].revokedAt.None? then Revoke(sessions[t], now, NewLogin) else sessions[t]
  }

  /** Reuse keeps the times of rows already revoked; a device mismatch overwrites them. */
  function RevokeFamily(sessions: map<Token, Session>, family: Family, now: int, reason: Reason): map<Token, Session> {
    map t | t in sessions ::
      if sessions[t].family != family then sessions[t]
      else Revoke(sessions[t], if reason == Reused && sessions[t].revokedAt.Some? then sessions[t].revokedAt.value else now, reason)
  }

  function NewSession(user: UserId, family: Family, fingerprint: Option<string>, now: int, cfg: Config): Session {
    Session(user, family, fingerprint, now + cfg.refreshTtl * 1000, None, None, None)
  }

  function NewAccess(user: UserId, version: nat, jti: nat, now: int, cfg: Config): AccessToken {
    AccessToken(user, jti, version, now / 1000 + cfg.accessTtl)
  }

  /** The two statements of a login's transaction. */
  function LoginRevokes(s: Store, user: UserId, now: int): Store { s.(sessions := RevokeLiveOfUser(s.sessions, user, now)) }

  function LoginInserts(s: Store, user: UserId, fingerprint: string, f: Fresh, now: int, cfg: Config): Store {
    s.(sessions := s.sessions[f.token := NewSession(user, f.family, GivenPrint(fingerprint), now, cfg)])
  }

  /** The identity was read, and its password checked, some time before the transaction. */
  function LoginStep(s: Store, user: UserId, identity: Option<User>, passwordOk: bool, fingerprint: string, f: Fresh,
                     now: int, cfg: Config): (Store, Reply)
  {
    if identity.None? || !passwordOk then (s, Err(InvalidCredentials))
    else if identity.value.status != Active then (s, Err(AccountNotActive))
    else
      var access := NewAccess(user, identity.value.tokenVersion, f.jti, now, cfg);
      var after := LoginInserts(LoginRevokes(s, user, now), user, fingerprint, f, now, cfg);
      (after.(issued := s.issued + {access}), Ok(Granted(access, f.token)))
  }

  predicate Mismatch(presented: string, known: Option<string>) {
    presented != "" && known.Some? && presented != known.value
  }

  function Rotate(s: Store, token: Token, fingerprint: string, f: Fresh, now: int, cfg: Config): (Store, Reply)
    requires token in s.sessions && s.sessions[token].user in s.users
  {
    var current := s.sessions[token];
    var device := if fingerprint != "" then Some(fingerprint) else current.fingerprint;
    var next := NewSession(current.user, current.family, device, now, cfg);
    var access := NewAccess(current.user, s.users[current.user].tokenVersion, f.jti, now, cfg);
    (s.(sessions := s.sessions[f.token := next][token := Revoke(current, now, Rotated).(replacedBy := Some(f.token))],
        issued := s.issued + {access}),
     Ok(Granted(access, f.token)))
  }

  function RefreshStep(s: Store, token: Token, fingerprint: string, f: Fresh, now: int, cfg: Config): (Store, Reply)
  {
    if token !in s.sessions || s.sessions[token].expiresAt <= now then (s, Err(InvalidRefreshToken)) else
    var current := s.sessions[token];
    if current.revokedAt.Some? || current.replacedBy.Some? then
      var users := if current.user !in s.users then s.users else
                   s.users[current.user := s.users[current.user].(tokenVersion := s.users[current.user].tokenVersion + 1)];
      (s.(sessions := RevokeFamily(s.sessions, current.family, now, Reused), users := users), Err(ReuseDetected))
    else if Mismatch(fingerprint, current.fingerprint) then
      (s.(sessions := RevokeFamily(s.sessions, current.family, now, DeviceMismatch)), Err(DeviceChanged))
    else if current.user !in s.users || s.users[current.user].status != Active then
      (s, Err(IdentityNotActive))
    else
      Rotate(s, token, fingerprint, f, now, cfg)
  }

  function LogoutStep(s: Store, access: Option<AccessToken>, refresh: Option<Token>, now: int): Store {
    var sessions :=
      if refresh.Some? && refresh.value in s.sessions && s.sessions[refresh.value].revokedAt.None?
      then s.sessions[refresh.value := Revoke(s.sessions[refresh.value], now, LoggedOut)] else s.sessions;
    var revoked :=
      if access.Some? && access.value in s.issued && access.value.jti !in s.revoked
      then s.revoked[access.value.jti := access.value.exp * 1000] else s.revoked;
    s.(sessions := sessions, revoked := revoked)
  }

  /** Whether getSession accepts the access token: genuine, unexpired, not revoked, of the user's
      current version, and the account neither blocked nor frozen. */
  predicate Accepts(s: Store, a: AccessToken, now: int) {
    && a in s.issued && now / 1000 < a.exp
    && !(a.jti in s.revoked && s.revoked[a.jti] > now)
    && a.sub in s.users && s.users[a.sub].tokenVersion == a.version
    && s.users[a.sub].status != Blocked && s.users[a.sub].status != Frozen
  }

  // ------------------------------------------------------------------------------------- the service

  class AuthService {
    var sessions: map<Token, Session>
    var users: map<UserId, User>
    var revoked: map<nat, int>
    ghost var issued: set<AccessToken>

    ghost function Snapshot(): Store
      reads this
    {
      Store(sessions, users, revoked, issued)
    }

    constructor (users: map<UserId, User>)
      ensures Snapshot() == Store(map[], users, map[], {})
    {
      sessions, revoked, issued := map[], map[], {};
      this.users := users;
    }

    method CreateRefreshSession(user: UserId, fingerprint: Option<string>, token: Token, family: Family, now: int, cfg: Config)
      modifies this`sessions
      ensures sessions == old(sessions)[token := NewSession(user, family, fingerprint, now, cfg)]
      ensures sessions[token] == Session(user, family, fingerprint, now + cfg.refreshTtl * 1000, None, None, None)
    {
      var expiresAt := now + cfg.refreshTtl * 1000;
      sessions := sessions[token := Session(user, family, fingerprint, expiresAt, None, None, None)];
    }

    method IssueAccessToken(user: UserId, version: nat, jti: nat, now: int, cfg: Config) returns (a: AccessToken)
      modifies this`issued
      ensures a == NewAccess(user, version, jti, now, cfg) && issued == old(issued) + {a}
      ensures a == AccessToken(user, jti, version, now / 1000 + cfg.accessTtl)
    {
      a := AccessToken(user, jti, version, now / 1000 + cfg.accessTtl);
      issued := issued + {a};
    }

    method FindIdentity(user: UserId) returns (identity: Option<User>)
      ensures identity == if user in users then Some(users[user]) else None
    {
      return if user in users then Some(users[user]) else None;
    }

    /** What follows the reading of the identity. */
    method Login(user: UserId, identity: Option<User>, passwordOk: bool, fingerprint: string, f: Fresh, now: int, cfg: Config)
      returns (r: Reply)
      modifies this
      ensures (Snapshot(), r) == LoginStep(old(Snapshot()), user, identity, passwordOk, fingerprint, f, now, cfg)
    {
      if identity.None? || !passwordOk { return Err(InvalidCredentials); }
      if identity.value.status != Active { return Err(AccountNotActive); }
      sessions := map t | t in sessions ::
        if sessions[t].user == user && sessions[t].revokedAt.None?
        then sessions[t].(revokedAt := Some(now), reason := Some(NewLogin)) else sessions[t];
      assert sessions == RevokeLiveOfUser(old(sessions), user, now);
      CreateRefreshSession(user, if fingerprint == "" then None else Some(fingerprint), f.token, f.family, now, cfg);
      var access := IssueAccessToken(user, identity.value.tokenVersion, f.jti, now, cfg);
      return Ok(Granted(access, f.token));
    }

    method Refresh(token: Token, fingerprint: string, f: Fresh, now: int, cfg: Config) returns (r: Reply)
      requires Unused(Snapshot(), f)
      modifies this
      ensures (Snapshot(), r) == RefreshStep(old(Snapshot()), token, fingerprint, f, now, cfg)
    {
      if token !in sessions || sessions[token].expiresAt <= now { return Err(InvalidRefreshToken); }
      var current := sessions[token];
      if current.revokedAt.Some? || current.replacedBy.Some? {
        sessions := map t | t in sessions ::
          if sessions[t].family == current.family
          then sessions[t].(revokedAt := if sessions[t].revokedAt.Some? then sessions[t].revokedAt else Some(now), reason := Some(Reused))
          else sessions[t];
        assert sessions == RevokeFamily(old(sessions), current.family, now, Reused);
        if current.user in users {
          var user := users[current.user];
          users := users[current.user := user.(tokenVersion := user.tokenVersion + 1)];
        }
        return Err(ReuseDetected);
      }
      if fingerprint != "" && current.fingerprint.Some? && fingerprint != current.fingerprint.value {
        sessions := map t | t in sessions ::
          if sessions[t].family == current.family
          then sessions[t].(revokedAt := Some(now), reason := Some(DeviceMismatch)) else sessions[t];
        assert sessions == RevokeFamily(old(sessions), current.family, now, DeviceMismatch);
        return Err(DeviceChanged);
      }
      if current.user !in users || users[current.user].status != Active { return Err(IdentityNotActive); }
      CreateRefreshSession(current.user, if fingerprint != "" then Some(fingerprint) else current.fingerprint,
                           f.token, current.family, now, cfg);
      sessions := sessions[token := current.(revokedAt := Some(now), reason := Some(Rotated), replacedBy := Some(f.token))];
      var access := IssueAccessToken(current.user, users[current.user].tokenVersion, f.jti, now, cfg);
      return Ok(Granted(access, f.token));
    }

    /** `genuine` is the outcome of checking the access token's signature. */
    method Logout(access: Option<AccessToken>, genuine: bool, refresh: Option<Token>, now: int)
      requires access.Some? ==> (genuine <==> access.value in issued)
      modifies this
      ensures Snapshot() == LogoutStep(old(Snapshot()), access, refresh, now)
    {
      if refresh.Some? && refresh.value in sessions && sessions[refresh.value].revokedAt.None? {
        var row := sessions[refresh.value];
        sessions := sessions[refresh.value := row.(revokedAt := Some(now), reason := Some(LoggedOut))];
      }
      if access.Some? && genuine && access.value.jti !in revoked {
        revoked := revoked[access.value.jti := access.value.exp * 1000];
      }
    }

    method GetSession(a: AccessToken, genuine: bool, now: int) returns (ok: bool)
      requires genuine <==> a in issued
      ensures ok == Accepts(Snapshot(), a, now)
    {
      if !genuine || now / 1000 >= a.exp { return false; }
      if a.jti in revoked && revoked[a.jti] > now { return false; }
      if a.sub !in users || users[a.sub].tokenVersion != a.version { return false; }
      return users[a.sub].status != Blocked && users[a.sub].status != Frozen;
    }
  }

  // ------------------------------------------------------------------------------------------- runs

  datatype Action =
    | Login(user: UserId, identity: Option<User>, passwordOk: bool, fingerprint: string, drawn: Fresh)
    | Refresh(token: Token, fingerprint: string, drawn: Fresh)
    | Logout(access: Option<AccessToken>, refresh: Option<Token>)
    | SetStatus(user: UserId, status: AccountStatus)
    | SignUp(user: UserId, status: AccountStatus)

  datatype Event = Event(action: Action, now: int)

  /** The identity a login goes by is one the user had at some time: its version is not above the current one. */
  predicate ReadBefore(s: Store, user: UserId, identity: Option<User>) {
    identity.Some? ==> user in s.users && identity.value.tokenVersion <= s.users[user].tokenVersion
  }

  /** Random values are new, and users sign up once. */
  predicate Possible(s: Store, a: Action) {
    match a
    case Login(u, identity, _, _, f) => Unused(s, f) && ReadBefore(s, u, identity)
    case Refresh(_, _, f) => Unused(s, f)
    case Logout(_, _) => true
    case SetStatus(u, _) => u in s.users
    case SignUp(u, _) => u !in s.users
  }

  function Step(s: Store, e: Event, cfg: Config): Store {
    match e.action
    case Login(u, identity, ok, device, f) => LoginStep(s, u, identity, ok, device, f, e.now, cfg).0
    case Refresh(t, device, f) => RefreshStep(s, t, device, f, e.now, cfg).0
    case Logout(a, t) => LogoutStep(s, a, t, e.now)
    case SetStatus(u, status) => if u in s.users then s.(users := s.users[u := s.users[u].(status := status)]) else s
    case SignUp(u, status) => s.(users := s.users[u := User(0, status)])
  }

  /** Events at non-decreasing times, none before `clock`. */
  predicate Legal(s: Store, clock: int, events: seq<Event>, cfg: Config)
    decreases |events|
  {
    events != [] ==>
      clock <= events[0].now && Possible(s, events[0].action) && Legal(Step(s, events[0], cfg), events[0].now, events[1..], cfg)
  }

  function Run(s: Store, events: seq<Event>, cfg: Config): Store
    decreases |events|
  {
    if events == [] then s else Run(Step(s, events[0], cfg), events[1..], cfg)
  }

  /** No session yet, nobody has a token. */
  predicate Initial(s: Store) { s.sessions == map[] && s.revoked == map[] && s.issued == {} }

  // ------------------------------------------------------------------------------------- invariants

  predicate Live(s: Store, t: Token) { t in s.sessions && s.sessions[t].revokedAt.None? }

  /** Exactly the rows of the family, none twice. */
  ghost predicate Lists(sessions: map<Token, Session>, family: Family, chain: seq<Token>) {
    && |chain| > 0
    && (forall i, j | 0 <= i < j < |chain| :: chain[i] != chain[j])
    && (forall i | 0 <= i < |chain| :: chain[i] in sessions && sessions[chain[i]].family == family)
    && (forall t | t in sessions && sessions[t].family == family :: t in chain)
  }

  predicate Known(sessions: map<Token, Session>, chain: seq<Token>) { forall i | 0 <= i < |chain| :: chain[i] in sessions }

  /** Every row but the last is revoked and replaced by the next one. */
  predicate Linked(sessions: map<Token, Session>, chain: seq<Token>)
    requires Known(sessions, chain)
  {
    && (forall i | 0 <= i < |chain| - 1 :: sessions[chain[i]].replacedBy == Some(chain[i + 1]) && sessions[chain[i]].revokedAt.Some?)
    && (|chain| > 0 ==> sessions[chain[|chain| - 1]].replacedBy.None?)
  }

  /** One user; the fingerprint is unknown up to some row and the same from then on. */
  predicate OneDevice(sessions: map<Token, Session>, chain: seq<Token>)
    requires Known(sessions, chain)
  {
    forall i, j | 0 <= i < j < |chain| ::
      && sessions[chain[i]].user == sessions[chain[j]].user
      && (sessions[chain[i]].fingerprint.Some? ==> sessions[chain[j]].fingerprint == sessions[chain[i]].fingerprint)
  }

  /** The rows of the family, oldest first. */
  ghost predicate IsChain(sessions: map<Token, Session>, family: Family, chain: seq<Token>) {
    Lists(sessions, family, chain) && Linked(sessions, chain) && OneDevice(sessions, chain)
  }

  ghost predicate HasChain(sessions: map<Token, Session>, family: Family) {
    exists chain :: IsChain(sessions, family, chain)
  }

  ghost predicate Chained(s: Store) {
    forall t | t in s.sessions :: HasChain(s.sessions, s.sessions[t].family)
  }

  ghost predicate OneLivePerUser(s: Store) {
    forall t, u | Live(s, t) && Live(s, u) && s.sessions[t].user == s.sessions[u].user :: t == u
  }

  /** Access tokens never run ahead of their user's version, and have distinct identifiers. */
  predicate VersionsBounded(s: Store) {
    && (forall t | t in s.sessions :: s.sessions[t].user in s.users)
    && (forall a | a in s.issued :: a.sub in s.users && a.version <= s.users[a.sub].tokenVersion)
    && (forall a, b | a in s.issued && b in s.issued && a.jti == b.jti :: a == b)
    && (forall a | a in s.issued && a.jti in s.revoked :: s.revoked[a.jti] == a.exp * 1000)
  }

  ghost predicate Inv(s: Store) { Chained(s) && OneLivePerUser(s) && VersionsBounded(s) }

  /** Rows that differ at most in when and why they are revoked. */
  predicate OnlyRevoked(before: map<Token, Session>, after: map<Token, Session>) {
    && after.Keys == before.Keys
    && forall t | t in before ::
         && after[t].user == before[t].user && after[t].family == before[t].family
         && after[t].fingerprint == before[t].fingerprint && after[t].replacedBy == before[t].replacedBy
         && (before[t].revokedAt.Some? ==> after[t].revokedAt.Some?)
  }

  lemma RevokingKeepsChains(before: map<Token, Session>, after: map<Token, Session>, family: Family)
    requires OnlyRevoked(before, after) && HasChain(before, family)
    ensures HasChain(after, family)
  {
    var chain :| IsChain(before, family, chain);
    assert IsChain(after, family, chain);
  }

  /** Adding a row of a new family. */
  lemma NewFamilyKeepsChains(before: map<Token, Session>, token: Token, row: Session, family: Family)
    requires token !in before && row.replacedBy.None? && forall t | t in before :: before[t].family != row.family
    requires family == row.family || HasChain(before, family)
    ensures HasChain(before[token := row], family)
  {
    var after := before[token := row];
    if family == row.family {
      assert IsChain(after, family, [token]);
    } else {
      var chain :| IsChain(before, family, chain);
      assert IsChain(after, family, chain);
    }
  }

  /** A row that is not replaced is the last of its family's chain. */
  lemma UnreplacedIsLast(sessions: map<Token, Session>, family: Family, chain: seq<Token>, token: Token)
    requires IsChain(sessions, family, chain) && token in sessions && sessions[token].family == family
    requires sessions[token].replacedBy.None?
    ensures chain[|chain| - 1] == token
  {
    forall i | 0 <= i < |chain| - 1 ensures chain[i] != token {
      assert sessions[chain[i]].replacedBy == Some(chain[i + 1]);
    }
    assert token in chain;
  }

  function Replaced(before: map<Token, Session>, token: Token, next: Token, row: Session, now: int): map<Token, Session>
    requires token in before
  {
    before[next := row][token := Revoke(before[token], now, Rotated).(replacedBy := Some(next))]
  }

  lemma ListsLonger(before: map<Token, Session>, token: Token, next: Token, row: Session, now: int, chain: seq<Token>)
    requires token in before && next !in before && row.family == before[token].family && Lists(before, row.family, chain)
    ensures Lists(Replaced(before, token, next, row, now), row.family, chain + [next])
  {
    var after := Replaced(before, token, next, row, now);
    assert forall t | t in chain :: t in chain + [next];
    assert next in chain + [next];
  }

  lemma LinkedLonger(before: map<Token, Session>, token: Token, next: Token, row: Session, now: int, chain: seq<Token>)
    requires token in before && next !in before && row.replacedBy.None?
    requires Lists(before, before[token].family, chain) && Linked(before, chain) && chain[|chain| - 1] == token
    ensures Known(Replaced(before, token, next, row, now), chain + [next])
    ensures Linked(Replaced(before, token, next, row, now), chain + [next])
  {
    var after := Replaced(before, token, next, row, now);
    var longer := chain + [next];
    forall i | 0 <= i < |longer| - 1
      ensures longer[i] in after && after[longer[i]].replacedBy == Some(longer[i + 1]) && after[longer[i]].revokedAt.Some?
    {
      if i < |chain| - 1 { assert chain[i] != token && after[chain[i]] == before[chain[i]]; }
    }
  }

  lemma OneDeviceLonger(before: map<Token, Session>, token: Token, next: Token, row: Session, now: int, chain: seq<Token>)
    requires token in before && next !in before && row.user == before[token].user
    requires before[token].fingerprint.Some? ==> row.fingerprint == before[token].fingerprint
    requires Lists(before, before[token].family, chain) && OneDevice(before, chain) && chain[|chain| - 1] == token
    ensures Known(Replaced(before, token, next, row, now), chain + [next])
    ensures OneDevice(Replaced(before, token, next, row, now), chain + [next])
  {
    var after := Replaced(before, token, next, row, now);
    assert forall i | 0 <= i < |chain| :: after[chain[i]].user == before[chain[i]].user
                                       && after[chain[i]].fingerprint == before[chain[i]].fingerprint;
  }

  lemma RotationExtendsChain(before: map<Token, Session>, token: Token, next: Token, row: Session, now: int)
    requires token in before && next !in before && before[token].replacedBy.None?
    requires row.family == before[token].family && row.user == before[token].user && row.replacedBy.None?
    requires before[token].fingerprint.Some? ==> row.fingerprint == before[token].fingerprint
    requires HasChain(before, row.family)
    ensures HasChain(Replaced(before, token, next, row, now), row.family)
  {
    hide Replaced, Lists, Linked, OneDevice;
    var chain :| IsChain(before, row.family, chain);
    UnreplacedIsLast(before, row.family, chain, token);
    ListsLonger(before, token, next, row, now, chain);
    LinkedLonger(before, token, next, row, now, chain);
    OneDeviceLonger(before, token, next, row, now, chain);
    assert IsChain(Replaced(before, token, next, row, now), row.family, chain + [next]);
  }

  lemma OtherFamiliesKeepChains(before: map<Token, Session>, token: Token, next: Token, row: Session, now: int, family: Family)
    requires token in before && next !in before
    requires row.family == before[token].family && family != row.family
    requires HasChain(before, family)
    ensures HasChain(Replaced(before, token, next, row, now), family)
  {
    var after := Replaced(before, token, next, row, now);
    var chain :| IsChain(before, family, chain);
    assert Lists(after, family, chain);
    SameRows(before, after, family, chain);
  }

  lemma SameRows(before: map<Token, Session>, after: map<Token, Session>, family: Family, chain: seq<Token>)
    requires IsChain(before, family, chain) && Lists(after, family, chain)
    requires forall i | 0 <= i < |chain| :: after[chain[i]] == before[chain[i]]
    ensures IsChain(after, family, chain)
  {
  }

  // ----------------------------------------------------------------------------- what a step keeps

  lemma RevokeKeepsInv(s: Store, t: Store)
    requires Inv(s) && OnlyRevoked(s.sessions, t.sessions) && t.issued == s.issued && t.revoked == s.revoked
    requires forall u | u in s.users :: u in t.users && s.users[u].tokenVersion <= t.users[u].tokenVersion
    ensures Inv(t)
  {
    hide HasChain;
    forall k | k in t.sessions ensures HasChain(t.sessions, t.sessions[k].family) {
      RevokingKeepsChains(s.sessions, t.sessions, s.sessions[k].family);
    }
    assert forall k | Live(t, k) :: Live(s, k);
  }

  lemma LoginKeepsChained(sessions: map<Token, Session>, middle: map<Token, Session>, token: Token, row: Session)
    requires forall k | k in sessions :: HasChain(sessions, sessions[k].family)
    requires OnlyRevoked(sessions, middle) && token !in sessions && row.replacedBy.None?
    requires forall k | k in sessions :: sessions[k].family != row.family
    ensures var after := middle[token := row]; forall k | k in after :: HasChain(after, after[k].family)
  {
    hide HasChain;
    var after := middle[token := row];
    forall k | k in after ensures HasChain(after, after[k].family) {
      if k != token { RevokingKeepsChains(sessions, middle, sessions[k].family); }
      NewFamilyKeepsChains(middle, token, row, after[k].family);
    }
  }

  /** One more session, for a user with no live session but that one. */
  lemma OneLiveAfter(s: Store, t: Store, token: Token)
    requires OneLivePerUser(s) && token in t.sessions
    requires forall k | Live(t, k) && k != token :: Live(s, k) && s.sessions[k].user == t.sessions[k].user
    requires forall k | Live(t, k) && k != token :: t.sessions[k].user != t.sessions[token].user
    ensures OneLivePerUser(t)
  {
  }

  lemma IssueKeepsVersions(s: Store, t: Store, f: Fresh, access: AccessToken)
    requires VersionsBounded(s) && Unused(s, f) && t.users == s.users && t.revoked == s.revoked
    requires t.issued == s.issued + {access} && access.jti == f.jti
    requires access.sub in s.users && access.version <= s.users[access.sub].tokenVersion
    requires forall k | k in t.sessions :: t.sessions[k].user in s.users
    ensures VersionsBounded(t)
  {
  }

  lemma LoginKeepsInv(s: Store, user: UserId, identity: Option<User>, passwordOk: bool, fingerprint: string, f: Fresh,
                      now: int, cfg: Config)
    requires Inv(s) && Unused(s, f) && ReadBefore(s, user, identity)
    ensures Inv(LoginStep(s, user, identity, passwordOk, fingerprint, f, now, cfg).0)
  {
    hide HasChain, VersionsBounded, OneLivePerUser, Live;
    var (t, reply) := LoginStep(s, user, identity, passwordOk, fingerprint, f, now, cfg);
    if reply.Ok? {
      var middle := RevokeLiveOfUser(s.sessions, user, now);
      LoginKeepsChained(s.sessions, middle, f.token, NewSession(user, f.family, GivenPrint(fingerprint), now, cfg));
      LoginKeepsOneLive(s, user, identity, fingerprint, f, now, cfg);
      LoginKeepsVersions(s, user, identity, fingerprint, f, now, cfg);
    }
  }

  lemma LoginKeepsOneLive(s: Store, user: UserId, identity: Option<User>, fingerprint: string, f: Fresh, now: int, cfg: Config)
    requires OneLivePerUser(s) && Unused(s, f)
    ensures OneLivePerUser(LoginStep(s, user, identity, true, fingerprint, f, now, cfg).0)
  {
    var (t, reply) := LoginStep(s, user, identity, true, fingerprint, f, now, cfg);
    if reply.Ok? { OneLiveAfter(s, t, f.token); }
  }

  lemma LoginKeepsVersions(s: Store, user: UserId, identity: Option<User>, fingerprint: string, f: Fresh, now: int, cfg: Config)
    requires VersionsBounded(s) && Unused(s, f) && ReadBefore(s, user, identity)
    ensures VersionsBounded(LoginStep(s, user, identity, true, fingerprint, f, now, cfg).0)
  {
    var (t, reply) := LoginStep(s, user, identity, true, fingerprint, f, now, cfg);
    if reply.Ok? { IssueKeepsVersions(s, t, f, reply.value.access); }
  }

  /** The token may be exchanged. */
  predicate Exchangeable(s: Store, token: Token, fingerprint: string) {
    && token in s.sessions && s.sessions[token].user in s.users
    && s.sessions[token].revokedAt.None? && s.sessions[token].replacedBy.None?
    && !Mismatch(fingerprint, s.sessions[token].fingerprint)
  }

  lemma RotateKeepsChained(s: Store, token: Token, fingerprint: string, f: Fresh, now: int, cfg: Config)
    requires Chained(s) && Unused(s, f) && Exchangeable(s, token, fingerprint)
    ensures Chained(Rotate(s, token, fingerprint, f, now, cfg).0)
  {
    hide HasChain;
    var t := Rotate(s, token, fingerprint, f, now, cfg).0;
    var row := t.sessions[f.token];
    assert t.sessions == Replaced(s.sessions, token, f.token, row, now);
    forall k | k in t.sessions ensures HasChain(t.sessions, t.sessions[k].family) {
      if t.sessions[k].family == row.family {
        RotationExtendsChain(s.sessions, token, f.token, row, now);
      } else {
        OtherFamiliesKeepChains(s.sessions, token, f.token, row, now, t.sessions[k].family);
      }
    }
  }

  lemma RotateKeepsInv(s: Store, token: Token, fingerprint: string, f: Fresh, now: int, cfg: Config)
    requires Inv(s) && Unused(s, f) && Exchangeable(s, token, fingerprint)
    ensures Inv(Rotate(s, token, fingerprint, f, now, cfg).0)
  {
    hide Chained, HasChain;
    var (t, reply) := Rotate(s, token, fingerprint, f, now, cfg);
    RotateKeepsChained(s, token, fingerprint, f, now, cfg);
    assert Live(s, token);
    OneLiveAfter(s, t, f.token);
    IssueKeepsVersions(s, t, f, reply.value.access);
  }

  lemma RefreshKeepsInv(s: Store, token: Token, fingerprint: string, f: Fresh, now: int, cfg: Config)
    requires Inv(s) && Unused(s, f)
    ensures Inv(RefreshStep(s, token, fingerprint, f, now, cfg).0)
  {
    hide Inv, HasChain;
    var (t, reply) := RefreshStep(s, token, fingerprint, f, now, cfg);
    if reply.Ok? {
      RotateKeepsInv(s, token, fingerprint, f, now, cfg);
    } else {
      RevokeKeepsInv(s, t);
    }
  }

  lemma LogoutKeepsInv(s: Store, access: Option<AccessToken>, refresh: Option<Token>, now: int)
    requires Inv(s)
    ensures Inv(LogoutStep(s, access, refresh, now))
  {
    hide HasChain;
    var t := LogoutStep(s, access, refresh, now);
    var u := s.(sessions := t.sessions);
    RevokeKeepsInv(s, u);
    assert forall k :: Live(t, k) <==> Live(u, k);
  }

  lemma StepKeepsInv(s: Store, e: Event, cfg: Config)
    requires Inv(s) && Possible(s, e.action)
    ensures Inv(Step(s, e, cfg))
  {
    hide Inv, HasChain;
    match e.action
    case Login(u, identity, ok, device, f) => LoginKeepsInv(s, u, identity, ok, device, f, e.now, cfg);
    case Refresh(t, device, f) => RefreshKeepsInv(s, t, device, f, e.now, cfg);
    case Logout(a, t) => LogoutKeepsInv(s, a, t, e.now);
    case SetStatus(_, _) => RevokeKeepsInv(s, Step(s, e, cfg));
    case SignUp(_, _) => RevokeKeepsInv(s, Step(s, e, cfg));
  }

  lemma {:induction false} RunKeepsInv(s: Store, clock: int, events: seq<Event>, cfg: Config)
    requires Inv(s) && Legal(s, clock, events, cfg)
    ensures Inv(Run(s, events, cfg))
    decreases |events|
  {
    hide Inv, Step;
    if events != [] {
      StepKeepsInv(s, events[0], cfg);
      RunKeepsInv(Step(s, events[0], cfg), events[0].now, events[1..], cfg);
    }
  }

  /** After any run every family is one chain of rows, each revoked and replaced by the next, whose
      last row alone can be live; and no user has two live rows. */
  lemma FamiliesAreChains(s: Store, clock: int, events: seq<Event>, cfg: Config)
    requires Initial(s) && Legal(s, clock, events, cfg)
    ensures var t := Run(s, events, cfg);
            && (forall k | k in t.sessions :: exists chain :: IsChain(t.sessions, t.sessions[k].family, chain))
            && (forall k, l | Live(t, k) && Live(t, l) && t.sessions[k].user == t.sessions[l].user :: k == l)
  {
    hide Run, Legal, IsChain;
    assert Inv(s);
    RunKeepsInv(s, clock, events, cfg);
    var t := Run(s, events, cfg);
    assert Chained(t);
    forall k | k in t.sessions ensures exists chain :: IsChain(t.sessions, t.sessions[k].family, chain) {
      assert HasChain(t.sessions, t.sessions[k].family);
    }
  }

  // ------------------------------------------------------------------------- what never comes back

  /** Nothing is deleted, un-revoked or moved to another family, no expiry changes, and versions only grow. */
  predicate Later(s: Store, t: Store) {
    && (forall k | k in s.sessions ::
          && k in t.sessions && t.sessions[k].family == s.sessions[k].family && t.sessions[k].expiresAt == s.sessions[k].expiresAt
          && (s.sessions[k].revokedAt.Some? ==> t.sessions[k].revokedAt.Some?))
    && (forall u | u in s.users :: u in t.users && s.users[u].tokenVersion <= t.users[u].tokenVersion)
    && s.issued <= t.issued
    && (forall j | j in s.revoked :: j in t.revoked && t.revoked[j] == s.revoked[j])
  }

  predicate DeadFamily(s: Store, family: Family) {
    forall k | k in s.sessions && s.sessions[k].family == family :: s.sessions[k].revokedAt.Some?
  }

  /** A family that has rows, none of them live. */
  predicate Retired(s: Store, family: Family) {
    DeadFamily(s, family) && exists k | k in s.sessions :: s.sessions[k].family == family
  }

  lemma RefreshIsLater(s: Store, token: Token, fingerprint: string, f: Fresh, now: int, cfg: Config)
    requires Unused(s, f)
    ensures Later(s, RefreshStep(s, token, fingerprint, f, now, cfg).0)
  {
  }

  lemma StepIsLater(s: Store, e: Event, cfg: Config)
    requires Possible(s, e.action)
    ensures Later(s, Step(s, e, cfg))
  {
    if e.action.Refresh? {
      hide RefreshStep, Later, LoginStep, LogoutStep;
      RefreshIsLater(s, e.action.token, e.action.fingerprint, e.action.drawn, e.now, cfg);
    } else {
      hide RefreshStep;
    }
  }

  lemma StepKeepsRetired(s: Store, e: Event, cfg: Config, family: Family)
    requires Possible(s, e.action) && Retired(s, family)
    ensures Retired(Step(s, e, cfg), family)
  {
    var t := Step(s, e, cfg);
    var k :| k in s.sessions && s.sessions[k].family == family;
    assert k in t.sessions && t.sessions[k].family == family;
  }

  lemma {:induction false} RunIsLater(s: Store, clock: int, events: seq<Event>, cfg: Config)
    requires Legal(s, clock, events, cfg)
    ensures Later(s, Run(s, events, cfg))
    ensures forall family | Retired(s, family) :: Retired(Run(s, events, cfg), family)
    decreases |events|
  {
    hide Step, Retired, Possible;
    if events != [] {
      StepIsLater(s, events[0], cfg);
      forall family | Retired(s, family) ensures Retired(Step(s, events[0], cfg), family) {
        StepKeepsRetired(s, events[0], cfg, family);
      }
      RunIsLater(Step(s, events[0], cfg), events[0].now, events[1..], cfg);
    }
  }

  /** A refresh token that was exchanged is never exchanged again, whatever happens in between. */
  lemma ExchangedAtMostOnce(s: Store, token: Token, device: string, f: Fresh, now: int, events: seq<Event>,
                            device': string, f': Fresh, now': int, cfg: Config)
    requires Possible(s, Refresh(token, device, f)) && RefreshStep(s, token, device, f, now, cfg).1.Ok?
    requires Legal(RefreshStep(s, token, device, f, now, cfg).0, now, events, cfg)
    ensures var t := Run(RefreshStep(s, token, device, f, now, cfg).0, events, cfg);
            RefreshStep(t, token, device', f', now', cfg).1.Err?
  {
    RunIsLater(RefreshStep(s, token, device, f, now, cfg).0, now, events, cfg);
  }

  /** Presenting an unexpired token that was already exchanged or revoked kills its family for good,
      and every access token its user had been issued is refused from then on. */
  lemma ReuseIsFinal(s: Store, token: Token, device: string, f: Fresh, now: int, events: seq<Event>, cfg: Config)
    requires Inv(s) && Possible(s, Refresh(token, device, f))
    requires token in s.sessions && s.sessions[token].expiresAt > now
    requires s.sessions[token].revokedAt.Some? || s.sessions[token].replacedBy.Some?
    requires Legal(RefreshStep(s, token, device, f, now, cfg).0, now, events, cfg)
    ensures var t := Run(RefreshStep(s, token, device, f, now, cfg).0, events, cfg);
            && RefreshStep(s, token, device, f, now, cfg).1 == Err(ReuseDetected)
            && DeadFamily(t, s.sessions[token].family)
            && forall a, at | a in s.issued && a.sub == s.sessions[token].user :: !Accepts(t, a, at)
  {
    hide Chained, OneLivePerUser, Run, Legal;
    var u := RefreshStep(s, token, device, f, now, cfg).0;
    var family := s.sessions[token].family;
    assert token in u.sessions && u.sessions[token].family == family;
    assert Retired(u, family);
    RunIsLater(u, now, events, cfg);
    assert Retired(Run(u, events, cfg), family);
  }

  /** An access token given to logout is refused from then on. */
  lemma LogoutIsFinal(s: Store, access: AccessToken, refresh: Option<Token>, now: int, events: seq<Event>, at: int, cfg: Config)
    requires Inv(s) && access in s.issued
    requires Legal(LogoutStep(s, Some(access), refresh, now), now, events, cfg)
    ensures !Accepts(Run(LogoutStep(s, Some(access), refresh, now), events, cfg), access, at)
  {
    var u := LogoutStep(s, Some(access), refresh, now);
    RunIsLater(u, now, events, cfg);
    assert u.revoked[access.jti] == access.exp * 1000;
  }

  /** The event detects the reuse of a session of this user. */
  predicate DetectsReuse(s: Store, e: Event, user: UserId, cfg: Config) {
    && e.action.Refresh? && e.action.token in s.sessions && s.sessions[e.action.token].user == user
    && RefreshStep(s, e.action.token, e.action.fingerprint, e.action.drawn, e.now, cfg).1 == Err(ReuseDetected)
  }

  /** What makes an accepted access token refused: a reuse detected for its user, a logout that
      presents it, or its account being blocked or frozen; and nothing else. A new login, an
      ordinary refresh, a device mismatch or a logout without it leave it accepted. */
  lemma AccessEndsExactlyWhen(s: Store, e: Event, a: AccessToken, at: int, cfg: Config)
    requires Inv(s) && Possible(s, e.action) && Accepts(s, a, at)
    ensures !Accepts(Step(s, e, cfg), a, at)
            <==> || DetectsReuse(s, e, a.sub, cfg)
                 || (e.action.Logout? && e.action.access == Some(a))
                 || (e.action.SetStatus? && e.action.user == a.sub && e.action.status in {Blocked, Frozen})
  {
    hide Chained, OneLivePerUser;
  }

  // ------------------------------------------------------------------------------ every answer to a refresh

  /** The row of a token that is known and not expired. */
  predicate Presented(s: Store, token: Token, now: int) { token in s.sessions && now < s.sessions[token].expiresAt }

  predicate UsedUp(s: Store, token: Token) {
    token in s.sessions && (s.sessions[token].revokedAt.Some? || s.sessions[token].replacedBy.Some?)
  }

  /** Both fingerprints are given, and they differ. */
  predicate OtherDevice(s: Store, token: Token, fingerprint: string) {
    token in s.sessions && fingerprint != "" && s.sessions[token].fingerprint.Some? && s.sessions[token].fingerprint.value != fingerprint
  }

  predicate MayEnter(s: Store, token: Token) {
    token in s.sessions && s.sessions[token].user in s.users && s.users[s.sessions[token].user].status == Active
  }

  /** Each answer of a refresh is given exactly when it should be. */
  lemma RefreshAnswersExactly(s: Store, token: Token, fingerprint: string, f: Fresh, now: int, cfg: Config)
    ensures var r, live := RefreshStep(s, token, fingerprint, f, now, cfg).1, Presented(s, token, now) && !UsedUp(s, token);
            && (r == Err(InvalidRefreshToken) <==> !Presented(s, token, now))
            && (r == Err(ReuseDetected) <==> Presented(s, token, now) && UsedUp(s, token))
            && (r == Err(DeviceChanged) <==> live && OtherDevice(s, token, fingerprint))
            && (r == Err(IdentityNotActive) <==> live && !OtherDevice(s, token, fingerprint) && !MayEnter(s, token))
            && (r.Ok? <==> live && !OtherDevice(s, token, fingerprint) && MayEnter(s, token))
  {
    hide RevokeFamily;
  }

  /** After a refused refresh: a used token ends all sessions of its family and every access token of its user, another
      device ends the sessions alone, and anything else changes nothing. Rows of other families and other users stay. */
  lemma RefusedRefreshLeaves(s: Store, token: Token, fingerprint: string, f: Fresh, now: int, cfg: Config)
    requires RefreshStep(s, token, fingerprint, f, now, cfg).1.Err?
    ensures var (t, r) := RefreshStep(s, token, fingerprint, f, now, cfg);
            && t.sessions.Keys == s.sessions.Keys && t.users.Keys == s.users.Keys && t.revoked == s.revoked && t.issued == s.issued
            && (forall u | u in s.users ::
                  t.users[u].status == s.users[u].status
                  && t.users[u].tokenVersion == s.users[u].tokenVersion
                     + if r.error == ReuseDetected && u == s.sessions[token].user then 1 else 0)
            && (r.error != ReuseDetected && r.error != DeviceChanged ==> t == s)
            && (r.error == ReuseDetected || r.error == DeviceChanged ==>
                  forall k | k in s.sessions ::
                    if s.sessions[k].family != s.sessions[token].family then t.sessions[k] == s.sessions[k]
                    else t.sessions[k].revokedAt.Some?
                         && t.sessions[k].reason == Some(if r.error == ReuseDetected then Reused else DeviceMismatch))
  {
  }

  /** After a refresh that is granted: the presented token is revoked and points to the new one, which goes on for the
      same user, family and device, or binds a device that was not known; every other session stays as it was. */
  lemma GrantedRefreshLeaves(s: Store, token: Token, fingerprint: string, f: Fresh, now: int, cfg: Config)
    requires RefreshStep(s, token, fingerprint, f, now, cfg).1.Ok? && f.token !in s.sessions
    ensures var (t, r) := RefreshStep(s, token, fingerprint, f, now, cfg);
            var row := s.sessions[token];
            && r.value.refresh == f.token && t.users == s.users && t.revoked == s.revoked && t.issued == s.issued + {r.value.access}
            && r.value.access.sub == row.user && r.value.access.jti == f.jti && r.value.access.version == s.users[row.user].tokenVersion
            && t.sessions.Keys == s.sessions.Keys + {f.token}
            && t.sessions[token] == row.(revokedAt := Some(now), reason := Some(Rotated), replacedBy := Some(f.token))
            && (forall k | k in s.sessions && k != token :: t.sessions[k] == s.sessions[k])
            && t.sessions[f.token].user == row.user && t.sessions[f.token].family == row.family
            && Live(t, f.token) && t.sessions[f.token].replacedBy.None?
            && t.sessions[f.token].fingerprint == if row.fingerprint.Some? || fingerprint == "" then row.fingerprint else Some(fingerprint)
  {
  }

  /** Each answer of a login is given exactly when it should be, and one that is granted leaves the user its new session
      alone live; a login that is refused changes nothing. */
  lemma LoginAnswersExactly(s: Store, user: UserId, identity: Option<User>, passwordOk: bool, fingerprint: string, f: Fresh,
                            now: int, cfg: Config)
    requires f.token !in s.sessions
    ensures var (t, r) := LoginStep(s, user, identity, passwordOk, fingerprint, f, now, cfg);
            && (r == Err(InvalidCredentials) <==> !(identity.Some? && passwordOk))
            && (r == Err(AccountNotActive) <==> identity.Some? && passwordOk && identity.value.status != Active)
            && (r.Ok? <==> identity.Some? && passwordOk && identity.value.status == Active)
            && (r.Err? ==> t == s)
            && (r.Ok? ==>
                  && r.value.refresh == f.token && r.value.access.sub == user && r.value.access.version == identity.value.tokenVersion
                  && r.value.access.jti == f.jti && t.issued == s.issued + {r.value.access} && t.users == s.users && t.revoked == s.revoked
                  && t.sessions.Keys == s.sessions.Keys + {f.token}
                  && (forall k | k in t.sessions && t.sessions[k].user == user :: Live(t, k) <==> k == f.token)
                  && (forall k | k in s.sessions ::
                        t.sessions[k] == if s.sessions[k].user == user && s.sessions[k].revokedAt.None?
                                         then s.sessions[k].(revokedAt := Some(now), reason := Some(NewLogin)) else s.sessions[k])
                  && t.sessions[f.token].user == user && t.sessions[f.token].family == f.family
                  && t.sessions[f.token].fingerprint == if fingerprint == "" then None else Some(fingerprint))
  {
  }

  // ------------------------------------------------------------------------------------ how long tokens last

  /** The tokens of an answer last as configured: whatever happens later, the refresh token is unknown or expired to
      the service exactly from the end of its lifetime on, and the access token is not accepted past the end of its
      own; and with nothing happening it is accepted up to then. */
  ghost predicate LastsAsConfigured(t: Store, g: Granted, now: int, cfg: Config) {
    && (forall events, later, device, f | Legal(t, now, events, cfg) ::
          && (RefreshStep(Run(t, events, cfg), g.refresh, device, f, later, cfg).1 == Err(InvalidRefreshToken)
              <==> later >= now + cfg.refreshTtl * 1000)
          && (Accepts(Run(t, events, cfg), g.access, later) ==> later / 1000 < now / 1000 + cfg.accessTtl))
    && (forall later :: Accepts(t, g.access, later) <==> later / 1000 < now / 1000 + cfg.accessTtl)
  }

  lemma RowLasts(t: Store, token: Token, now: int, expiry: int, events: seq<Event>, later: int, device: string, f: Fresh, cfg: Config)
    requires token in t.sessions && t.sessions[token].expiresAt == expiry && Legal(t, now, events, cfg)
    ensures RefreshStep(Run(t, events, cfg), token, device, f, later, cfg).1 == Err(InvalidRefreshToken) <==> later >= expiry
  {
    RunIsLater(t, now, events, cfg);
    hide Run, Legal;
  }

  lemma TokensLast(t: Store, g: Granted, now: int, cfg: Config)
    requires g.refresh in t.sessions && t.sessions[g.refresh].expiresAt == now + cfg.refreshTtl * 1000
    requires g.access.exp == now / 1000 + cfg.accessTtl && g.access in t.issued && g.access.jti !in t.revoked
    requires g.access.sub in t.users && t.users[g.access.sub] == User(g.access.version, Active)
    ensures LastsAsConfigured(t, g, now, cfg)
  {
    forall events, later, device, f | Legal(t, now, events, cfg)
      ensures RefreshStep(Run(t, events, cfg), g.refresh, device, f, later, cfg).1 == Err(InvalidRefreshToken)
              <==> later >= now + cfg.refreshTtl * 1000
      ensures Accepts(Run(t, events, cfg), g.access, later) ==> later / 1000 < now / 1000 + cfg.accessTtl
    {
      RowLasts(t, g.refresh, now, now + cfg.refreshTtl * 1000, events, later, device, f, cfg);
    }
    hide RefreshStep, Run, Legal;
  }

  /** The tokens of a login last as configured. */
  lemma LoginTokensLast(s: Store, user: UserId, passwordOk: bool, device: string, f: Fresh, now: int, cfg: Config)
    requires Unused(s, f) && user in s.users && LoginStep(s, user, Some(s.users[user]), passwordOk, device, f, now, cfg).1.Ok?
    ensures var (t, answer) := LoginStep(s, user, Some(s.users[user]), passwordOk, device, f, now, cfg);
            LastsAsConfigured(t, answer.value, now, cfg)
  {
    var (t, answer) := LoginStep(s, user, Some(s.users[user]), passwordOk, device, f, now, cfg);
    hide LastsAsConfigured, RevokeLiveOfUser;
    TokensLast(t, answer.value, now, cfg);
  }

  /** So do those of a refresh. */
  lemma RefreshTokensLast(s: Store, token: Token, device: string, f: Fresh, now: int, cfg: Config)
    requires Unused(s, f) && RefreshStep(s, token, device, f, now, cfg).1.Ok?
    ensures var (t, answer) := RefreshStep(s, token, device, f, now, cfg); LastsAsConfigured(t, answer.value, now, cfg)
  {
    var (t, answer) := RefreshStep(s, token, device, f, now, cfg);
    hide LastsAsConfigured, RevokeFamily;
    TokensLast(t, answer.value, now, cfg);
  }
}
