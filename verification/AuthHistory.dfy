/**
 Which access tokens are accepted, told from the history of requests alone: the session was
 created after the owner's last revoke-all and was never closed by itself.
 */
module AuthHistory {
  import opened Options
  import opened AuthModel

  // ---------------------------------------------------------------- what the tables keep

  predicate UniqueNames(users: map<UserId, User>) {
    forall u, v :: u in users && v in users && u != v && !users[u].isDeleted && !users[v].isDeleted
                   ==> users[u].username != users[v].username
  }

  predicate CoherentSession(db: Db, s: SessionId)
    requires s in db.sessions
  {
    var row := db.sessions[s];
    && row.user in db.users
    && row.isActive == !row.isRevoked
    && row.tokenHash.Refresh? && row.tokenHash.sid == s && row.tokenHash in db.minted
    && row.tokenHash.exp == row.expiresAt
  }

  predicate CoherentToken(db: Db, t: Token) {
    && t.sid in db.sessions
    && (t.Refresh? ==> db.sessions[t.sid].tokenHash == t)
    && db.sessions[t.sid].user in db.users
    && db.users[db.sessions[t.sid].user].username == t.sub
  }

  predicate Coherent(db: Db) {
    && UniqueNames(db.users)
    && (forall s :: s in db.sessions ==> CoherentSession(db, s))
    && (forall t :: t in db.minted ==> CoherentToken(db, t))
  }

  /** Rows may change, appear and be soft-deleted, but keep their names. */
  predicate SameNames(before: map<UserId, User>, after: map<UserId, User>) {
    forall u :: u in before ==>
      u in after && after[u].username == before[u].username && (before[u].isDeleted ==> after[u].isDeleted)
  }

  lemma UsersKeepCoherent(db: Db, users: map<UserId, User>)
    requires Coherent(db) && UniqueNames(users) && SameNames(db.users, users)
    ensures Coherent(db.(users := users))
  {
  }

  /** Updates of existing rows keep live names unique. */
  lemma SameKeysKeepUnique(before: map<UserId, User>, after: map<UserId, User>)
    requires UniqueNames(before) && SameNames(before, after) && after.Keys == before.Keys
    ensures UniqueNames(after)
  {
  }

  lemma RevokeKeepsCoherent(db: Db, users: set<UserId>)
    requires Coherent(db)
    ensures Coherent(RevokeAll(db, users))
  {
  }

  lemma CloseKeepsCoherent(db: Db, sid: SessionId)
    requires Coherent(db) && sid in db.sessions
    ensures Coherent(CloseSession(db, sid))
  {
  }

  lemma BuildKeepsCoherent(db: Db, u: UserId, rememberMe: bool, now: int, sid: SessionId)
    requires Coherent(db) && u in db.users && sid !in db.sessions
    ensures Coherent(BuildSession(db, u, rememberMe, now, sid).0)
  {
    var after := BuildSession(db, u, rememberMe, now, sid).0;
    forall s | s in after.sessions
      ensures CoherentSession(after, s)
    {
      assert s != sid ==> CoherentSession(db, s);
    }
    forall t | t in after.minted
      ensures CoherentToken(after, t)
    {
      assert t in db.minted ==> CoherentToken(db, t);
    }
  }

  // ---------------------------------------------------------------- the history of a run

  /**
   Seen from outside: the request number at which each session was issued, the sessions closed
   one by one, and for each user the number of the last request that revoked all sessions.
   */
  datatype History = History(created: map<SessionId, nat>, closed: set<SessionId>, revokedAll: map<UserId, nat>)

  /** The session an answered request closes by itself. */
  function ClosedBy(db: Db, r: Request, outcome: Outcome): set<SessionId> {
    if r.RefreshToken? && outcome.Issued? && r.token.Some? then {r.token.value.sid}
    else if r.Logout? && r.token.Some? && r.token.value.Refresh? && r.token.value in db.minted
    then {r.token.value.sid}
    else if r.TerminateSession? && outcome.Done? then {r.session}
    else {}
  }

  /** The users all of whose sessions an answered request revokes. */
  function RevokedBy(db: Db, r: Request, outcome: Outcome): set<UserId> {
    match r
    case ChangePassword(access, _, _, now) =>
      var actor := Validate(db, access, now);
      if outcome.Done? && actor.Some? then {actor.value} else {}
    case UpdateStatus(user, status, _) => if outcome.Done? && Revoking(status) then {user} else {}
    case BulkUpdateStatus(ids, status, scope) => if Revoking(status) then Targets(db, ids, scope) else {}
    case ResetPassword(user, _, _) => if outcome.Done? then {user} else {}
    case DeleteUser(user, _, _) => if outcome.Done? then {user} else {}
    case TerminateAll(user, _) => if outcome.Affected? then {user} else {}
    case _ => {}
  }

  function Stamp(revokedAll: map<UserId, nat>, users: set<UserId>, n: nat): map<UserId, nat> {
    map u | u in revokedAll.Keys + users :: if u in users then n else revokedAll[u]
  }

  function Advance(h: History, n: nat, outcome: Outcome, closed: set<SessionId>, revoked: set<UserId>): History {
    History(if outcome.Issued? then h.created[outcome.refresh.sid := n] else h.created,
            h.closed + closed, Stamp(h.revokedAll, revoked, n))
  }

  function Remember(h: History, n: nat, db: Db, r: Request, outcome: Outcome): History {
    Advance(h, n, outcome, ClosedBy(db, r, outcome), RevokedBy(db, r, outcome))
  }

  ghost function HistoryOf(db: Db, requests: seq<Request>): History {
    if requests == [] then History(map[], {}, map[])
    else
      var front := requests[..|requests| - 1];
      var before := Run(db, front);
      var r := requests[|requests| - 1];
      Remember(HistoryOf(db, front), |front|, before, r, Handle(before, r).1)
  }

  predicate RevokedSince(h: History, s: SessionId, u: UserId)
    requires s in h.created
  {
    u in h.revokedAll && h.created[s] < h.revokedAll[u]
  }

  predicate RecordedSession(db: Db, h: History, n: nat, s: SessionId)
    requires s in db.sessions && s in h.created
  {
    && h.created[s] < n
    && (db.sessions[s].isRevoked <==> s in h.closed || RevokedSince(h, s, db.sessions[s].user))
  }

  predicate Recorded(db: Db, h: History, n: nat) {
    && h.created.Keys == db.sessions.Keys
    && h.closed <= db.sessions.Keys
    && (forall u :: u in h.revokedAll ==> h.revokedAll[u] < n)
    && (forall s :: s in db.sessions ==> RecordedSession(db, h, n, s))
  }

  lemma RecordNothing(db: Db, after: Db, h: History, n: nat)
    requires Recorded(db, h, n) && after.sessions == db.sessions
    ensures Recorded(after, h.(revokedAll := Stamp(h.revokedAll, {}, n)), n + 1)
  {
  }

  lemma RecordRevoke(db: Db, h: History, n: nat, users: set<UserId>)
    requires Recorded(db, h, n) && Coherent(db)
    ensures Recorded(RevokeAll(db, users), h.(revokedAll := Stamp(h.revokedAll, users, n)), n + 1)
  {
    var after, h' := RevokeAll(db, users), h.(revokedAll := Stamp(h.revokedAll, users, n));
    forall s | s in after.sessions
      ensures RecordedSession(after, h', n + 1, s)
    {
      assert RecordedSession(db, h, n, s) && CoherentSession(db, s);
    }
  }

  lemma RecordClose(db: Db, h: History, n: nat, sid: SessionId)
    requires Recorded(db, h, n) && sid in db.sessions
    ensures Recorded(CloseSession(db, sid), h.(closed := h.closed + {sid}), n)
  {
  }

  lemma RecordBuild(db: Db, h: History, n: nat, u: UserId, rememberMe: bool, now: int, sid: SessionId)
    requires Recorded(db, h, n) && u in db.users && sid !in db.sessions
    ensures Recorded(BuildSession(db, u, rememberMe, now, sid).0,
                     h.(created := h.created[sid := n], revokedAll := Stamp(h.revokedAll, {}, n)), n + 1)
  {
  }

  // ---------------------------------------------------------------- every request keeps both

  predicate Kept(db: Db, h: History, n: nat) {
    Coherent(db) && Recorded(db, h, n)
  }

  lemma UsersStep(db: Db, h: History, n: nat, users: map<UserId, User>)
    requires Kept(db, h, n) && SameNames(db.users, users) && UniqueNames(users)
    ensures Kept(db.(users := users), h, n)
  {
    UsersKeepCoherent(db, users);
    var changed := db.(users := users);
    forall s | s in changed.sessions
      ensures RecordedSession(changed, h, n, s)
    {
      assert RecordedSession(db, h, n, s);
    }
  }

  /** A request that neither issues, closes nor revokes. */
  lemma QuietStep(db: Db, h: History, n: nat, users: map<UserId, User>, outcome: Outcome)
    requires Kept(db, h, n) && SameNames(db.users, users) && users.Keys == db.users.Keys
    requires !outcome.Issued?
    ensures Kept(db.(users := users), Advance(h, n, outcome, {}, {}), n + 1)
  {
    SameKeysKeepUnique(db.users, users);
    UsersStep(db, h, n, users);
    RecordNothing(db.(users := users), db.(users := users), h, n);
    assert h.closed + {} == h.closed;
  }

  lemma RevokeStep(db: Db, h: History, n: nat, users: map<UserId, User>, outcome: Outcome, revoked: set<UserId>)
    requires Kept(db, h, n) && SameNames(db.users, users) && users.Keys == db.users.Keys
    requires !outcome.Issued?
    ensures Kept(RevokeAll(db.(users := users), revoked), Advance(h, n, outcome, {}, revoked), n + 1)
  {
    SameKeysKeepUnique(db.users, users);
    UsersStep(db, h, n, users);
    RevokeKeepsCoherent(db.(users := users), revoked);
    RecordRevoke(db.(users := users), h, n, revoked);
    assert h.closed + {} == h.closed;
  }

  lemma CloseStep(db: Db, h: History, n: nat, outcome: Outcome, sid: SessionId)
    requires Kept(db, h, n) && sid in db.sessions && !outcome.Issued?
    ensures Kept(CloseSession(db, sid), Advance(h, n, outcome, {sid}, {}), n + 1)
  {
    CloseKeepsCoherent(db, sid);
    RecordClose(db, h, n, sid);
    var after := CloseSession(db, sid);
    RecordNothing(after, after, h.(closed := h.closed + {sid}), n);
  }

  /** A session is issued; none, or one other, is closed. */
  lemma BuildStep(db: Db, h: History, n: nat, u: UserId, rememberMe: bool, now: int, sid: SessionId)
    requires Kept(db, h, n) && u in db.users && sid !in db.sessions
    ensures var (after, outcome) := BuildSession(db, u, rememberMe, now, sid);
            Kept(after, Advance(h, n, outcome, {}, {}), n + 1)
  {
    BuildKeepsCoherent(db, u, rememberMe, now, sid);
    RecordBuild(db, h, n, u, rememberMe, now, sid);
    assert h.closed + {} == h.closed;
  }

  lemma AdvanceClosed(h: History, n: nat, outcome: Outcome, sid: SessionId)
    ensures Advance(h.(closed := h.closed + {sid}), n, outcome, {}, {}) == Advance(h, n, outcome, {sid}, {})
  {
  }

  lemma RotateStep(db: Db, h: History, n: nat, spent: SessionId, rememberMe: bool, now: int, sid: SessionId)
    requires Kept(db, h, n) && spent in db.sessions && sid !in db.sessions
    requires db.sessions[spent].user in db.users
    ensures var (after, outcome) :=
              BuildSession(CloseSession(db, spent), db.sessions[spent].user, rememberMe, now, sid);
            Kept(after, Advance(h, n, outcome, {spent}, {}), n + 1)
  {
    CloseKeepsCoherent(db, spent);
    RecordClose(db, h, n, spent);
    var closed, h' := CloseSession(db, spent), h.(closed := h.closed + {spent});
    BuildStep(closed, h', n, db.sessions[spent].user, rememberMe, now, sid);
    AdvanceClosed(h, n, BuildSession(closed, db.sessions[spent].user, rememberMe, now, sid).1, spent);
  }

  lemma NewNameIsUnique(db: Db, username: string, newUser: UserId, row: User)
    requires UniqueNames(db.users) && newUser !in db.users && row.username == username
    requires FindByUsername(db, username).None?
    ensures UniqueNames(db.users[newUser := row])
  {
    forall u | u in db.users && !db.users[u].isDeleted
      ensures db.users[u].username != username
    {
      assert !LiveUserNamed(db, u, username);
    }
  }

  lemma RegisterKeeps(db: Db, h: History, n: nat, username: string, email: string, password: string,
                      tenantCode: Option<string>, newUser: UserId, now: int, sid: SessionId)
    requires Kept(db, h, n) && newUser !in db.users && sid !in db.sessions
    ensures var (after, outcome) := HandleRegister(db, username, email, password, tenantCode, newUser, now, sid);
            Kept(after, Advance(h, n, outcome, {}, {}), n + 1)
  {
    var (after, outcome) := HandleRegister(db, username, email, password, tenantCode, newUser, now, sid);
    if outcome.Issued? {
      var tenant := if tenantCode.Some? then Some(db.tenants[tenantCode.value]) else None;
      var users := db.users[newUser := Registered(username, email, password, tenant)];
      NewNameIsUnique(db, username, newUser, users[newUser]);
      UsersStep(db, h, n, users);
      BuildStep(db.(users := users), h, n, newUser, false, now, sid);
    } else {
      QuietStep(db, h, n, db.users, outcome);
    }
  }

  lemma LoginIssueKeeps(db: Db, h: History, n: nat, u: UserId, rememberMe: bool, stamp: int, sid: SessionId)
    requires Kept(db, h, n) && u in db.users && sid !in db.sessions
    ensures var unlocked := db.(users := db.users[u := Unlocked(db.users[u])]);
            var (after, outcome) := BuildSession(unlocked, u, rememberMe, stamp, sid);
            Kept(after, Advance(h, n, outcome, {}, {}), n + 1)
  {
    var users := db.users[u := Unlocked(db.users[u])];
    SameKeysKeepUnique(db.users, users);
    UsersStep(db, h, n, users);
    BuildStep(db.(users := users), h, n, u, rememberMe, stamp, sid);
  }

  lemma LoginKeeps(db: Db, h: History, n: nat, username: string, password: string, rememberMe: bool,
                   gate: int, stamp: int, sid: SessionId)
    requires Kept(db, h, n) && sid !in db.sessions
    ensures var (after, outcome) := HandleLogin(db, username, password, rememberMe, gate, stamp, sid);
            Kept(after, Advance(h, n, outcome, {}, {}), n + 1)
  {
    var (after, outcome) := HandleLogin(db, username, password, rememberMe, gate, stamp, sid);
    var found := FindByUsername(db, username);
    if outcome.Issued? {
      LoginIssueKeeps(db, h, n, found.value, rememberMe, stamp, sid);
    } else if found.Some? && !Locked(db.users[found.value], gate) {
      var users := db.users[found.value := AfterFailure(db.users[found.value], stamp)];
      assert after == db.(users := users);
      QuietStep(db, h, n, users, outcome);
    } else {
      QuietStep(db, h, n, db.users, outcome);
    }
  }

  lemma RefreshKeeps(db: Db, h: History, n: nat, token: Option<Token>, now: int, sid: SessionId)
    requires Kept(db, h, n) && sid !in db.sessions
    ensures var (after, outcome) := HandleRefresh(db, token, now, sid);
            Kept(after, Advance(h, n, outcome, if outcome.Issued? then {token.value.sid} else {}, {}), n + 1)
  {
    var (after, outcome) := HandleRefresh(db, token, now, sid);
    if outcome.Issued? {
      RotateStep(db, h, n, token.value.sid, token.value.rememberMe, now, sid);
    } else {
      QuietStep(db, h, n, db.users, outcome);
    }
  }

  lemma LogoutEffect(db: Db, token: Token)
    requires Coherent(db)
    ensures token.Refresh? && token in db.minted ==>
              token.sid in db.sessions && HandleLogout(db, Some(token)).0 == CloseSession(db, token.sid)
    ensures !(token.Refresh? && token in db.minted) ==> HandleLogout(db, Some(token)).0 == db
  {
  }

  /** Logging out closes the session the token was issued for, unless it is closed already. */
  lemma LogoutKeeps(db: Db, h: History, n: nat, token: Token)
    requires Kept(db, h, n)
    ensures Kept(HandleLogout(db, Some(token)).0,
                 Advance(h, n, Done, if token.Refresh? && token in db.minted then {token.sid} else {}, {}), n + 1)
  {
    LogoutEffect(db, token);
    if token.Refresh? && token in db.minted {
      assert CoherentToken(db, token);
      CloseStep(db, h, n, Done, token.sid);
    } else {
      QuietStep(db, h, n, db.users, Done);
    }
  }

  lemma TerminateSessionKeeps(db: Db, h: History, n: nat, session: SessionId, scope: Option<TenantId>)
    requires Kept(db, h, n)
    ensures var (after, outcome) := HandleTerminateSession(db, session, scope);
            Kept(after, Advance(h, n, outcome, if outcome.Done? then {session} else {}, {}), n + 1)
  {
    var (after, outcome) := HandleTerminateSession(db, session, scope);
    if outcome.Done? {
      CloseStep(db, h, n, outcome, session);
    } else {
      QuietStep(db, h, n, db.users, outcome);
    }
  }

  /** A change of one user's row, with or without revoking that user's sessions. */
  lemma RowStep(db: Db, h: History, n: nat, u: UserId, row: User, outcome: Outcome, revoke: bool)
    requires Kept(db, h, n) && u in db.users && !outcome.Issued?
    requires row.username == db.users[u].username && (db.users[u].isDeleted ==> row.isDeleted)
    ensures var changed := db.(users := db.users[u := row]);
            Kept(if revoke then RevokeAll(changed, {u}) else changed,
                 Advance(h, n, outcome, {}, if revoke then {u} else {}), n + 1)
  {
    if revoke {
      RevokeStep(db, h, n, db.users[u := row], outcome, {u});
    } else {
      QuietStep(db, h, n, db.users[u := row], outcome);
    }
  }

  lemma ChangePasswordKeeps(db: Db, h: History, n: nat, access: Token, current: string, wanted: string, now: int)
    requires Kept(db, h, n)
    ensures var (after, outcome) := HandleChangePassword(db, access, current, wanted, now);
            var revoked := RevokedBy(db, ChangePassword(access, current, wanted, now), outcome);
            Kept(after, Advance(h, n, outcome, {}, revoked), n + 1)
  {
    var (after, outcome) := HandleChangePassword(db, access, current, wanted, now);
    if outcome.Done? {
      var u := Validate(db, access, now).value;
      RowStep(db, h, n, u, db.users[u].(password := wanted), outcome, true);
    } else {
      QuietStep(db, h, n, db.users, outcome);
    }
  }

  lemma UpdateStatusKeeps(db: Db, h: History, n: nat, u: UserId, status: UserStatus, scope: Option<TenantId>)
    requires Kept(db, h, n)
    ensures var (after, outcome) := HandleUpdateStatus(db, u, status, scope);
            Kept(after, Advance(h, n, outcome, {}, if outcome.Done? && Revoking(status) then {u} else {}), n + 1)
  {
    var (after, outcome) := HandleUpdateStatus(db, u, status, scope);
    if outcome.Done? {
      RowStep(db, h, n, u, WithStatus(db.users[u], status), outcome, Revoking(status));
    } else {
      QuietStep(db, h, n, db.users, outcome);
    }
  }

  lemma BulkUpdateStatusKeeps(db: Db, h: History, n: nat, targets: set<UserId>, status: UserStatus)
    requires Kept(db, h, n)
    ensures Kept(SetStatusOf(db, targets, status),
                 Advance(h, n, Affected(|targets|), {}, if Revoking(status) then targets else {}), n + 1)
  {
    var users := map u | u in db.users :: if u in targets then WithStatus(db.users[u], status) else db.users[u];
    if Revoking(status) {
      RevokeStep(db, h, n, users, Affected(|targets|), targets);
    } else {
      QuietStep(db, h, n, users, Affected(|targets|));
    }
  }

  lemma ResetPasswordKeeps(db: Db, h: History, n: nat, u: UserId, temporary: string, scope: Option<TenantId>)
    requires Kept(db, h, n)
    ensures var (after, outcome) := HandleResetPassword(db, u, temporary, scope);
            Kept(after, Advance(h, n, outcome, {}, if outcome.Done? then {u} else {}), n + 1)
  {
    var (after, outcome) := HandleResetPassword(db, u, temporary, scope);
    if outcome.Done? {
      RowStep(db, h, n, u, db.users[u].(password := temporary), outcome, true);
    } else {
      QuietStep(db, h, n, db.users, outcome);
    }
  }

  lemma DeleteKeeps(db: Db, h: History, n: nat, u: UserId, scope: Option<TenantId>, actor: UserId)
    requires Kept(db, h, n)
    ensures var (after, outcome) := HandleDelete(db, u, scope, actor);
            Kept(after, Advance(h, n, outcome, {}, if outcome.Done? then {u} else {}), n + 1)
  {
    var (after, outcome) := HandleDelete(db, u, scope, actor);
    if outcome.Done? {
      RowStep(db, h, n, u, db.users[u].(isDeleted := true), outcome, true);
    } else {
      QuietStep(db, h, n, db.users, outcome);
    }
  }

  lemma TerminateAllKeeps(db: Db, h: History, n: nat, u: UserId, scope: Option<TenantId>)
    requires Kept(db, h, n)
    ensures var (after, outcome) := HandleTerminateAll(db, u, scope);
            Kept(after, Advance(h, n, outcome, {}, if outcome.Affected? then {u} else {}), n + 1)
  {
    var (after, outcome) := HandleTerminateAll(db, u, scope);
    if outcome.Affected? {
      RevokeStep(db, h, n, db.users, outcome, {u});
    } else {
      QuietStep(db, h, n, db.users, outcome);
    }
  }

  lemma UpdateUserKeeps(db: Db, h: History, n: nat, u: UserId, email: string, status: Option<UserStatus>,
                        scope: Option<TenantId>)
    requires Kept(db, h, n)
    ensures var (after, outcome) := HandleUpdateUser(db, u, email, status, scope);
            Kept(after, Advance(h, n, outcome, {}, {}), n + 1)
  {
    var (after, outcome) := HandleUpdateUser(db, u, email, status, scope);
    if outcome.Done? {
      RowStep(db, h, n, u, after.users[u], outcome, false);
    } else {
      QuietStep(db, h, n, db.users, outcome);
    }
  }

  lemma CreateUserKeeps(db: Db, h: History, n: nat, r: Request)
    requires Kept(db, h, n) && r.CreateUser? && FreshIds(db, r)
    ensures KeptBy(db, h, n, r)
  {
    var (after, outcome) := Handle(db, r);
    assert Remember(h, n, db, r, outcome) == Advance(h, n, outcome, {}, {});
    if outcome.Done? {
      NewNameIsUnique(db, r.username, r.newUser, after.users[r.newUser]);
      UsersStep(db, h, n, after.users);
      RecordNothing(after, after, h, n);
      assert h.closed + {} == h.closed;
    } else {
      QuietStep(db, h, n, db.users, outcome);
    }
  }

  ghost predicate KeptBy(db: Db, h: History, n: nat, r: Request) {
    var (after, outcome) := Handle(db, r);
    Kept(after, Remember(h, n, db, r, outcome), n + 1)
  }

  /** The requests that sign a user in. */
  lemma SignInRequestKeeps(db: Db, h: History, n: nat, r: Request)
    requires Kept(db, h, n) && FreshIds(db, r)
    requires r.Register? || r.Login?
    ensures KeptBy(db, h, n, r)
  {
    match r
    case Register(username, email, password, tenantCode, newUser, now, sid) =>
      RegisterKeeps(db, h, n, username, email, password, tenantCode, newUser, now, sid);
    case Login(username, password, rememberMe, gate, stamp, sid) =>
      LoginKeeps(db, h, n, username, password, rememberMe, gate, stamp, sid);
  }

  lemma RefreshRequestKeeps(db: Db, h: History, n: nat, r: Request)
    requires Kept(db, h, n) && FreshIds(db, r) && r.RefreshToken?
    ensures KeptBy(db, h, n, r)
  {
    RefreshKeeps(db, h, n, r.token, r.now, r.sid);
  }

  lemma LogoutRequestKeeps(db: Db, h: History, n: nat, r: Request)
    requires Kept(db, h, n) && r.Logout?
    ensures KeptBy(db, h, n, r)
  {
    if r.token.Some? {
      LogoutKeeps(db, h, n, r.token.value);
    } else {
      QuietStep(db, h, n, db.users, Done);
    }
  }

  lemma PasswordRequestKeeps(db: Db, h: History, n: nat, r: Request)
    requires Kept(db, h, n)
    requires r.ChangePassword? || r.ResetPassword?
    ensures KeptBy(db, h, n, r)
  {
    match r
    case ChangePassword(access, current, wanted, now) => ChangePasswordKeeps(db, h, n, access, current, wanted, now);
    case ResetPassword(user, temporary, scope) => ResetPasswordKeeps(db, h, n, user, temporary, scope);
  }

  lemma StatusRequestKeeps(db: Db, h: History, n: nat, r: Request)
    requires Kept(db, h, n)
    requires r.UpdateStatus? || r.BulkUpdateStatus? || r.UpdateUser?
    ensures KeptBy(db, h, n, r)
  {
    match r
    case UpdateStatus(user, status, scope) => UpdateStatusKeeps(db, h, n, user, status, scope);
    case BulkUpdateStatus(ids, status, scope) => BulkUpdateStatusKeeps(db, h, n, Targets(db, ids, scope), status);
    case UpdateUser(user, email, newStatus, scope) => UpdateUserKeeps(db, h, n, user, email, newStatus, scope);
  }

  lemma TerminationRequestKeeps(db: Db, h: History, n: nat, r: Request)
    requires Kept(db, h, n)
    requires r.TerminateSession? || r.TerminateAll?
    ensures KeptBy(db, h, n, r)
  {
    match r
    case TerminateSession(session, scope) => TerminateSessionKeeps(db, h, n, session, scope);
    case TerminateAll(user, scope) => TerminateAllKeeps(db, h, n, user, scope);
  }

  lemma DeletionRequestKeeps(db: Db, h: History, n: nat, r: Request)
    requires Kept(db, h, n) && r.DeleteUser?
    ensures KeptBy(db, h, n, r)
  {
    DeleteKeeps(db, h, n, r.user, r.scope, r.actor);
  }

  lemma HandleKeeps(db: Db, h: History, n: nat, r: Request)
    requires Kept(db, h, n) && FreshIds(db, r)
    ensures KeptBy(db, h, n, r)
  {
    if r.Register? || r.Login? {
      SignInRequestKeeps(db, h, n, r);
    } else if r.RefreshToken? {
      RefreshRequestKeeps(db, h, n, r);
    } else if r.Logout? {
      LogoutRequestKeeps(db, h, n, r);
    } else if r.ChangePassword? || r.ResetPassword? {
      PasswordRequestKeeps(db, h, n, r);
    } else if r.TerminateAll? || r.TerminateSession? {
      TerminationRequestKeeps(db, h, n, r);
    } else if r.DeleteUser? {
      DeletionRequestKeeps(db, h, n, r);
    } else if r.CreateUser? {
      CreateUserKeeps(db, h, n, r);
    } else {
      StatusRequestKeeps(db, h, n, r);
    }
  }

  /** A history that any coherent state could have. */
  function SomeHistory(db: Db): History {
    History(map s | s in db.sessions :: 0, set s | s in db.sessions && db.sessions[s].isRevoked, map[])
  }

  lemma SomeHistoryFits(db: Db)
    requires Coherent(db)
    ensures Kept(db, SomeHistory(db), 1)
  {
  }

  /** So the tables stay coherent, whatever the history. */
  lemma HandleKeepsCoherent(db: Db, r: Request)
    requires Coherent(db) && FreshIds(db, r)
    ensures Coherent(Handle(db, r).0)
  {
    SomeHistoryFits(db);
    HandleKeeps(db, SomeHistory(db), 1, r);
  }

  /** A database before its first session: any users with distinct live names. */
  predicate Fresh(db: Db) {
    db.sessions == map[] && db.minted == {} && UniqueNames(db.users)
  }

  lemma {:induction false} RunKeeps(db: Db, requests: seq<Request>)
    requires Fresh(db) && PossibleRun(db, requests)
    ensures Kept(Run(db, requests), HistoryOf(db, requests), |requests|)
  {
    if requests != [] {
      var front := requests[..|requests| - 1];
      RunKeeps(db, front);
      HandleKeeps(Run(db, front), HistoryOf(db, front), |front|, requests[|requests| - 1]);
    }
  }

  // ---------------------------------------------------------------- which tokens are accepted

  /**
   After any run, an access token is accepted exactly when it was issued and has not expired,
   its session was neither closed nor created before the owner's last revoke-all, the session
   has not expired, and the owner is live and ACTIVE.
   */
  lemma AcceptedIff(db: Db, requests: seq<Request>, token: Token, now: int)
    requires Fresh(db) && PossibleRun(db, requests)
    ensures var after, h := Run(db, requests), HistoryOf(db, requests);
            Validate(after, token, now).Some? <==>
              && token in after.minted && token.Access? && token.exp > now
              && token.sid in after.sessions && token.sid in h.created
              && token.sid !in h.closed
              && !RevokedSince(h, token.sid, after.sessions[token.sid].user)
              && after.sessions[token.sid].expiresAt > now
              && Usable(after, after.sessions[token.sid].user)
  {
    var after, h := Run(db, requests), HistoryOf(db, requests);
    RunKeeps(db, requests);
    if token in after.minted {
      assert CoherentToken(after, token);
      assert CoherentSession(after, token.sid) && RecordedSession(after, h, |requests|, token.sid);
    }
  }

  /** In every reachable state the three filters the code uses select the same session rows. */
  lemma FiltersAgree(db: Db, requests: seq<Request>)
    requires Fresh(db) && PossibleRun(db, requests)
    ensures var rows := Run(db, requests).sessions;
            (set s | s in rows && rows[s].isActive)
            == (set s | s in rows && !rows[s].isRevoked)
            == (set s | s in rows && rows[s].isActive && !rows[s].isRevoked)
  {
    RunKeeps(db, requests);
    var rows := Run(db, requests).sessions;
    forall s | s in rows
      ensures rows[s].isActive == !rows[s].isRevoked
    {
      assert CoherentSession(Run(db, requests), s);
    }
  }

  /** A token hash identifies its row: the search by hash finds the row the token names. */
  lemma HashNamesRow(db: Db, requests: seq<Request>, s: SessionId, token: Token)
    requires Fresh(db) && PossibleRun(db, requests)
    requires s in Run(db, requests).sessions && Run(db, requests).sessions[s].tokenHash == token
    ensures s == token.sid
  {
    RunKeeps(db, requests);
    assert CoherentSession(Run(db, requests), s);
  }

  // ---------------------------------------------------------------- revocation is permanent

  lemma HandleKeepsRevoked(db: Db, r: Request, s: SessionId)
    requires FreshIds(db, r) && s in db.sessions && db.sessions[s].isRevoked
    ensures s in Handle(db, r).0.sessions && Handle(db, r).0.sessions[s].isRevoked
  {
  }

  /** No later request, in any number, makes a revoked session acceptable again. */
  lemma {:induction false} RevocationPermanent(db: Db, requests: seq<Request>, s: SessionId, token: Token, now: int)
    requires PossibleRun(db, requests) && s in db.sessions && db.sessions[s].isRevoked
    ensures s in Run(db, requests).sessions && Run(db, requests).sessions[s].isRevoked
    ensures token.sid == s ==> Validate(Run(db, requests), token, now).None?
    ensures token.sid == s ==> !RefreshAccepted(Run(db, requests), token, s, now)
  {
    if requests != [] {
      var front := requests[..|requests| - 1];
      RevocationPermanent(db, front, s, token, now);
      HandleKeepsRevoked(Run(db, front), requests[|requests| - 1], s);
    }
  }
}
