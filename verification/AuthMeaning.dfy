/**
 What each sign-in and account request does, told in the fields of the tables before and after
 it: when it succeeds, which refusal answers what, the rows it writes, and that it writes no
 others.
 */
module AuthMeaning {
  import opened Options
  import opened AuthModel
  import opened AuthHistory
  import opened BulkStatus

  // ---------------------------------------------------------------- words

  predicate NamedLive(db: Db, u: UserId, username: string) {
    u in db.users && !db.users[u].isDeleted && db.users[u].username == username
  }

  predicate EmailOf(db: Db, u: UserId, email: string) {
    u in db.users && !db.users[u].isDeleted && db.users[u].email == email
  }

  /** A live user the caller may see. */
  predicate InScope(db: Db, u: UserId, scope: Option<TenantId>) {
    u in db.users && !db.users[u].isDeleted && (scope.None? || db.users[u].tenant == Some(scope.value))
  }

  /** Every session of these users is revoked, in nothing else changed, and no other one is touched. */
  predicate SignedOut(before: Db, after: Db, users: set<UserId>) {
    && after.sessions.Keys == before.sessions.Keys
    && forall s :: s in before.sessions ==>
         after.sessions[s] == if before.sessions[s].user in users
                              then before.sessions[s].(isRevoked := true, isActive := false)
                              else before.sessions[s]
  }

  predicate OnlyUsersAndSessions(before: Db, after: Db) {
    after == before.(users := after.users, sessions := after.sessions)
  }

  /** Two tokens are issued for a new session of u, which lives as long as the refresh token. */
  predicate SessionOpened(before: Db, after: Db, outcome: Outcome, u: UserId, rememberMe: bool, now: int,
                          sid: SessionId)
  {
    var lifetime := if rememberMe then before.config.rememberMeRefreshExpiryMs else before.config.refreshExpiryMs;
    && u in after.users && outcome.Issued? && outcome.refresh.Refresh? && outcome.access.Access?
    && outcome.refresh.rememberMe == rememberMe && outcome.refresh.exp == now + lifetime
    && outcome.access.exp == now + before.config.accessExpiryMs
    && outcome.refresh.sid == outcome.access.sid == sid
    && outcome.refresh.sub == outcome.access.sub == after.users[u].username
    && sid in after.sessions && after.sessions[sid].user == u && after.sessions[sid].expiresAt == now + lifetime
    && after.sessions[sid].tokenHash == outcome.refresh
    && !after.sessions[sid].isRevoked && after.sessions[sid].isActive
    && after.minted == before.minted + {outcome.access, outcome.refresh}
    && after.config == before.config && after.tenants == before.tenants
  }

  predicate SessionsKeptBut(before: Db, after: Db, sid: SessionId, spent: set<SessionId>) {
    && after.sessions.Keys == before.sessions.Keys + {sid}
    && forall s :: s in before.sessions && s !in spent ==> after.sessions[s] == before.sessions[s]
  }

  // ---------------------------------------------------------------- refresh

  /** The token was issued and has not run out; its row is not revoked, nor has it; its owner may sign in. */
  predicate Refreshable(db: Db, token: Token, now: int) {
    && token.Refresh? && token in db.minted && token.exp > now && token.sid in db.sessions
    && !db.sessions[token.sid].isRevoked && db.sessions[token.sid].expiresAt > now
    && var owner := db.sessions[token.sid].user;
       NamedLive(db, owner, token.sub) && db.users[owner].status == ACTIVE
  }

  /** The presented row is revoked, a successor of its user and flag is opened, and the rest is kept. */
  predicate RefreshRotated(before: Db, after: Db, outcome: Outcome, token: Token, now: int, sid: SessionId) {
    && token.Refresh? && token.sid in before.sessions
    && SessionOpened(before, after, outcome, before.sessions[token.sid].user, token.rememberMe, now, sid)
    && SessionsKeptBut(before, after, sid, {token.sid})
    && after.sessions[token.sid] == before.sessions[token.sid].(isRevoked := true, isActive := false)
    && after.users == before.users
  }

  predicate RefreshEffect(before: Db, after: Db, outcome: Outcome, token: Option<Token>, now: int, sid: SessionId) {
    && (outcome.Issued? <==> token.Some? && Refreshable(before, token.value, now))
    && (outcome.Issued? ==> RefreshRotated(before, after, outcome, token.value, now, sid))
    && (!outcome.Issued? ==> outcome == Unauthorized && after == before)
  }

  lemma RefreshableIff(db: Db, token: Token, now: int)
    requires Coherent(db)
    ensures Refreshable(db, token, now) <==> RefreshAccepted(db, token, token.sid, now)
  {
    if token in db.minted {
      assert CoherentToken(db, token) && CoherentSession(db, token.sid);
    }
  }

  lemma RotationOpens(db: Db, token: Token, now: int, sid: SessionId)
    requires sid !in db.sessions && RefreshAccepted(db, token, token.sid, now)
    ensures var (after, outcome) := HandleRefresh(db, Some(token), now, sid);
            RefreshRotated(db, after, outcome, token, now, sid)
  {
  }

  lemma RefreshMeans(db: Db, token: Option<Token>, now: int, sid: SessionId)
    requires Coherent(db) && sid !in db.sessions
    ensures var (after, outcome) := HandleRefresh(db, token, now, sid);
            Coherent(after) && RefreshEffect(db, after, outcome, token, now, sid)
  {
    SomeHistoryFits(db);
    RefreshKeeps(db, SomeHistory(db), 1, token, now, sid);
    if token.Some? {
      RefreshableIff(db, token.value, now);
      if Refreshable(db, token.value, now) {
        RotationOpens(db, token.value, now, sid);
      }
    }
  }

  // ---------------------------------------------------------------- login

  /** The lock gate is closed to the account. */
  predicate LockedAt(user: User, gate: int) {
    match user.accountLockedUntil
    case None => false
    case Some(until) => until > gate
  }

  predicate Accepts(user: User, password: string) {
    user.status == ACTIVE && user.password == password
  }

  /** A refused attempt is counted, and from the fifth on locks the account for half an hour. */
  predicate FailureCounted(user: User, after: User, stamp: int) {
    && after == user.(failedLoginAttempts := after.failedLoginAttempts, accountLockedUntil := after.accountLockedUntil)
    && after.failedLoginAttempts == user.failedLoginAttempts + 1
    && after.accountLockedUntil
       == if user.failedLoginAttempts >= 4 then Some(stamp + 1_800_000) else user.accountLockedUntil
  }

  predicate OnlyUser(before: Db, after: Db, u: UserId) {
    && after.users.Keys == before.users.Keys
    && forall v :: v in before.users && v != u ==> after.users[v] == before.users[v]
  }

  predicate LoginFailed(before: Db, after: Db, outcome: Outcome, u: UserId, stamp: int)
    requires u in before.users
  {
    && after == before.(users := after.users) && OnlyUser(before, after, u)
    && FailureCounted(before.users[u], after.users[u], stamp)
    && outcome == match after.users[u].accountLockedUntil
                  case Some(until) => AccountLocked(until)
                  case None => Unauthorized
  }

  predicate LoginSucceeded(before: Db, after: Db, outcome: Outcome, u: UserId, rememberMe: bool, stamp: int,
                           sid: SessionId)
    requires u in before.users
  {
    && SessionOpened(before, after, outcome, u, rememberMe, stamp, sid) && SessionsKeptBut(before, after, sid, {})
    && OnlyUser(before, after, u)
    && after.users[u] == before.users[u].(failedLoginAttempts := 0, accountLockedUntil := None)
  }

  ghost predicate LoginEffect(before: Db, after: Db, outcome: Outcome, username: string, password: string,
                              rememberMe: bool, gate: int, stamp: int, sid: SessionId)
  {
    && (outcome.Issued? <==> exists u :: NamedLive(before, u, username) && !LockedAt(before.users[u], gate)
                                         && Accepts(before.users[u], password))
    && ((forall u :: !NamedLive(before, u, username)) ==> outcome == Unauthorized && after == before)
    && (forall u :: NamedLive(before, u, username) ==>
          if LockedAt(before.users[u], gate)
          then outcome == AccountLocked(before.users[u].accountLockedUntil.value) && after == before
          else if !Accepts(before.users[u], password) then LoginFailed(before, after, outcome, u, stamp)
          else LoginSucceeded(before, after, outcome, u, rememberMe, stamp, sid))
  }

  lemma LoginOfNamed(db: Db, u: UserId, username: string, password: string, rememberMe: bool,
                     gate: int, stamp: int, sid: SessionId)
    requires Coherent(db) && sid !in db.sessions && NamedLive(db, u, username)
    ensures FindByUsername(db, username) == Some(u)
    ensures var (after, outcome) := HandleLogin(db, username, password, rememberMe, gate, stamp, sid);
            if LockedAt(db.users[u], gate)
            then outcome == AccountLocked(db.users[u].accountLockedUntil.value) && after == db
            else if !Accepts(db.users[u], password) then LoginFailed(db, after, outcome, u, stamp)
            else LoginSucceeded(db, after, outcome, u, rememberMe, stamp, sid)
  {
    assert LiveUserNamed(db, u, username);
  }

  lemma LoginMeans(db: Db, username: string, password: string, rememberMe: bool, gate: int, stamp: int, sid: SessionId)
    requires Coherent(db) && sid !in db.sessions
    ensures var (after, outcome) := HandleLogin(db, username, password, rememberMe, gate, stamp, sid);
            Coherent(after) && LoginEffect(db, after, outcome, username, password, rememberMe, gate, stamp, sid)
  {
    SomeHistoryFits(db);
    LoginKeeps(db, SomeHistory(db), 1, username, password, rememberMe, gate, stamp, sid);
    forall u | NamedLive(db, u, username)
      ensures var (after, outcome) := HandleLogin(db, username, password, rememberMe, gate, stamp, sid);
              if LockedAt(db.users[u], gate)
              then outcome == AccountLocked(db.users[u].accountLockedUntil.value) && after == db
              else if !Accepts(db.users[u], password) then LoginFailed(db, after, outcome, u, stamp)
              else LoginSucceeded(db, after, outcome, u, rememberMe, stamp, sid)
    {
      LoginOfNamed(db, u, username, password, rememberMe, gate, stamp, sid);
    }
    var found := FindByUsername(db, username);
    assert found.Some? ==> NamedLive(db, found.value, username);
    assert forall u :: NamedLive(db, u, username) <==> LiveUserNamed(db, u, username);
  }

  // ---------------------------------------------------------------- registration and creation

  predicate NewUserRow(row: User, username: string, email: string, password: string, tenant: Option<TenantId>,
                       status: UserStatus)
  {
    && row.username == username && row.email == email && row.password == password && row.tenant == tenant
    && row.status == status && row.failedLoginAttempts == 0 && row.accountLockedUntil == None && !row.isDeleted
  }

  predicate UserAdded(before: Db, after: Db, u: UserId) {
    after.users.Keys == before.users.Keys + {u} && forall v :: v in before.users ==> after.users[v] == before.users[v]
  }

  ghost predicate NameAndEmailFree(db: Db, username: string, email: string) {
    && (forall u :: !NamedLive(db, u, username))
    && (forall u :: !EmailOf(db, u, email))
  }

  ghost predicate RegisterEffect(before: Db, after: Db, outcome: Outcome, username: string, email: string,
                                 password: string, tenantCode: Option<string>, newUser: UserId, now: int,
                                 sid: SessionId)
  {
    && (outcome == Conflict <==> !NameAndEmailFree(before, username, email))
    && (outcome == NotFound <==>
          NameAndEmailFree(before, username, email) && tenantCode.Some? && tenantCode.value !in before.tenants)
    && (outcome.Issued? <==>
          NameAndEmailFree(before, username, email) && (tenantCode.Some? ==> tenantCode.value in before.tenants))
    && (outcome.Issued? ==>
          && UserAdded(before, after, newUser)
          && NewUserRow(after.users[newUser], username, email, password,
                        if tenantCode.Some? then Some(before.tenants[tenantCode.value]) else None, ACTIVE)
          && SessionOpened(before, after, outcome, newUser, false, now, sid) && SessionsKeptBut(before, after, sid, {}))
    && (!outcome.Issued? ==> after == before)
  }

  lemma FreeIff(db: Db, username: string, email: string)
    ensures NameAndEmailFree(db, username, email)
       <==> FindByUsername(db, username).None? && !EmailTaken(db, email)
  {
    assert forall u :: NamedLive(db, u, username) <==> LiveUserNamed(db, u, username);
    if u :| EmailOf(db, u, email) {
      assert EmailTaken(db, email);
    }
    if EmailTaken(db, email) {
      var u :| u in db.users && db.users[u].email == email && !db.users[u].isDeleted;
      assert EmailOf(db, u, email);
    }
  }

  lemma RegisterHasEffect(db: Db, username: string, email: string, password: string, tenantCode: Option<string>,
                          newUser: UserId, now: int, sid: SessionId)
    requires newUser !in db.users && sid !in db.sessions
    ensures var (after, outcome) := HandleRegister(db, username, email, password, tenantCode, newUser, now, sid);
            RegisterEffect(db, after, outcome, username, email, password, tenantCode, newUser, now, sid)
  {
    FreeIff(db, username, email);
  }

  lemma RegisterMeans(db: Db, username: string, email: string, password: string, tenantCode: Option<string>,
                      newUser: UserId, now: int, sid: SessionId)
    requires Coherent(db) && newUser !in db.users && sid !in db.sessions
    ensures var (after, outcome) := HandleRegister(db, username, email, password, tenantCode, newUser, now, sid);
            && Coherent(after)
            && RegisterEffect(db, after, outcome, username, email, password, tenantCode, newUser, now, sid)
  {
    SomeHistoryFits(db);
    RegisterKeeps(db, SomeHistory(db), 1, username, email, password, tenantCode, newUser, now, sid);
    RegisterHasEffect(db, username, email, password, tenantCode, newUser, now, sid);
  }

  /** The number of live users of a tenant is below its limit. */
  predicate HasRoom(db: Db, tenant: TenantId, maxUsers: Option<int>) {
    match maxUsers
    case None => true
    case Some(limit) => |set u | u in db.users && !db.users[u].isDeleted && db.users[u].tenant == Some(tenant)| < limit
  }

  /** `requested` is what the caller asks for and `scope` what it is confined to. */
  ghost predicate CreateUserEffect(before: Db, after: Db, outcome: Outcome, r: Request)
    requires r.CreateUser?
  {
    var free := NameAndEmailFree(before, r.username, r.email);
    var allowed := r.scope.None? || r.requested.None? || r.requested == r.scope;
    var tenant := if r.scope.Some? then r.scope else r.requested;
    && (outcome == Forbidden <==> free && !allowed)
    && (outcome == BadRequest <==> free && allowed && tenant.None?)
    && (outcome == NotFound <==> free && allowed && tenant.Some? && tenant.value !in before.tenants.Values)
    && (outcome == Done <==>
          && free && allowed && tenant.Some? && tenant.value in before.tenants.Values
          && HasRoom(before, tenant.value, r.maxUsers))
    && outcome in {Done, BadRequest, Forbidden, NotFound, Conflict}
    && (outcome == Done ==>
          && UserAdded(before, after, r.newUser) && after == before.(users := after.users)
          && NewUserRow(after.users[r.newUser], r.username, r.email, r.temporary, tenant,
                        if r.newStatus.Some? then r.newStatus.value else ACTIVE))
    && (outcome != Done ==> after == before)
  }

  lemma RoomIff(db: Db, tenant: TenantId, maxUsers: Option<int>)
    ensures HasRoom(db, tenant, maxUsers) <==> !(maxUsers.Some? && |LiveUsersOf(db, tenant)| >= maxUsers.value)
  {
    assert LiveUsersOf(db, tenant)
        == set u | u in db.users && !db.users[u].isDeleted && db.users[u].tenant == Some(tenant);
  }

  lemma CreateUserHasEffect(db: Db, r: Request)
    requires r.CreateUser? && FreshIds(db, r)
    ensures var (after, outcome) := HandleCreateUser(db, r.username, r.email, r.temporary, r.newStatus, r.requested,
                                                     r.maxUsers, r.newUser, r.scope);
            CreateUserEffect(db, after, outcome, r)
  {
    FreeIff(db, r.username, r.email);
    var tenant := if r.scope.Some? then r.scope else r.requested;
    if tenant.Some? {
      RoomIff(db, tenant.value, r.maxUsers);
    }
  }

  lemma CreateUserMeans(db: Db, r: Request)
    requires Coherent(db) && r.CreateUser? && FreshIds(db, r)
    ensures var (after, outcome) := HandleCreateUser(db, r.username, r.email, r.temporary, r.newStatus, r.requested,
                                                     r.maxUsers, r.newUser, r.scope);
            Coherent(after) && CreateUserEffect(db, after, outcome, r)
  {
    HandleKeepsCoherent(db, r);
    CreateUserHasEffect(db, r);
  }

  // ---------------------------------------------------------------- logout and termination

  /** The token of an issued refresh session closes that session, any other nothing. */
  predicate LogoutEffect(before: Db, after: Db, outcome: Outcome, token: Option<Token>) {
    && outcome == Done
    && if token.Some? && token.value.Refresh? && token.value in before.minted
       then SessionClosed(before, after, token.value.sid)
       else after == before
  }

  predicate SessionClosed(before: Db, after: Db, s: SessionId) {
    && s in before.sessions && after == before.(sessions := after.sessions)
    && after.sessions.Keys == before.sessions.Keys
    && after.sessions[s] == before.sessions[s].(isRevoked := true, isActive := false)
    && forall r :: r in before.sessions && r != s ==> after.sessions[r] == before.sessions[r]
  }

  lemma LogoutMeans(db: Db, token: Option<Token>)
    requires Coherent(db)
    ensures var (after, outcome) := HandleLogout(db, token);
            Coherent(after) && LogoutEffect(db, after, outcome, token)
  {
    if token.Some? {
      SomeHistoryFits(db);
      LogoutKeeps(db, SomeHistory(db), 1, token.value);
      AuthHistory.LogoutEffect(db, token.value);
      if token.value in db.minted {
        assert CoherentToken(db, token.value) && CoherentSession(db, token.value.sid);
      }
    }
  }

  /** A session of a live user; a confined caller reaches those of its tenant and of users without one. */
  ghost predicate TerminateSessionEffect(before: Db, after: Db, outcome: Outcome, s: SessionId,
                                         scope: Option<TenantId>)
  {
    var known := s in before.sessions && before.sessions[s].user in before.users;
    && (outcome == NotFound || outcome == Forbidden || outcome == Done)
    && (outcome == Forbidden <==>
          && known && scope.Some?
          && before.users[before.sessions[s].user].tenant.Some?
          && before.users[before.sessions[s].user].tenant != scope)
    && (outcome == Done <==>
          && known && !before.users[before.sessions[s].user].isDeleted
          && (scope.None? || before.users[before.sessions[s].user].tenant.None?
              || before.users[before.sessions[s].user].tenant == scope))
    && (outcome == Done ==>
          && SessionClosed(before, after, s)
          && forall token: Token, now: int :: token.sid == s ==> Validate(after, token, now).None?)
    && (outcome != Done ==> after == before)
  }

  lemma TerminateSessionMeans(db: Db, s: SessionId, scope: Option<TenantId>)
    requires Coherent(db)
    ensures var (after, outcome) := HandleTerminateSession(db, s, scope);
            Coherent(after) && TerminateSessionEffect(db, after, outcome, s, scope)
  {
    SomeHistoryFits(db);
    TerminateSessionKeeps(db, SomeHistory(db), 1, s, scope);
  }

  predicate TerminateAllEffect(before: Db, after: Db, outcome: Outcome, u: UserId, scope: Option<TenantId>) {
    && (outcome.Affected? <==> InScope(before, u, scope))
    && (outcome.Affected? ==>
          && SignedOut(before, after, {u}) && after == before.(sessions := after.sessions)
          && outcome.count == |UnrevokedOf(before.sessions, u)|)
    && (!outcome.Affected? ==> outcome == NotFound && after == before)
  }

  function UnrevokedOf(sessions: map<SessionId, Session>, u: UserId): set<SessionId> {
    set s | s in sessions && sessions[s].user == u && !sessions[s].isRevoked
  }

  lemma UnrevokedAreActive(db: Db, u: UserId)
    requires Coherent(db)
    ensures ActiveSessionsOf(db.sessions, u) == UnrevokedOf(db.sessions, u)
  {
    assert forall s :: s in db.sessions ==> CoherentSession(db, s);
  }

  /** The bulk update by is_active reaches every session: in coherent tables no unrevoked one is inactive. */
  lemma RevokingSignsOut(db: Db, users: map<UserId, User>, revoked: set<UserId>)
    requires Coherent(db)
    ensures SignedOut(db, RevokeAll(db.(users := users), revoked), revoked)
  {
    forall s | s in db.sessions
      ensures db.sessions[s].isActive == !db.sessions[s].isRevoked
    {
      assert CoherentSession(db, s);
    }
  }

  lemma TerminateAllMeans(db: Db, u: UserId, scope: Option<TenantId>)
    requires Coherent(db)
    ensures var (after, outcome) := HandleTerminateAll(db, u, scope);
            Coherent(after) && TerminateAllEffect(db, after, outcome, u, scope)
  {
    SomeHistoryFits(db);
    TerminateAllKeeps(db, SomeHistory(db), 1, u, scope);
    UnrevokedAreActive(db, u);
    RevokingSignsOut(db, db.users, {u});
  }

  // ---------------------------------------------------------------- passwords

  predicate HasChar(text: string, low: char, high: char) {
    exists i :: 0 <= i < |text| && low <= text[i] <= high
  }

  /** Eight characters, with an upper-case letter, a lower-case letter, a digit and something else. */
  predicate Complex(text: string) {
    && |text| >= 8 && HasChar(text, 'A', 'Z') && HasChar(text, 'a', 'z') && HasChar(text, '0', '9')
    && exists i :: 0 <= i < |text| && !('A' <= text[i] <= 'Z' || 'a' <= text[i] <= 'z' || '0' <= text[i] <= '9')
  }

  /** u has this password now and no session any more; nothing else changed. */
  predicate PasswordSet(before: Db, after: Db, u: UserId, password: string) {
    && u in before.users && OnlyUsersAndSessions(before, after)
    && after.users == before.users[u := before.users[u].(password := password)]
    && SignedOut(before, after, {u})
  }

  predicate ChangePasswordEffect(before: Db, after: Db, outcome: Outcome, token: Token, current: string,
                                 wanted: string, now: int)
  {
    var actor := Validate(before, token, now);
    && (outcome == Unauthorized <==> actor.None?)
    && (outcome == Done <==>
          && actor.Some? && actor.value in before.users && before.users[actor.value].password == current
          && Complex(wanted) && wanted != current)
    && outcome in {Unauthorized, Done, BadRequest}
    && (outcome == Done ==> PasswordSet(before, after, actor.value, wanted))
    && (outcome != Done ==> after == before)
  }

  lemma ComplexIff(text: string)
    ensures Complex(text) <==> ComplexEnough(text)
  {
    if ComplexEnough(text) {
      var i :| 0 <= i < |text| && !Upper(text[i]) && !Lower(text[i]) && !Digit(text[i]);
      assert !('A' <= text[i] <= 'Z' || 'a' <= text[i] <= 'z' || '0' <= text[i] <= '9');
    }
    if Complex(text) {
      var i :| 0 <= i < |text| && 'A' <= text[i] <= 'Z';
      assert Upper(text[i]);
      var j :| 0 <= j < |text| && 'a' <= text[j] <= 'z';
      assert Lower(text[j]);
      var k :| 0 <= k < |text| && '0' <= text[k] <= '9';
      assert Digit(text[k]);
    }
  }

  lemma ChangePasswordMeans(db: Db, token: Token, current: string, wanted: string, now: int)
    requires Coherent(db)
    ensures var (after, outcome) := HandleChangePassword(db, token, current, wanted, now);
            Coherent(after) && ChangePasswordEffect(db, after, outcome, token, current, wanted, now)
  {
    SomeHistoryFits(db);
    ChangePasswordKeeps(db, SomeHistory(db), 1, token, current, wanted, now);
    ComplexIff(wanted);
    var actor := Validate(db, token, now);
    if actor.Some? {
      RevokingSignsOut(db, db.users[actor.value := db.users[actor.value].(password := wanted)], {actor.value});
    }
  }

  predicate ResetPasswordEffect(before: Db, after: Db, outcome: Outcome, u: UserId, temporary: string,
                                scope: Option<TenantId>)
  {
    && (outcome == Done <==> InScope(before, u, scope))
    && (outcome == Done ==> PasswordSet(before, after, u, temporary))
    && (outcome != Done ==> outcome == NotFound && after == before)
  }

  lemma ResetPasswordMeans(db: Db, u: UserId, temporary: string, scope: Option<TenantId>)
    requires Coherent(db)
    ensures var (after, outcome) := HandleResetPassword(db, u, temporary, scope);
            Coherent(after) && ResetPasswordEffect(db, after, outcome, u, temporary, scope)
  {
    SomeHistoryFits(db);
    ResetPasswordKeeps(db, SomeHistory(db), 1, u, temporary, scope);
    if u in db.users {
      RevokingSignsOut(db, db.users[u := db.users[u].(password := temporary)], {u});
    }
  }

  // ---------------------------------------------------------------- accounts

  predicate DeleteEffect(before: Db, after: Db, outcome: Outcome, u: UserId, scope: Option<TenantId>, actor: UserId) {
    && (outcome == BadRequest <==> u == actor)
    && (outcome == Done <==> u != actor && InScope(before, u, scope))
    && outcome in {BadRequest, NotFound, Done}
    && (outcome == Done ==>
          && OnlyUsersAndSessions(before, after) && SignedOut(before, after, {u})
          && after.users == before.users[u := before.users[u].(isDeleted := true)])
    && (outcome != Done ==> after == before)
  }

  lemma DeleteMeans(db: Db, u: UserId, scope: Option<TenantId>, actor: UserId)
    requires Coherent(db)
    ensures var (after, outcome) := HandleDelete(db, u, scope, actor);
            Coherent(after) && DeleteEffect(db, after, outcome, u, scope, actor)
  {
    SomeHistoryFits(db);
    DeleteKeeps(db, SomeHistory(db), 1, u, scope, actor);
    if u in db.users {
      RevokingSignsOut(db, db.users[u := db.users[u].(isDeleted := true)], {u});
    }
  }

  predicate UpdateUserEffect(before: Db, after: Db, outcome: Outcome, u: UserId, email: string,
                             status: Option<UserStatus>, scope: Option<TenantId>)
  {
    && (outcome == NotFound <==> !InScope(before, u, scope))
    && (outcome == Conflict <==>
          && InScope(before, u, scope) && before.users[u].email != email
          && exists v :: v in before.users && EmailOf(before, v, email))
    && outcome in {NotFound, Conflict, Done}
    && (outcome == Done ==>
          && u in after.users && after == before.(users := before.users[u := after.users[u]])
          && after.users[u] == before.users[u].(email := after.users[u].email, status := after.users[u].status)
          && after.users[u].email == email
          && after.users[u].status == if status.Some? then status.value else before.users[u].status)
    && (outcome != Done ==> after == before)
  }

  lemma UpdateUserMeans(db: Db, u: UserId, email: string, status: Option<UserStatus>, scope: Option<TenantId>)
    requires Coherent(db)
    ensures var (after, outcome) := HandleUpdateUser(db, u, email, status, scope);
            Coherent(after) && UpdateUserEffect(db, after, outcome, u, email, status, scope)
  {
    SomeHistoryFits(db);
    UpdateUserKeeps(db, SomeHistory(db), 1, u, email, status, scope);
    if EmailTaken(db, email) {
      var v :| v in db.users && db.users[v].email == email && !db.users[v].isDeleted;
      assert EmailOf(db, v, email);
    }
  }

  // ---------------------------------------------------------------- status

  /** The status is written; ACTIVE clears the lockout; every other field stays. */
  predicate StatusWritten(before: User, after: User, status: UserStatus) {
    && after == before.(status := after.status, failedLoginAttempts := after.failedLoginAttempts,
                        accountLockedUntil := after.accountLockedUntil)
    && after.status == status
    && (if status == ACTIVE then after.failedLoginAttempts == 0 && after.accountLockedUntil == None
        else after.failedLoginAttempts == before.failedLoginAttempts
             && after.accountLockedUntil == before.accountLockedUntil)
  }

  /** The status of exactly these users is written, and LOCKED and INACTIVE sign exactly them out. */
  predicate StatusesWritten(before: Db, after: Db, users: set<UserId>, status: UserStatus) {
    && OnlyUsersAndSessions(before, after) && after.users.Keys == before.users.Keys
    && (forall u :: u in before.users && u in users ==> StatusWritten(before.users[u], after.users[u], status))
    && (forall u :: u in before.users && u !in users ==> after.users[u] == before.users[u])
    && (if status == LOCKED || status == INACTIVE then SignedOut(before, after, users)
        else after.sessions == before.sessions)
  }

  predicate UpdateStatusEffect(before: Db, after: Db, outcome: Outcome, u: UserId, status: UserStatus,
                               scope: Option<TenantId>)
  {
    && (outcome == Done <==> InScope(before, u, scope))
    && (outcome == Done ==> StatusesWritten(before, after, {u}, status))
    && (outcome != Done ==> outcome == NotFound && after == before)
  }

  lemma RowStatusWritten(user: User, status: UserStatus)
    ensures StatusWritten(user, WithStatus(user, status), status)
  {
  }

  lemma StatusesAreWritten(db: Db, users: set<UserId>, status: UserStatus)
    requires Coherent(db)
    ensures StatusesWritten(db, SetStatusOf(db, users, status), users, status)
  {
    var after := SetStatusOf(db, users, status);
    forall u | u in db.users && u in users
      ensures StatusWritten(db.users[u], after.users[u], status)
    {
      RowStatusWritten(db.users[u], status);
    }
    RevokingSignsOut(db, after.users, users);
  }

  lemma UpdateStatusHasEffect(db: Db, u: UserId, status: UserStatus, scope: Option<TenantId>)
    requires Coherent(db)
    ensures var (after, outcome) := HandleUpdateStatus(db, u, status, scope);
            UpdateStatusEffect(db, after, outcome, u, status, scope)
  {
    if Visible(db, u, scope) {
      SingleIsSet(db, u, status, scope);
      StatusesAreWritten(db, {u}, status);
    }
  }

  lemma UpdateStatusMeans(db: Db, u: UserId, status: UserStatus, scope: Option<TenantId>)
    requires Coherent(db)
    ensures var (after, outcome) := HandleUpdateStatus(db, u, status, scope);
            Coherent(after) && UpdateStatusEffect(db, after, outcome, u, status, scope)
  {
    SomeHistoryFits(db);
    UpdateStatusKeeps(db, SomeHistory(db), 1, u, status, scope);
    UpdateStatusHasEffect(db, u, status, scope);
  }

  predicate BulkUpdateStatusEffect(before: Db, after: Db, outcome: Outcome, ids: seq<UserId>, status: UserStatus,
                                   scope: Option<TenantId>)
  {
    var reached := set u | u in ids && InScope(before, u, scope);
    outcome == Affected(|reached|) && StatusesWritten(before, after, reached, status)
  }

  lemma BulkUpdateStatusHasEffect(db: Db, ids: seq<UserId>, status: UserStatus, scope: Option<TenantId>)
    requires Coherent(db)
    ensures var (after, outcome) := HandleBulkUpdateStatus(db, ids, status, scope);
            BulkUpdateStatusEffect(db, after, outcome, ids, status, scope)
  {
    assert Targets(db, ids, scope) == set u | u in ids && InScope(db, u, scope);
    StatusesAreWritten(db, Targets(db, ids, scope), status);
  }

  lemma BulkUpdateStatusMeans(db: Db, ids: seq<UserId>, status: UserStatus, scope: Option<TenantId>)
    requires Coherent(db)
    ensures var (after, outcome) := HandleBulkUpdateStatus(db, ids, status, scope);
            Coherent(after) && BulkUpdateStatusEffect(db, after, outcome, ids, status, scope)
  {
    SomeHistoryFits(db);
    BulkUpdateStatusKeeps(db, SomeHistory(db), 1, Targets(db, ids, scope), status);
    BulkUpdateStatusHasEffect(db, ids, status, scope);
  }
}
