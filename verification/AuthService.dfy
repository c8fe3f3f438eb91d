/**
 The authentication and user services as code over mutable tables.  Every method computes the
 outcome and the new state of the corresponding request of `AuthModel`, keeps the tables
 coherent, and has the effect that request is meant to have.
 */
module AuthServices {
  import opened Options
  import opened AuthModel
  import opened AuthHistory
  import opened BulkStatus
  import opened AuthMeaning

  lemma FoundByName(db: Db, username: string, u: UserId)
    requires UniqueNames(db.users) && LiveUserNamed(db, u, username)
    ensures FindByUsername(db, username) == Some(u)
  {
  }

  lemma SetUsersOneMore(users: map<UserId, User>, done: set<UserId>, u: UserId, status: UserStatus)
    requires u in users && u !in done
    ensures SetUsers(users, done, status)[u := WithStatus(users[u], status)] == SetUsers(users, done + {u}, status)
    ensures SetUsers(users, done, status)[u] == users[u]
  {
  }

  /** What a bulk update writes, table by table. */
  function Saved(db: Db, loaded: set<UserId>, status: UserStatus): Db {
    db.(users := SetUsers(db.users, loaded, status),
        sessions := if Revoking(status) then RevokeSessionsOf(db.sessions, loaded) else db.sessions)
  }

  lemma BulkSaves(db: Db, ids: seq<UserId>, status: UserStatus, scope: Option<TenantId>)
    requires Coherent(db)
    ensures var loaded := Targets(db, ids, scope);
            && HandleBulkUpdateStatus(db, ids, status, scope) == (Saved(db, loaded, status), Affected(|loaded|))
            && Coherent(Saved(db, loaded, status))
            && BulkUpdateStatusEffect(db, Saved(db, loaded, status), Affected(|loaded|), ids, status, scope)
  {
    SetIsSetUsers(db, Targets(db, ids, scope), status);
    BulkUpdateStatusMeans(db, ids, status, scope);
  }

  lemma SavingNothing(db: Db, status: UserStatus)
    ensures Saved(db, {}, status) == db
  {
    SetIsSetUsers(db, {}, status);
    SetNothing(db, status);
  }

  class AuthStore {
    const config: Config
    var tenants: map<string, TenantId>
    var users: map<UserId, User>
    var sessions: map<SessionId, Session>
    var minted: set<Token>

    ghost function State(): Db
      reads this
    {
      Db(config, tenants, users, sessions, minted)
    }

    /** A store before its first session. */
    constructor (config: Config, tenants: map<string, TenantId>, users: map<UserId, User>)
      requires UniqueNames(users)
      ensures State() == Db(config, tenants, users, map[], {}) && Coherent(State())
    {
      this.config, this.tenants, this.users := config, tenants, users;
      sessions, minted := map[], {};
    }

    // -------------------------------------------------------------- AuthService

    /** Signs an access and a refresh token for a new session row. */
    method BuildSession(u: UserId, rememberMe: bool, now: int, sid: SessionId) returns (outcome: Outcome)
      requires u in users
      modifies this`sessions, this`minted
      ensures (State(), outcome) == AuthModel.BuildSession(old(State()), u, rememberMe, now, sid)
      ensures SessionOpened(old(State()), State(), outcome, u, rememberMe, now, sid)
      ensures SessionsKeptBut(old(State()), State(), sid, {sid})
      ensures Usable(State(), u) && config.accessExpiryMs > 0 && RefreshTtl(config, rememberMe) > 0 ==>
                && Validate(State(), outcome.access, now) == Some(u)
                && RefreshAccepted(State(), outcome.refresh, sid, now)
    {
      var refreshTokenExpiresIn := if rememberMe then config.rememberMeRefreshExpiryMs else config.refreshExpiryMs;
      var accessToken := Token.Access(users[u].username, sid, now + config.accessExpiryMs);
      var refreshToken := Token.Refresh(users[u].username, sid, now + refreshTokenExpiresIn, rememberMe);
      minted := minted + {accessToken, refreshToken};
      sessions := sessions[sid := Session(u, refreshToken, now + refreshTokenExpiresIn, false, true)];
      return Issued(accessToken, refreshToken);
    }

    /** `newUser` and `sid` are the ids drawn for the two new rows. */
    method TryRegister(username: string, email: string, password: string, tenantCode: Option<string>,
                    newUser: UserId, now: int, sid: SessionId)
      returns (outcome: Outcome)
      requires Coherent(State()) && newUser !in users && sid !in sessions
      modifies this
      ensures (State(), outcome)
           == HandleRegister(old(State()), username, email, password, tenantCode, newUser, now, sid)
    {
      if u :| u in users && users[u].username == username && !users[u].isDeleted {
        assert LiveUserNamed(State(), u, username);
        return Conflict;
      }
      assert forall u :: !LiveUserNamed(State(), u, username);
      if exists u :: u in users && users[u].email == email && !users[u].isDeleted {
        return Conflict;
      }
      var tenant: Option<TenantId> := None;
      if tenantCode.Some? {
        if tenantCode.value !in tenants {
          return NotFound;
        }
        tenant := Some(tenants[tenantCode.value]);
      }
      users := users[newUser := User(username, email, tenant, password, ACTIVE, 0, None, false)];
      outcome := BuildSession(newUser, false, now, sid);
    }

    method Register(username: string, email: string, password: string, tenantCode: Option<string>,
                    newUser: UserId, now: int, sid: SessionId)
      returns (outcome: Outcome)
      requires Coherent(State()) && newUser !in users && sid !in sessions
      modifies this
      ensures (State(), outcome)
           == HandleRegister(old(State()), username, email, password, tenantCode, newUser, now, sid)
      ensures Coherent(State())
      ensures RegisterEffect(old(State()), State(), outcome, username, email, password, tenantCode, newUser, now, sid)
    {
      RegisterMeans(State(), username, email, password, tenantCode, newUser, now, sid);
      outcome := TryRegister(username, email, password, tenantCode, newUser, now, sid);
    }

    /** `findOne` by name among the live users. */
    method FindLive(username: string) returns (found: Option<UserId>)
      requires Coherent(State())
      ensures found == FindByUsername(State(), username)
    {
      if u :| u in users && users[u].username == username && !users[u].isDeleted {
        FoundByName(State(), username, u);
        return Some(u);
      }
      assert forall u :: !LiveUserNamed(State(), u, username);
      return None;
    }

    /** Counts a refused attempt, and locks the account from the fifth on. */
    method RecordFailure(u: UserId, stamp: int) returns (outcome: Outcome)
      requires u in users
      modifies this`users
      ensures users == old(users)[u := AfterFailure(old(users)[u], stamp)]
      ensures outcome == match users[u].accountLockedUntil
                         case Some(until) => AccountLocked(until)
                         case None => Unauthorized
    {
      var user := users[u].(failedLoginAttempts := users[u].failedLoginAttempts + 1);
      if user.failedLoginAttempts >= MAX_FAILED_ATTEMPTS {
        user := user.(accountLockedUntil := Some(stamp + LOCKOUT_DURATION_MS));
      }
      users := users[u := user];
      if user.accountLockedUntil.Some? {
        return AccountLocked(user.accountLockedUntil.value);
      }
      return Unauthorized;
    }

    method TryLogin(username: string, password: string, rememberMe: bool, gate: int, stamp: int, sid: SessionId)
      returns (outcome: Outcome)
      requires Coherent(State()) && sid !in sessions
      modifies this
      ensures (State(), outcome) == HandleLogin(old(State()), username, password, rememberMe, gate, stamp, sid)
    {
      var found := FindLive(username);
      if found.None? {
        return Unauthorized;
      }
      var u, user := found.value, users[found.value];
      if user.accountLockedUntil.Some? && user.accountLockedUntil.value > gate {
        return AccountLocked(user.accountLockedUntil.value);
      }
      if !(user.status == ACTIVE && user.password == password) {
        outcome := RecordFailure(u, stamp);
        return;
      }
      users := users[u := user.(failedLoginAttempts := 0, accountLockedUntil := None)];
      outcome := BuildSession(u, rememberMe, stamp, sid);
    }

    method Login(username: string, password: string, rememberMe: bool, gate: int, stamp: int, sid: SessionId)
      returns (outcome: Outcome)
      requires Coherent(State()) && sid !in sessions
      modifies this
      ensures (State(), outcome) == HandleLogin(old(State()), username, password, rememberMe, gate, stamp, sid)
      ensures Coherent(State())
      ensures LoginEffect(old(State()), State(), outcome, username, password, rememberMe, gate, stamp, sid)
    {
      LoginMeans(State(), username, password, rememberMe, gate, stamp, sid);
      outcome := TryLogin(username, password, rememberMe, gate, stamp, sid);
    }

    /** `findOne` by hash among the rows neither revoked nor inactive: it is the row the token names. */
    method FindRefreshRow(token: Token) returns (found: Option<SessionId>)
      requires Coherent(State())
      ensures found == if RefreshRow(State(), token, token.sid) then Some(token.sid) else None
    {
      if s :| s in sessions && sessions[s].tokenHash == token && !sessions[s].isRevoked && sessions[s].isActive {
        assert CoherentSession(State(), s);
        return Some(s);
      }
      return None;
    }

    method TryRefresh(token: Option<Token>, now: int, sid: SessionId) returns (outcome: Outcome)
      requires Coherent(State()) && sid !in sessions
      modifies this
      ensures (State(), outcome) == HandleRefresh(old(State()), token, now, sid)
    {
      if token.None? || token.value !in minted || token.value.exp <= now || !token.value.Refresh? {
        return Unauthorized;
      }
      var found := FindRefreshRow(token.value);
      if found.None? {
        return Unauthorized;
      }
      var s, session := found.value, sessions[found.value];
      if session.user !in users || users[session.user].isDeleted || users[session.user].status != ACTIVE {
        return Unauthorized;
      }
      if users[session.user].username != token.value.sub || session.expiresAt <= now {
        return Unauthorized;
      }
      if token.value.sid != s {
        return Unauthorized;
      }
      var affected := 0;
      if !sessions[s].isRevoked && sessions[s].isActive {
        sessions := sessions[s := session.(isRevoked := true, isActive := false)];
        affected := 1;
      }
      if affected != 1 {
        return Unauthorized;
      }
      outcome := BuildSession(session.user, token.value.rememberMe, now, sid);
    }

    method Refresh(token: Option<Token>, now: int, sid: SessionId) returns (outcome: Outcome)
      requires Coherent(State()) && sid !in sessions
      modifies this
      ensures (State(), outcome) == HandleRefresh(old(State()), token, now, sid)
      ensures Coherent(State())
      ensures RefreshEffect(old(State()), State(), outcome, token, now, sid)
    {
      RefreshMeans(State(), token, now, sid);
      outcome := TryRefresh(token, now, sid);
    }

    method Logout(token: Option<Token>) returns (outcome: Outcome)
      requires Coherent(State())
      modifies this`sessions
      ensures (State(), outcome) == HandleLogout(old(State()), token)
      ensures Coherent(State())
      ensures AuthMeaning.LogoutEffect(old(State()), State(), outcome, token)
    {
      LogoutMeans(State(), token);
      outcome := Done;
      if token.None? {
        return;
      }
      var rows := set s | s in sessions && sessions[s].tokenHash == token.value && !sessions[s].isRevoked;
      if rows == {} {
        assert token.value.sid !in rows;
        return;
      }
      var s :| s in rows;
      assert s == token.value.sid by {
        assert CoherentSession(State(), s);
      }
      sessions := sessions[s := sessions[s].(isRevoked := true, isActive := false)];
    }

    /** UPDATE refresh_sessions ... WHERE user_id = u AND is_active = true; the affected rows. */
    method RevokeAllSessions(u: UserId) returns (affected: nat)
      modifies this`sessions
      ensures State() == RevokeAll(old(State()), {u})
      ensures affected == |ActiveSessionsOf(old(sessions), u)|
    {
      var rows := ActiveSessionsOf(sessions, u);
      sessions := map s | s in sessions :: if s in rows then Closed(sessions[s]) else sessions[s];
      affected := |rows|;
    }

    /** `JwtStrategy.validate` behind the signature check. */
    method Authenticate(token: Token, now: int) returns (user: Option<UserId>)
      ensures user == Validate(State(), token, now)
    {
      if token !in minted || token.exp <= now || !token.Access? {
        return None;
      }
      if token.sid !in sessions || sessions[token.sid].isRevoked || !sessions[token.sid].isActive
         || sessions[token.sid].expiresAt <= now {
        return None;
      }
      var u := sessions[token.sid].user;
      if u !in users || users[u].isDeleted || users[u].status != ACTIVE || users[u].username != token.sub {
        return None;
      }
      return Some(u);
    }

    method ChangePassword(token: Token, current: string, wanted: string, now: int) returns (outcome: Outcome)
      requires Coherent(State())
      modifies this
      ensures (State(), outcome) == HandleChangePassword(old(State()), token, current, wanted, now)
      ensures Coherent(State())
      ensures ChangePasswordEffect(old(State()), State(), outcome, token, current, wanted, now)
    {
      ChangePasswordMeans(State(), token, current, wanted, now);
      var actor := Authenticate(token, now);
      if actor.None? {
        return Unauthorized;
      }
      var u := actor.value;
      if current != users[u].password {
        return BadRequest;
      }
      if !ComplexEnough(wanted) {
        return BadRequest;
      }
      if wanted == users[u].password {
        return BadRequest;
      }
      users := users[u := users[u].(password := wanted)];
      var affected := RevokeAllSessions(u);
      return Done;
    }

    // -------------------------------------------------------------- UsersService

    /** `maxUsers` is the limit in the tenant's row. */
    method TryCreate(username: string, email: string, temporary: string, status: Option<UserStatus>,
                  requested: Option<TenantId>, maxUsers: Option<int>, newUser: UserId, scope: Option<TenantId>)
      returns (outcome: Outcome)
      requires Coherent(State()) && newUser !in users
      modifies this`users
      ensures (State(), outcome) == HandleCreateUser(old(State()), username, email, temporary, status, requested,
                                                     maxUsers, newUser, scope)
    {
      if u :| u in users && users[u].username == username && !users[u].isDeleted {
        assert LiveUserNamed(State(), u, username);
        return Conflict;
      }
      assert forall u :: !LiveUserNamed(State(), u, username);
      if exists u :: u in users && users[u].email == email && !users[u].isDeleted {
        return Conflict;
      }
      if scope.Some? && requested.Some? && requested.value != scope.value {
        return Forbidden;
      }
      var tenant := if scope.Some? then scope else requested;
      if tenant.None? {
        return BadRequest;
      }
      if tenant.value !in tenants.Values {
        return NotFound;
      }
      var live := set u | u in users && users[u].tenant == tenant && !users[u].isDeleted;
      assert live == LiveUsersOf(State(), tenant.value);
      if maxUsers.Some? && |live| >= maxUsers.value {
        return Conflict;
      }
      users := users[newUser := User(username, email, tenant, temporary, GetOr(status, ACTIVE), 0, None, false)];
      return Done;
    }

    method Create(username: string, email: string, temporary: string, status: Option<UserStatus>,
                  requested: Option<TenantId>, maxUsers: Option<int>, newUser: UserId, scope: Option<TenantId>)
      returns (outcome: Outcome)
      requires Coherent(State()) && newUser !in users
      modifies this`users
      ensures (State(), outcome) == HandleCreateUser(old(State()), username, email, temporary, status, requested,
                                                     maxUsers, newUser, scope)
      ensures Coherent(State())
      ensures CreateUserEffect(old(State()), State(), outcome,
                Request.CreateUser(username, email, temporary, status, requested, maxUsers, newUser, scope))
    {
      CreateUserMeans(State(), CreateUser(username, email, temporary, status, requested, maxUsers, newUser, scope));
      outcome := TryCreate(username, email, temporary, status, requested, maxUsers, newUser, scope);
    }

    method Update(u: UserId, email: string, status: Option<UserStatus>, scope: Option<TenantId>)
      returns (outcome: Outcome)
      requires Coherent(State())
      modifies this
      ensures (State(), outcome) == HandleUpdateUser(old(State()), u, email, status, scope)
      ensures Coherent(State())
      ensures UpdateUserEffect(old(State()), State(), outcome, u, email, status, scope)
    {
      UpdateUserMeans(State(), u, email, status, scope);
      if u !in users || users[u].isDeleted || (scope.Some? && users[u].tenant != scope) {
        return NotFound;
      }
      if email != users[u].email {
        if exists v :: v in users && users[v].email == email && !users[v].isDeleted {
          return Conflict;
        }
      }
      users := users[u := users[u].(email := email, status := GetOr(status, users[u].status))];
      return Done;
    }

    method UpdateStatus(u: UserId, status: UserStatus, scope: Option<TenantId>) returns (outcome: Outcome)
      requires Coherent(State())
      modifies this
      ensures (State(), outcome) == HandleUpdateStatus(old(State()), u, status, scope)
      ensures Coherent(State())
      ensures UpdateStatusEffect(old(State()), State(), outcome, u, status, scope)
    {
      UpdateStatusMeans(State(), u, status, scope);
      if u !in users || users[u].isDeleted || (scope.Some? && users[u].tenant != scope) {
        return NotFound;
      }
      var user := users[u].(status := status);
      if status == ACTIVE {
        user := user.(failedLoginAttempts := 0, accountLockedUntil := None);
      }
      users := users[u := user];
      if status == LOCKED || status == INACTIVE {
        var affected := RevokeAllSessions(u);
      }
      return Done;
    }

    /** The loop over the loaded rows, each changed in place and saved. */
    method SaveStatuses(loaded: set<UserId>, status: UserStatus)
      requires loaded <= users.Keys
      modifies this`users
      ensures users == SetUsers(old(users), loaded, status)
    {
      var pending := loaded;
      assert SetUsers(users, {}, status) == users;
      while pending != {}
        invariant pending <= loaded <= old(users).Keys
        invariant users == SetUsers(old(users), loaded - pending, status)
        decreases pending
      {
        var u :| u in pending;
        var user := users[u].(status := status);
        if status == ACTIVE {
          user := user.(failedLoginAttempts := 0, accountLockedUntil := None);
        }
        SetUsersOneMore(old(users), loaded - pending, u, status);
        users := users[u := user];
        assert loaded - (pending - {u}) == loaded - pending + {u};
        pending := pending - {u};
      }
      assert loaded - {} == loaded;
    }

    /** UPDATE refresh_sessions ... WHERE user_id IN users AND is_active = true */
    method RevokeSessionsOfAll(revoked: set<UserId>)
      modifies this`sessions
      ensures sessions == RevokeSessionsOf(old(sessions), revoked)
    {
      sessions := map s | s in sessions ::
        if sessions[s].user in revoked && sessions[s].isActive then Closed(sessions[s]) else sessions[s];
    }

    /** The rows are changed one by one, the sessions of all of them in one statement. */
    method SaveLoaded(loaded: set<UserId>, status: UserStatus)
      requires loaded <= users.Keys
      modifies this`users, this`sessions
      ensures State() == Saved(old(State()), loaded, status)
    {
      SaveStatuses(loaded, status);
      if status == LOCKED || status == INACTIVE {
        RevokeSessionsOfAll(loaded);
      }
    }

    method BulkUpdateStatus(ids: seq<UserId>, status: UserStatus, scope: Option<TenantId>) returns (outcome: Outcome)
      requires Coherent(State())
      modifies this
      ensures (State(), outcome) == HandleBulkUpdateStatus(old(State()), ids, status, scope)
      ensures Coherent(State())
      ensures BulkUpdateStatusEffect(old(State()), State(), outcome, ids, status, scope)
    {
      var loaded := set u | u in ids && u in users && !users[u].isDeleted && (scope.Some? ==> users[u].tenant == scope);
      assert loaded == Targets(State(), ids, scope);
      BulkSaves(State(), ids, status, scope);
      if loaded == {} {
        SavingNothing(State(), status);
        return Affected(0);
      }
      SaveLoaded(loaded, status);
      return Affected(|loaded|);
    }

    method ResetPassword(u: UserId, temporary: string, scope: Option<TenantId>) returns (outcome: Outcome)
      requires Coherent(State())
      modifies this
      ensures (State(), outcome) == HandleResetPassword(old(State()), u, temporary, scope)
      ensures Coherent(State())
      ensures ResetPasswordEffect(old(State()), State(), outcome, u, temporary, scope)
    {
      ResetPasswordMeans(State(), u, temporary, scope);
      if u !in users || users[u].isDeleted || (scope.Some? && users[u].tenant != scope) {
        return NotFound;
      }
      users := users[u := users[u].(password := temporary)];
      var affected := RevokeAllSessions(u);
      return Done;
    }

    method Delete(u: UserId, scope: Option<TenantId>, actor: UserId) returns (outcome: Outcome)
      requires Coherent(State())
      modifies this
      ensures (State(), outcome) == HandleDelete(old(State()), u, scope, actor)
      ensures Coherent(State())
      ensures DeleteEffect(old(State()), State(), outcome, u, scope, actor)
    {
      DeleteMeans(State(), u, scope, actor);
      if u == actor {
        return BadRequest;
      }
      if u !in users || users[u].isDeleted || (scope.Some? && users[u].tenant != scope) {
        return NotFound;
      }
      users := users[u := users[u].(isDeleted := true)];
      var affected := RevokeAllSessions(u);
      return Done;
    }

    method TerminateSession(s: SessionId, scope: Option<TenantId>) returns (outcome: Outcome)
      requires Coherent(State())
      modifies this`sessions
      ensures (State(), outcome) == HandleTerminateSession(old(State()), s, scope)
      ensures Coherent(State())
      ensures TerminateSessionEffect(old(State()), State(), outcome, s, scope)
    {
      TerminateSessionMeans(State(), s, scope);
      if s !in sessions || sessions[s].user !in users {
        return NotFound;
      }
      var owner := users[sessions[s].user];
      if scope.Some? && owner.tenant.Some? && owner.tenant.value != scope.value {
        return Forbidden;
      }
      if owner.isDeleted {
        return NotFound;
      }
      sessions := sessions[s := sessions[s].(isRevoked := true, isActive := false)];
      return Done;
    }

    method TerminateAllSessions(u: UserId, scope: Option<TenantId>) returns (outcome: Outcome)
      requires Coherent(State())
      modifies this`sessions
      ensures (State(), outcome) == HandleTerminateAll(old(State()), u, scope)
      ensures Coherent(State())
      ensures TerminateAllEffect(old(State()), State(), outcome, u, scope)
    {
      TerminateAllMeans(State(), u, scope);
      if u !in users || users[u].isDeleted || (scope.Some? && users[u].tenant != scope) {
        return NotFound;
      }
      var affected := RevokeAllSessions(u);
      return Affected(affected);
    }
  }
}
