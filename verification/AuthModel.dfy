/**
 Users, sessions and tokens, and what one request does to them: login with lockout, refresh
 rotation, logout, and the account operations that revoke sessions.

 A password hash is modelled by the password it matches, a token hash by the token, and a
 signed token by membership in `minted`.
 */
module AuthModel {
  import opened Options

  type UserId = nat
  type SessionId = nat
  type TenantId = nat

  datatype UserStatus = ACTIVE | SUSPENDED | LOCKED | INACTIVE

  datatype User = User(
    username: string, email: string, tenant: Option<TenantId>, password: string, status: UserStatus,
    failedLoginAttempts: nat, accountLockedUntil: Option<int>, isDeleted: bool)

  datatype Token =
    | Access(sub: string, sid: SessionId, exp: int)
    | Refresh(sub: string, sid: SessionId, exp: int, rememberMe: bool)

  datatype Session = Session(
    user: UserId, tokenHash: Token, expiresAt: int, isRevoked: bool, isActive: bool)

  datatype Config = Config(accessExpiryMs: nat, refreshExpiryMs: nat, rememberMeRefreshExpiryMs: nat)

  datatype Db = Db(
    config: Config, tenants: map<string, TenantId>, users: map<UserId, User>,
    sessions: map<SessionId, Session>, minted: set<Token>)

  datatype Outcome =
    | Issued(access: Token, refresh: Token)
    | Done
    | Affected(count: nat)
    | Unauthorized
    | AccountLocked(until: int)
    | BadRequest
    | Forbidden
    | NotFound
    | Conflict

  const MAX_FAILED_ATTEMPTS: nat := 5
  const LOCKOUT_DURATION_MS: nat := 30 * 60 * 1000

  // ---------------------------------------------------------------- lookups

  predicate LiveUserNamed(db: Db, u: UserId, username: string) {
    u in db.users && db.users[u].username == username && !db.users[u].isDeleted
  }

  ghost function FindByUsername(db: Db, username: string): (found: Option<UserId>)
    ensures found.Some? ==> LiveUserNamed(db, found.value, username)
    ensures found.None? ==> forall u :: !LiveUserNamed(db, u, username)
  {
    if u :| LiveUserNamed(db, u, username) then Some(u) else None
  }

  predicate EmailTaken(db: Db, email: string) {
    exists u :: u in db.users && db.users[u].email == email && !db.users[u].isDeleted
  }

  /** `findUser`: live, and of the caller's tenant when the caller has one. */
  predicate Visible(db: Db, u: UserId, scope: Option<TenantId>) {
    u in db.users && !db.users[u].isDeleted && (scope.Some? ==> db.users[u].tenant == scope)
  }

  /** The ids `bulkUpdateStatus` loads. */
  function Targets(db: Db, ids: seq<UserId>, scope: Option<TenantId>): set<UserId> {
    set u | u in ids && Visible(db, u, scope)
  }

  // ---------------------------------------------------------------- session rows

  function Closed(s: Session): Session {
    s.(isRevoked := true, isActive := false)
  }

  function CloseSession(db: Db, sid: SessionId): Db
    requires sid in db.sessions
  {
    db.(sessions := db.sessions[sid := Closed(db.sessions[sid])])
  }

  /** UPDATE ... SET revoked WHERE user_id IN users AND is_active = true */
  function RevokeSessionsOf(sessions: map<SessionId, Session>, users: set<UserId>): map<SessionId, Session> {
    map s | s in sessions ::
      if sessions[s].user in users && sessions[s].isActive then Closed(sessions[s]) else sessions[s]
  }

  function ActiveSessionsOf(sessions: map<SessionId, Session>, u: UserId): set<SessionId> {
    set s | s in sessions && sessions[s].user == u && sessions[s].isActive
  }

  function RevokeAll(db: Db, users: set<UserId>): Db {
    db.(sessions := RevokeSessionsOf(db.sessions, users))
  }

  function RefreshTtl(config: Config, rememberMe: bool): nat {
    if rememberMe then config.rememberMeRefreshExpiryMs else config.refreshExpiryMs
  }

  /** `buildSession`; `sid` is the random id drawn for the new row. */
  function BuildSession(db: Db, u: UserId, rememberMe: bool, now: int, sid: SessionId): (Db, Outcome)
    requires u in db.users
  {
    var ttl := RefreshTtl(db.config, rememberMe);
    var access := Access(db.users[u].username, sid, now + db.config.accessExpiryMs);
    var refresh := Refresh(db.users[u].username, sid, now + ttl, rememberMe);
    (db.(sessions := db.sessions[sid := Session(u, refresh, now + ttl, false, true)],
         minted := db.minted + {access, refresh}),
     Issued(access, refresh))
  }

  // ---------------------------------------------------------------- sign-in requests

  function Registered(username: string, email: string, password: string, tenant: Option<TenantId>): User {
    User(username, email, tenant, password, ACTIVE, 0, None, false)
  }

  ghost function HandleRegister(db: Db, username: string, email: string, password: string,
                                tenantCode: Option<string>, newUser: UserId, now: int, sid: SessionId): (Db, Outcome)
  {
    if FindByUsername(db, username).Some? || EmailTaken(db, email) then (db, Conflict)
    else if tenantCode.Some? && tenantCode.value !in db.tenants then (db, NotFound)
    else
      var tenant := if tenantCode.Some? then Some(db.tenants[tenantCode.value]) else None;
      BuildSession(db.(users := db.users[newUser := Registered(username, email, password, tenant)]),
                   newUser, false, now, sid)
  }

  predicate Locked(user: User, now: int) {
    user.accountLockedUntil.Some? && user.accountLockedUntil.value > now
  }

  predicate Permitted(user: User, password: string) {
    user.status == ACTIVE && user.password == password
  }

  /** The row after a refused attempt: from the fifth on, each one locks anew. */
  function AfterFailure(user: User, stamp: int): User {
    var n := user.failedLoginAttempts + 1;
    user.(failedLoginAttempts := n,
          accountLockedUntil := if n >= MAX_FAILED_ATTEMPTS then Some(stamp + LOCKOUT_DURATION_MS)
                                else user.accountLockedUntil)
  }

  function Unlocked(user: User): User {
    user.(failedLoginAttempts := 0, accountLockedUntil := None)
  }

  /** `gate` is the clock at the lock test, `stamp` the clock when the row is written. */
  ghost function HandleLogin(db: Db, username: string, password: string, rememberMe: bool,
                             gate: int, stamp: int, sid: SessionId): (Db, Outcome)
  {
    var found := FindByUsername(db, username);
    if found.None? then (db, Unauthorized)
    else
      var u, user := found.value, db.users[found.value];
      if Locked(user, gate) then (db, AccountLocked(user.accountLockedUntil.value))
      else if !Permitted(user, password) then
        var after := AfterFailure(user, stamp);
        (db.(users := db.users[u := after]),
         if after.accountLockedUntil.Some? then AccountLocked(after.accountLockedUntil.value) else Unauthorized)
      else BuildSession(db.(users := db.users[u := Unlocked(user)]), u, rememberMe, stamp, sid)
  }

  // ---------------------------------------------------------------- token requests

  predicate Verified(db: Db, token: Token, now: int) {
    token in db.minted && token.exp > now
  }

  predicate Usable(db: Db, u: UserId) {
    u in db.users && !db.users[u].isDeleted && db.users[u].status == ACTIVE
  }

  /** The row `refresh` reads for a token: found by hash, neither revoked nor inactive. */
  predicate RefreshRow(db: Db, token: Token, s: SessionId) {
    s in db.sessions && db.sessions[s].tokenHash == token && !db.sessions[s].isRevoked && db.sessions[s].isActive
  }

  predicate RefreshAccepted(db: Db, token: Token, s: SessionId, now: int) {
    && Verified(db, token, now) && token.Refresh?
    && RefreshRow(db, token, s)
    && Usable(db, db.sessions[s].user)
    && db.users[db.sessions[s].user].username == token.sub
    && db.sessions[s].expiresAt > now
    && token.sid == s
  }

  /** The token names its row, so the row is looked up under the token's session id. */
  function HandleRefresh(db: Db, token: Option<Token>, now: int, sid: SessionId): (Db, Outcome) {
    if token.None? || !RefreshAccepted(db, token.value, token.value.sid, now) then (db, Unauthorized)
    else
      var spent := token.value.sid;
      BuildSession(CloseSession(db, spent), db.sessions[spent].user, token.value.rememberMe, now, sid)
  }

  predicate LogoutRow(db: Db, token: Token, s: SessionId) {
    s in db.sessions && db.sessions[s].tokenHash == token && !db.sessions[s].isRevoked
  }

  function HandleLogout(db: Db, token: Option<Token>): (Db, Outcome) {
    if token.None? || !LogoutRow(db, token.value, token.value.sid) then (db, Done)
    else (CloseSession(db, token.value.sid), Done)
  }

  /** `validate` behind the signature check: the user an access token stands for. */
  function Validate(db: Db, token: Token, now: int): Option<UserId> {
    if !Verified(db, token, now) || !token.Access? || token.sid !in db.sessions then None
    else
      var session := db.sessions[token.sid];
      if session.isRevoked || !session.isActive || session.expiresAt <= now then None
      else if !Usable(db, session.user) || db.users[session.user].username != token.sub then None
      else Some(session.user)
  }

  predicate Upper(c: char) { 'A' <= c <= 'Z' }
  predicate Lower(c: char) { 'a' <= c <= 'z' }
  predicate Digit(c: char) { '0' <= c <= '9' }

  predicate ComplexEnough(password: string) {
    && |password| >= 8
    && (exists i :: 0 <= i < |password| && Upper(password[i]))
    && (exists i :: 0 <= i < |password| && Lower(password[i]))
    && (exists i :: 0 <= i < |password| && Digit(password[i]))
    && (exists i :: 0 <= i < |password| && !Upper(password[i]) && !Lower(password[i]) && !Digit(password[i]))
  }

  function HandleChangePassword(db: Db, token: Token, current: string, wanted: string, now: int): (Db, Outcome) {
    var actor := Validate(db, token, now);
    if actor.None? then (db, Unauthorized)
    else
      var u, user := actor.value, db.users[actor.value];
      if current != user.password || !ComplexEnough(wanted) || wanted == user.password then (db, BadRequest)
      else (RevokeAll(db.(users := db.users[u := user.(password := wanted)]), {u}), Done)
  }

  // ---------------------------------------------------------------- account administration

  predicate Revoking(status: UserStatus) {
    status == LOCKED || status == INACTIVE
  }

  function WithStatus(user: User, status: UserStatus): User {
    var changed := user.(status := status);
    if status == ACTIVE then Unlocked(changed) else changed
  }

  function HandleUpdateStatus(db: Db, u: UserId, status: UserStatus, scope: Option<TenantId>): (Db, Outcome) {
    if !Visible(db, u, scope) then (db, NotFound)
    else
      var changed := db.(users := db.users[u := WithStatus(db.users[u], status)]);
      (if Revoking(status) then RevokeAll(changed, {u}) else changed, Done)
  }

  function SetStatusOf(db: Db, targets: set<UserId>, status: UserStatus): Db {
    var changed := db.(users := map u | u in db.users ::
                                  if u in targets then WithStatus(db.users[u], status) else db.users[u]);
    if Revoking(status) then RevokeAll(changed, targets) else changed
  }

  function HandleBulkUpdateStatus(db: Db, ids: seq<UserId>, status: UserStatus, scope: Option<TenantId>): (Db, Outcome)
  {
    var targets := Targets(db, ids, scope);
    (SetStatusOf(db, targets, status), Affected(|targets|))
  }

  function HandleResetPassword(db: Db, u: UserId, temporary: string, scope: Option<TenantId>): (Db, Outcome) {
    if !Visible(db, u, scope) then (db, NotFound)
    else (RevokeAll(db.(users := db.users[u := db.users[u].(password := temporary)]), {u}), Done)
  }

  function HandleDelete(db: Db, u: UserId, scope: Option<TenantId>, actor: UserId): (Db, Outcome) {
    if u == actor then (db, BadRequest)
    else if !Visible(db, u, scope) then (db, NotFound)
    else (RevokeAll(db.(users := db.users[u := db.users[u].(isDeleted := true)]), {u}), Done)
  }

  function HandleTerminateSession(db: Db, s: SessionId, scope: Option<TenantId>): (Db, Outcome) {
    if s !in db.sessions || db.sessions[s].user !in db.users then (db, NotFound)
    else
      var owner := db.users[db.sessions[s].user];
      if scope.Some? && owner.tenant.Some? && owner.tenant != scope then (db, Forbidden)
      else if owner.isDeleted then (db, NotFound)
      else (CloseSession(db, s), Done)
  }

  function HandleTerminateAll(db: Db, u: UserId, scope: Option<TenantId>): (Db, Outcome) {
    if !Visible(db, u, scope) then (db, NotFound)
    else (RevokeAll(db, {u}), Affected(|ActiveSessionsOf(db.sessions, u)|))
  }

  /** `UsersService.update`: the status field neither revokes sessions nor clears a lockout. */
  function HandleUpdateUser(db: Db, u: UserId, email: string, status: Option<UserStatus>,
                            scope: Option<TenantId>): (Db, Outcome)
  {
    if !Visible(db, u, scope) then (db, NotFound)
    else if email != db.users[u].email && EmailTaken(db, email) then (db, Conflict)
    else (db.(users := db.users[u := db.users[u].(email := email, status := GetOr(status, db.users[u].status))]), Done)
  }

  function LiveUsersOf(db: Db, tenant: TenantId): set<UserId> {
    set u | u in db.users && db.users[u].tenant == Some(tenant) && !db.users[u].isDeleted
  }

  /** `UsersService.create`; `maxUsers` is the limit in the tenant's row. */
  ghost function HandleCreateUser(db: Db, username: string, email: string, temporary: string,
                                  status: Option<UserStatus>, requested: Option<TenantId>, maxUsers: Option<int>,
                                  newUser: UserId, scope: Option<TenantId>): (Db, Outcome)
  {
    var tenant := if scope.Some? then scope else requested;
    if FindByUsername(db, username).Some? || EmailTaken(db, email) then (db, Conflict)
    else if scope.Some? && requested.Some? && requested != scope then (db, Forbidden)
    else if tenant.None? then (db, BadRequest)
    else if tenant.value !in db.tenants.Values then (db, NotFound)
    else if maxUsers.Some? && |LiveUsersOf(db, tenant.value)| >= maxUsers.value then (db, Conflict)
    else
      var row := User(username, email, tenant, temporary, GetOr(status, ACTIVE), 0, None, false);
      (db.(users := db.users[newUser := row]), Done)
  }

  // ---------------------------------------------------------------- one request at a time

  datatype Request =
    | Register(username: string, email: string, password: string, tenantCode: Option<string>,
               newUser: UserId, now: int, sid: SessionId)
    | Login(username: string, password: string, rememberMe: bool, gate: int, stamp: int, sid: SessionId)
    | RefreshToken(token: Option<Token>, now: int, sid: SessionId)
    | Logout(token: Option<Token>)
    | ChangePassword(access: Token, current: string, wanted: string, now: int)
    | UpdateStatus(user: UserId, status: UserStatus, scope: Option<TenantId>)
    | BulkUpdateStatus(ids: seq<UserId>, status: UserStatus, scope: Option<TenantId>)
    | ResetPassword(user: UserId, temporary: string, scope: Option<TenantId>)
    | DeleteUser(user: UserId, scope: Option<TenantId>, actor: UserId)
    | TerminateSession(session: SessionId, scope: Option<TenantId>)
    | TerminateAll(user: UserId, scope: Option<TenantId>)
    | UpdateUser(user: UserId, email: string, newStatus: Option<UserStatus>, scope: Option<TenantId>)
    | CreateUser(username: string, email: string, temporary: string, newStatus: Option<UserStatus>,
                 requested: Option<TenantId>, maxUsers: Option<int>, newUser: UserId, scope: Option<TenantId>)

  /** Ids drawn for new rows are ids no row has. */
  predicate FreshIds(db: Db, r: Request) {
    && (r.Register? || r.CreateUser? ==> r.newUser !in db.users)
    && (r.Register? || r.Login? || r.RefreshToken? ==> r.sid !in db.sessions)
  }

  ghost function Handle(db: Db, r: Request): (Db, Outcome) {
    match r
    case Register(username, email, password, tenantCode, newUser, now, sid) =>
      HandleRegister(db, username, email, password, tenantCode, newUser, now, sid)
    case Login(username, password, rememberMe, gate, stamp, sid) =>
      HandleLogin(db, username, password, rememberMe, gate, stamp, sid)
    case RefreshToken(token, now, sid) => HandleRefresh(db, token, now, sid)
    case Logout(token) => HandleLogout(db, token)
    case ChangePassword(access, current, wanted, now) => HandleChangePassword(db, access, current, wanted, now)
    case UpdateStatus(user, status, scope) => HandleUpdateStatus(db, user, status, scope)
    case BulkUpdateStatus(ids, status, scope) => HandleBulkUpdateStatus(db, ids, status, scope)
    case ResetPassword(user, temporary, scope) => HandleResetPassword(db, user, temporary, scope)
    case DeleteUser(user, scope, actor) => HandleDelete(db, user, scope, actor)
    case TerminateSession(session, scope) => HandleTerminateSession(db, session, scope)
    case TerminateAll(user, scope) => HandleTerminateAll(db, user, scope)
    case UpdateUser(user, email, newStatus, scope) => HandleUpdateUser(db, user, email, newStatus, scope)
    case CreateUser(username, email, temporary, newStatus, requested, maxUsers, newUser, scope) =>
      HandleCreateUser(db, username, email, temporary, newStatus, requested, maxUsers, newUser, scope)
  }

  /** A run of whole requests; a request whose drawn ids are taken is not a possible one. */
  ghost predicate PossibleRun(db: Db, requests: seq<Request>) {
    requests != [] ==>
      && PossibleRun(db, requests[..|requests| - 1])
      && FreshIds(Run(db, requests[..|requests| - 1]), requests[|requests| - 1])
  }

  ghost function Run(db: Db, requests: seq<Request>): Db {
    if requests == [] then db
    else Handle(Run(db, requests[..|requests| - 1]), requests[|requests| - 1]).0
  }
}
