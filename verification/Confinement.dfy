/**
 Who is confined to a tenant.  A caller's scope is read off the role claim of the token it
 presents, a claim is drawn up from the tables at sign-in, and the requests of a confined
 caller change those tables: so a confined caller may, or may not, be able to talk itself out
 of its tenant.
 */
module Confinement {
  import opened Options
  import opened Links
  import opened RbacModel
  import opened RbacInvariant
  import opened RequestFrames
  import RbacMeaning
  import opened EffectiveAccess
  import opened TenantIsolation
  import opened RoleCodes
  import opened RoleClaim

  // ---------------------------------------------------------------- callers and their calls

  /** An access token: the user it stands for, and what `isPlatformAdmin` makes of its role claim. */
  datatype Token = Token(user: Id, platformAdmin: bool)

  datatype System = System(db: Db, tokens: set<Token>)

  /** What a controller is asked for. */
  datatype Command =
    | ForModules(onModules: ModuleRequest)
    | ForPermissions(onPermissions: PermissionRequest)
    | ForRoles(onRoles: RoleRequest)
    | ForGroups(onGroups: GroupRequest)
    | NewUser(tenant: Option<TenantId>, role: Option<UserRole>)
    | ChangeUser(userId: Id, newRole: Option<UserRole>)
    | RemoveUser(userId: Id)
    | GiveRole(userId: Id, roleId: Id)
    | TakeRole(userId: Id, roleId: Id)

  predicate OnCatalog(command: Command) {
    command.ForModules? || command.ForPermissions?
  }

  /** The user behind a token, if it passes the guard. */
  predicate LiveUser(db: Db, u: Id) {
    u in db.users && !db.users[u].isDeleted
  }

  /** `tenantScope`: no scope for a platform administrator, else the caller's tenant, or a refusal. */
  datatype Scope = Unconfined | Within(tenant: TenantId) | Refused

  function ScopeOf(db: Db, token: Token): Scope
    requires LiveUser(db, token.user)
  {
    if token.platformAdmin then Unconfined
    else if db.users[token.user].tenant.None? then Refused
    else Within(db.users[token.user].tenant.value)
  }

  function ToUserRequest(db: Db, caller: Id, command: Command): UserRequest
    requires !OnCatalog(command) && !command.ForRoles? && !command.ForGroups?
  {
    match command
    case NewUser(tenant, role) => CreateUser(tenant, ToDumpRoleCode(role, true))
    case ChangeUser(u, role) =>
      var hasTenant := u in db.users && db.users[u].tenant.Some?;
      UpdateUser(u, if role.Some? then Some(ToDumpRoleCode(role, hasTenant)) else None)
    case RemoveUser(u) => DeleteUser(u, caller)
    case GiveRole(u, r) => AssignUserRole(u, r)
    case TakeRole(u, r) => RevokeUserRole(u, r)
  }

  /** The service call behind a command; module and permission services take no scope. */
  function ToRequest(db: Db, caller: Id, command: Command, scope: Option<TenantId>): Request {
    match command
    case ForModules(r) => ToModules(r)
    case ForPermissions(r) => ToPermissions(r)
    case ForRoles(r) => ToRoles(r, scope)
    case ForGroups(r) => ToGroups(r, scope)
    case _ => ToUsers(ToUserRequest(db, caller, command), scope)
  }

  /** Validation of the body: a role code has the request pattern. */
  predicate WellFormed(command: Command) {
    command.ForRoles? && command.onRoles.CreateRole? ==> MatchesCodePattern(command.onRoles.roleCode)
  }

  /** The service call a live caller's command ends in, if it is neither malformed nor refused a scope. */
  function Served(db: Db, token: Token, command: Command): Option<Request>
    requires LiveUser(db, token.user)
  {
    if !WellFormed(command) then None
    else if OnCatalog(command) then Some(ToRequest(db, token.user, command, None))
    else
      match ScopeOf(db, token)
      case Refused => None
      case Unconfined => Some(ToRequest(db, token.user, command, None))
      case Within(t) => Some(ToRequest(db, token.user, command, Some(t)))
  }

  ghost function AfterCall(db: Db, token: Token, command: Command): Db
    requires LiveUser(db, token.user)
  {
    match Served(db, token, command)
    case None => db
    case Some(request) => Handle(db, request).0
  }

  // ---------------------------------------------------------------- runs of one tenant's callers

  datatype Step =
    | SignIn(user: Id)
    | Register(tenant: Option<TenantId>)
    | Call(token: Token, command: Command)

  predicate OfTenant(db: Db, u: Id, t: TenantId) {
    LiveUser(db, u) && db.users[u].tenant == Some(t)
  }

  /** Anybody signs in or registers; calls are made by users of t. */
  ghost function Act(sys: System, step: Step, t: TenantId): System {
    match step
    case SignIn(u) =>
      if LiveUser(sys.db, u) then sys.(tokens := sys.tokens + {Token(u, HoldsAdminCode(sys.db, u))}) else sys
    case Register(tenant) => sys.(db := HandleUser(sys.db, RegisterUser(tenant), None).0)
    case Call(token, command) =>
      if token in sys.tokens && OfTenant(sys.db, token.user, t)
      then sys.(db := AfterCall(sys.db, token, command))
      else sys
  }

  ghost function RunSteps(sys: System, steps: seq<Step>, t: TenantId): System {
    if steps == [] then sys
    else Act(RunSteps(sys, steps[..|steps| - 1], t), steps[|steps| - 1], t)
  }

  /** No live user of t presents a platform administrator's token. */
  predicate Confined(sys: System, t: TenantId) {
    forall token :: token in sys.tokens && OfTenant(sys.db, token.user, t) ==> !token.platformAdmin
  }

  predicate Sound(sys: System) {
    && Valid(sys.db) && CodesObeyPattern(sys.db.roles)
    && forall token :: token in sys.tokens ==> token.user in sys.db.users
  }

  // ---------------------------------------------------------------- the way out

  /** A role that makes its holder platform administrator and that callers of t can use or put to use. */
  predicate UsableAdminRole(db: Db, t: TenantId, r: Id) {
    && RoleLive(db, r) && db.roles[r].roleCode in PLATFORM_ADMIN_ROLES
    && Reaches(db.roles[r], Some(t))
    && (db.roles[r].status == ACTIVE || (db.roles[r].tenant == Some(t) && !db.roles[r].isSystemRole))
  }

  /** A platform administrator's code that t has not used yet, while t may create roles. */
  predicate FreeAdminCode(db: Db, t: TenantId, code: string) {
    code in PLATFORM_ADMIN_ROLES && t in db.tenants && !RoleCodeTaken(db.roles, Some(t), code)
  }

  predicate AdminWithinReach(db: Db, t: TenantId) {
    || (exists r :: r in db.roles && UsableAdminRole(db, t, r))
    || (exists code :: code in PLATFORM_ADMIN_ROLES && FreeAdminCode(db, t, code))
  }

  /** Somebody is, or can register as, a user of t. */
  predicate HasUsers(db: Db, t: TenantId) {
    t in db.tenants || exists u :: u in db.users && OfTenant(db, u, t)
  }

  /** The tables let a user of t become platform administrator. */
  predicate EscapeOpen(db: Db, t: TenantId) {
    HasUsers(db, t) && AdminWithinReach(db, t)
  }

  // ---------------------------------------------------------------- every step keeps the tables sound

  lemma RequestKeepsPattern(db: Db, request: Request)
    requires Below(db.users.Keys, db.nextId) && CodesObeyPattern(db.roles) && !request.TenantsBecome?
    requires request.ToRoles? && request.onRoles.CreateRole? ==> MatchesCodePattern(request.onRoles.roleCode)
    ensures CodesObeyPattern(Handle(db, request).0.roles)
  {
    RequestKeepsRoles(db, request);
    if WritesRole(request) {
      RoleRowWritten(db, request.onRoles, request.scope);
    }
  }

  lemma CallKeepsSound(db: Db, token: Token, command: Command)
    requires LiveUser(db, token.user) && Valid(db) && CodesObeyPattern(db.roles)
    ensures Valid(AfterCall(db, token, command)) && CodesObeyPattern(AfterCall(db, token, command).roles)
  {
    var served := Served(db, token, command);
    if served.Some? {
      HandleKeepsValid(db, served.value);
      RequestKeepsPattern(db, served.value);
    }
  }

  /**
   The flag of a token is what `isPlatformAdmin` reads off the role claim that sign-in draws up,
   in whatever order the database returns the codes.
   */
  lemma TokenReadsClaim(sys: System, u: Id, codes: seq<string>, t: TenantId)
    requires Sound(sys) && LiveUser(sys.db, u) && Lists(codes, EffectiveRoleCodes(sys.db, u))
    ensures Act(sys, SignIn(u), t).tokens == sys.tokens + {Token(u, IsPlatformAdmin(ResolveRole(codes)))}
  {
    ClaimIsAdminIff(sys.db, u, codes);
  }

  // ---------------------------------------------------------------- with no way out, callers stay confined

  /** One row of t is written: a new one, or a status or deletion of one that is not a system role. */
  lemma RowKeepsShut(db: Db, after: Db, t: TenantId, r: Id)
    requires !AdminWithinReach(db, t) && after.tenants == db.tenants
    requires r in after.roles && after.roles == db.roles[r := after.roles[r]] && after.roles[r].tenant == Some(t)
    requires r in db.roles ==>
               && !db.roles[r].isDeleted && !db.roles[r].isSystemRole && db.roles[r].tenant == Some(t)
               && after.roles[r].roleCode == db.roles[r].roleCode
    requires r !in db.roles ==> t in db.tenants && !RoleCodeTaken(db.roles, Some(t), after.roles[r].roleCode)
    ensures !AdminWithinReach(after, t)
  {
    assert r in db.roles ==> !UsableAdminRole(db, t, r);
    assert after.roles[r].roleCode in PLATFORM_ADMIN_ROLES ==> !FreeAdminCode(db, t, after.roles[r].roleCode);
    assert after.roles[r].roleCode !in PLATFORM_ADMIN_ROLES;
    forall q | q in after.roles
      ensures !UsableAdminRole(after, t, q)
    {
      assert q != r ==> !UsableAdminRole(db, t, q);
    }
    forall code | code in PLATFORM_ADMIN_ROLES
      ensures !FreeAdminCode(after, t, code)
    {
      assert !FreeAdminCode(db, t, code);
      if q :| q in db.roles && db.roles[q].roleCode == code && db.roles[q].tenant == Some(t) {
        assert q in after.roles && after.roles[q].roleCode == code && after.roles[q].tenant == Some(t);
      }
    }
  }

  lemma SameRolesSameReach(db: Db, after: Db, t: TenantId)
    requires after.roles == db.roles && after.tenants == db.tenants
    ensures AdminWithinReach(after, t) <==> AdminWithinReach(db, t)
  {
    assert forall r :: UsableAdminRole(after, t, r) <==> UsableAdminRole(db, t, r);
    assert forall code :: FreeAdminCode(after, t, code) <==> FreeAdminCode(db, t, code);
  }

  /** A confined caller cannot put an administrator's role within reach that was not. */
  lemma ScopedRoleRequestKeepsShut(db: Db, request: RoleRequest, t: TenantId)
    requires !AdminWithinReach(db, t) && Below(db.roles.Keys, db.nextId)
    ensures !AdminWithinReach(HandleRole(db, request, Some(t)).0, t)
  {
    var after := HandleRole(db, request, Some(t)).0;
    if OnRoleRow(request) {
      RoleRowWritten(db, request, Some(t));
      if HandleRole(db, request, Some(t)).1 == Done {
        var r := if request.CreateRole? then db.nextId else request.roleId;
        RowKeepsShut(db, after, t, r);
      }
    } else {
      SameRolesSameReach(db, after, t);
    }
  }

  lemma SourceReaches(db: Db, u: Id, s: Source)
    requires Valid(db) && s in ActiveRoleSources(db, u)
    ensures u in db.users && RoleActive(db, s.role) && Reaches(db.roles[s.role], db.users[u].tenant)
  {
    SourceRow(db, u, s);
  }

  /** Whoever holds an administrator's code has a usable role within reach. */
  lemma HoldersReach(db: Db, u: Id, t: TenantId, code: string)
    requires Valid(db) && OfTenant(db, u, t)
    requires code in PLATFORM_ADMIN_ROLES && HoldsCode(db, u, code)
    ensures EscapeOpen(db, t)
  {
    SelectedIffHeld(db, u, code);
    var s :| s in ActiveRoleSources(db, u) && s.role in db.roles && db.roles[s.role].roleCode == code;
    SourceReaches(db, u, s);
    assert UsableAdminRole(db, t, s.role);
  }

  /** A claim drawn up while the way out is shut is no administrator's. */
  lemma ShutGivesNoClaim(db: Db, u: Id, t: TenantId)
    requires Valid(db) && !EscapeOpen(db, t) && OfTenant(db, u, t)
    ensures !HoldsAdminCode(db, u)
  {
    if code :| code in PLATFORM_ADMIN_ROLES && HoldsCode(db, u, code) {
      HoldersReach(db, u, t, code);
    }
  }

  lemma GrowingKeepsEmpty(db: Db, after: Db, t: TenantId)
    requires UsersGrow(db.users, after.users, db.tenants) && after.tenants == db.tenants && !HasUsers(db, t)
    ensures !HasUsers(after, t)
  {
    forall u | u in after.users
      ensures !OfTenant(after, u, t)
    {
      assert u in db.users ==> UserKept(db.users, after.users, u) && !OfTenant(db, u, t);
    }
  }

  lemma GrowingKeepsConfined(sys: System, after: Db, t: TenantId)
    requires Confined(sys, t) && UsersGrow(sys.db.users, after.users, sys.db.tenants)
    requires forall token :: token in sys.tokens ==> token.user in sys.db.users
    ensures Confined(sys.(db := after), t)
  {
    forall token | token in sys.tokens && OfTenant(after, token.user, t)
      ensures !token.platformAdmin
    {
      assert UserKept(sys.db.users, after.users, token.user);
    }
  }

  lemma CallGrowsUsers(db: Db, token: Token, command: Command)
    requires LiveUser(db, token.user) && Valid(db)
    ensures UsersGrow(db.users, AfterCall(db, token, command).users, db.tenants)
  {
    var served := Served(db, token, command);
    if served.Some? {
      RequestGrowsUsers(db, served.value);
    }
  }

  lemma GrowingKeepsTokens(sys: System, after: Db)
    requires UsersGrow(sys.db.users, after.users, sys.db.tenants)
    requires forall token :: token in sys.tokens ==> token.user in sys.db.users
    ensures forall token :: token in sys.tokens ==> token.user in after.users
  {
    forall token | token in sys.tokens
      ensures token.user in after.users
    {
      assert UserKept(sys.db.users, after.users, token.user);
    }
  }

  lemma StepKeepsSound(sys: System, step: Step, t: TenantId)
    requires Sound(sys)
    ensures Sound(Act(sys, step, t))
  {
    match step
    case SignIn(_) =>
    case Register(tenant) =>
      UserKeepsValid(sys.db, RegisterUser(tenant), None);
      UserRequestGrowsUsers(sys.db, RegisterUser(tenant), None);
      GrowingKeepsTokens(sys, HandleUser(sys.db, RegisterUser(tenant), None).0);
    case Call(token, command) =>
      if token in sys.tokens && OfTenant(sys.db, token.user, t) {
        CallKeepsSound(sys.db, token, command);
        CallGrowsUsers(sys.db, token, command);
        GrowingKeepsTokens(sys, AfterCall(sys.db, token, command));
      }
  }

  lemma {:induction false} RunKeepsSound(sys: System, steps: seq<Step>, t: TenantId)
    requires Sound(sys)
    ensures Sound(RunSteps(sys, steps, t))
  {
    if steps != [] {
      RunKeepsSound(sys, steps[..|steps| - 1], t);
      StepKeepsSound(RunSteps(sys, steps[..|steps| - 1], t), steps[|steps| - 1], t);
    }
  }

  // ---------------------------------------------------------------- confinement over runs

  /** The state of a tenant whose callers cannot leave it. */
  predicate Shut(sys: System, t: TenantId) {
    Confined(sys, t) && !EscapeOpen(sys.db, t)
  }

  lemma ScopedCallKeepsShut(db: Db, request: Request, t: TenantId)
    requires Numbered(db) && !EscapeOpen(db, t) && HasUsers(db, t) && !request.TenantsBecome?
    requires TenantIsolation.Confined(request, t) || request.ToModules? || request.ToPermissions?
    ensures !AdminWithinReach(Handle(db, request).0, t)
  {
    if request.ToRoles? {
      ScopedRoleRequestKeepsShut(db, request.onRoles, t);
    } else {
      RequestKeepsRoles(db, request);
      SameRolesSameReach(db, Handle(db, request).0, t);
    }
  }

  /** Platform administrators are unconfined, others confined to their tenant, and refused without one. */
  lemma ScopeTells(db: Db, token: Token)
    requires LiveUser(db, token.user)
    ensures ScopeOf(db, token) == Unconfined <==> token.platformAdmin
    ensures ScopeOf(db, token) == Refused <==> !token.platformAdmin && db.users[token.user].tenant == None
    ensures forall t: TenantId ::
              ScopeOf(db, token) == Within(t) <==> !token.platformAdmin && db.users[token.user].tenant == Some(t)
  {
  }

  /** A caller without a tenant who is no platform administrator changes nothing but the catalog. */
  lemma TenantlessCallsAreRefused(db: Db, token: Token, command: Command)
    requires LiveUser(db, token.user) && !token.platformAdmin && db.users[token.user].tenant == None
    requires !OnCatalog(command)
    ensures AfterCall(db, token, command) == db
  {
  }

  /** What a user command does: the request of the users service with that effect, under the caller's scope. */
  lemma UserCommandMeans(db: Db, caller: Id, command: Command, scope: Option<TenantId>)
    requires Valid(db) && !OnCatalog(command) && !command.ForRoles? && !command.ForGroups?
    ensures var (after, outcome) := Handle(db, ToRequest(db, caller, command, scope));
            match command
            case NewUser(tenant, role) =>
              RbacMeaning.CreateUserEffect(db, after, outcome, tenant, ToDumpRoleCode(role, true), scope)
            case ChangeUser(u, role) =>
              var hasTenant := u in db.users && db.users[u].tenant != None;
              var code := if role == None then None else Some(ToDumpRoleCode(role, hasTenant));
              RbacMeaning.UpdateUserEffect(db, after, outcome, u, code, scope)
            case RemoveUser(u) => RbacMeaning.DeleteUserEffect(db, after, outcome, u, caller, scope)
            case GiveRole(u, r) => RbacMeaning.AssignUserRoleEffect(db, after, outcome, u, r, scope)
            case TakeRole(u, r) => RbacMeaning.RevokeUserRoleEffect(db, after, outcome, u, r, scope)
            case _ => true
  {
    match command
    case NewUser(tenant, role) => RbacMeaning.CreateUserMeans(db, tenant, ToDumpRoleCode(role, true), scope);
    case ChangeUser(u, role) =>
      var hasTenant := u in db.users && db.users[u].tenant != None;
      var code := if role == None then None else Some(ToDumpRoleCode(role, hasTenant));
      RbacMeaning.UpdateUserMeans(db, u, code, scope);
    case RemoveUser(u) => RbacMeaning.DeleteUserMeans(db, u, caller, scope);
    case GiveRole(u, r) => RbacMeaning.AssignUserRoleMeans(db, u, r, scope);
    case TakeRole(u, r) => RbacMeaning.RevokeUserRoleMeans(db, u, r, scope);
  }

  lemma ConfinedScope(sys: System, token: Token, t: TenantId)
    requires Confined(sys, t) && token in sys.tokens && OfTenant(sys.db, token.user, t)
    ensures ScopeOf(sys.db, token) == Within(t)
  {
  }

  /** What a call with a known scope comes to. */
  lemma ScopedCall(db: Db, token: Token, command: Command, t: TenantId)
    requires LiveUser(db, token.user) && ScopeOf(db, token) == Within(t)
    ensures Served(db, token, command) ==
            if !WellFormed(command) then None
            else if OnCatalog(command) then Some(ToRequest(db, token.user, command, None))
            else Some(ToRequest(db, token.user, command, Some(t)))
  {
  }

  lemma RequestKinds(db: Db, caller: Id, command: Command, t: TenantId)
    ensures OnCatalog(command) ==>
              var r := ToRequest(db, caller, command, None); r.ToModules? || r.ToPermissions?
    ensures !OnCatalog(command) ==> TenantIsolation.Confined(ToRequest(db, caller, command, Some(t)), t)
  {
  }

  lemma ConfinedCallIsScoped(sys: System, token: Token, command: Command, t: TenantId)
    requires Confined(sys, t) && token in sys.tokens && OfTenant(sys.db, token.user, t)
    requires Served(sys.db, token, command).Some?
    ensures var request := Served(sys.db, token, command).value;
            if OnCatalog(command) then request.ToModules? || request.ToPermissions?
            else TenantIsolation.Confined(request, t)
  {
    ConfinedScope(sys, token, t);
    ScopedCall(sys.db, token, command, t);
    RequestKinds(sys.db, token.user, command, t);
  }

  lemma CallKeepsShut(sys: System, token: Token, command: Command, t: TenantId)
    requires Sound(sys) && Shut(sys, t) && token in sys.tokens && OfTenant(sys.db, token.user, t)
    ensures Shut(sys.(db := AfterCall(sys.db, token, command)), t)
  {
    CallGrowsUsers(sys.db, token, command);
    GrowingKeepsConfined(sys, AfterCall(sys.db, token, command), t);
    var served := Served(sys.db, token, command);
    if served.Some? {
      ConfinedCallIsScoped(sys, token, command, t);
      ScopedCallKeepsShut(sys.db, served.value, t);
    }
  }

  lemma RegisterKeepsShut(sys: System, tenant: Option<TenantId>, t: TenantId)
    requires Sound(sys) && Shut(sys, t)
    ensures Shut(Act(sys, Register(tenant), t), t)
  {
    var after := HandleUser(sys.db, RegisterUser(tenant), None).0;
    UserRequestGrowsUsers(sys.db, RegisterUser(tenant), None);
    GrowingKeepsConfined(sys, after, t);
    SameRolesSameReach(sys.db, after, t);
    if !HasUsers(sys.db, t) {
      GrowingKeepsEmpty(sys.db, after, t);
    }
  }

  lemma SignInKeepsShut(sys: System, u: Id, t: TenantId)
    requires Sound(sys) && Shut(sys, t)
    ensures Shut(Act(sys, SignIn(u), t), t)
  {
    if OfTenant(sys.db, u, t) {
      ShutGivesNoClaim(sys.db, u, t);
    }
  }

  lemma StepKeepsShut(sys: System, step: Step, t: TenantId)
    requires Sound(sys) && Shut(sys, t)
    ensures Shut(Act(sys, step, t), t)
  {
    match step
    case SignIn(u) => SignInKeepsShut(sys, u, t);
    case Register(tenant) => RegisterKeepsShut(sys, tenant, t);
    case Call(token, command) =>
      if token in sys.tokens && OfTenant(sys.db, token.user, t) {
        CallKeepsShut(sys, token, command, t);
      }
  }

  lemma {:induction false} RunKeepsShut(sys: System, steps: seq<Step>, t: TenantId)
    requires Sound(sys) && Shut(sys, t)
    ensures Shut(RunSteps(sys, steps, t), t)
  {
    if steps != [] {
      var front := steps[..|steps| - 1];
      RunKeepsShut(sys, front, t);
      RunKeepsSound(sys, front, t);
      StepKeepsShut(RunSteps(sys, front, t), steps[|steps| - 1], t);
    }
  }

  // ---------------------------------------------------------------- while it is shut, nothing outside changes

  lemma CatalogKeepsLinks(db: Db, request: Request, t: TenantId)
    requires request.ToModules? || request.ToPermissions?
    ensures LinksOutside(db, Handle(db, request).0, t)
  {
  }

  lemma StepStaysInside(sys: System, step: Step, t: TenantId)
    requires Sound(sys) && Shut(sys, t)
    ensures LinksOutside(sys.db, Act(sys, step, t).db, t)
    ensures !(step.Call? && OnCatalog(step.command)) ==> SameOutside(sys.db, Act(sys, step, t).db, t)
  {
    NothingInside(sys.db, t);
    match step
    case SignIn(_) =>
    case Register(tenant) => UserRequestStaysInside(sys.db, RegisterUser(tenant), t);
    case Call(token, command) =>
      if token in sys.tokens && OfTenant(sys.db, token.user, t) && Served(sys.db, token, command).Some? {
        var request := Served(sys.db, token, command).value;
        ConfinedCallIsScoped(sys, token, command, t);
        if OnCatalog(command) {
          CatalogKeepsLinks(sys.db, request, t);
        } else {
          RequestStaysInside(sys.db, request, t);
        }
      }
  }

  /** v's row and role sources are what they were. */
  predicate Untouched(db: Db, after: Db, v: Id)
    requires v in db.users
  {
    v in after.users && after.users[v] == db.users[v] && ActiveRoleSources(after, v) == ActiveRoleSources(db, v)
  }

  predicate OffCatalog(steps: seq<Step>) {
    forall i :: 0 <= i < |steps| && steps[i].Call? ==> !OnCatalog(steps[i].command)
  }

  lemma StepKeepsOutsider(sys: System, step: Step, t: TenantId, v: Id)
    requires Sound(sys) && Shut(sys, t) && Outsider(sys.db, v, t)
    ensures Untouched(sys.db, Act(sys, step, t).db, v)
    ensures !(step.Call? && OnCatalog(step.command)) ==>
              ListEffectivePermissions(Act(sys, step, t).db, v) == ListEffectivePermissions(sys.db, v)
  {
    StepStaysInside(sys, step, t);
    StepKeepsSound(sys, step, t);
    SourcesSame(sys.db, Act(sys, step, t).db, t, v);
    if !(step.Call? && OnCatalog(step.command)) {
      ListingSame(sys.db, Act(sys, step, t).db, t, v);
    }
  }

  /**
   While the way out is shut, whatever callers of t do, users outside t keep their rows and role
   sources, and their effective permissions too unless the calls touch modules or permissions.
   */
  lemma {:induction false} ShutRunsKeepOutsiders(sys: System, steps: seq<Step>, t: TenantId, v: Id)
    requires Sound(sys) && Shut(sys, t) && Outsider(sys.db, v, t)
    ensures Untouched(sys.db, RunSteps(sys, steps, t).db, v)
    ensures OffCatalog(steps) ==>
              ListEffectivePermissions(RunSteps(sys, steps, t).db, v) == ListEffectivePermissions(sys.db, v)
  {
    if steps != [] {
      var front := steps[..|steps| - 1];
      var mid := RunSteps(sys, front, t);
      ShutRunsKeepOutsiders(sys, front, t, v);
      RunKeepsShut(sys, front, t);
      RunKeepsSound(sys, front, t);
      StepKeepsOutsider(mid, steps[|steps| - 1], t, v);
    }
  }
}
