/**
 Modules, permissions, roles, groups and the users they reach, with the requests that change
 them.  A request is applied whole; a refused one leaves the tables as they are, except a
 batch grant, which keeps what it granted before the refusal.
 */
module RbacModel {
  import opened Options
  import opened Links

  type TenantId = nat

  datatype Status = ACTIVE | SUSPENDED | INACTIVE

  datatype Operation = CREATE | READ | UPDATE | DELETE | EXPORT | APPROVE | PRINT

  datatype User = User(tenant: Option<TenantId>, isDeleted: bool)

  datatype Role = Role(
    tenant: Option<TenantId>, roleCode: string, isSystemRole: bool, status: Status, isDeleted: bool)

  datatype Group = Group(tenant: TenantId, groupCode: string, status: Status, isDeleted: bool)

  datatype AppModule = AppModule(moduleCode: string, isSystemModule: bool, status: Status, isDeleted: bool)

  datatype Permission = Permission(
    moduleId: Id, permissionCode: string, operation: Operation, isDeleted: bool)

  /**
   `tenants` holds the live ones.  Links run user-role, group-user, group-role and
   role-permission.   New rows get the next id.
   */
  datatype Db = Db(
    tenants: set<TenantId>, users: map<Id, User>, roles: map<Id, Role>, groups: map<Id, Group>,
    modules: map<Id, AppModule>, permissions: map<Id, Permission>,
    userRoles: Table, groupMembers: Table, groupRoles: Table, rolePermissions: Table, nextId: Id)

  datatype Outcome = Done | BadRequest | Forbidden | NotFound | Conflict

  function Refuse(db: Db, outcome: Outcome): (Db, Outcome) {
    (db, outcome)
  }

  // ---------------------------------------------------------------- modules

  datatype ModuleRequest =
    | CreateModule(moduleCode: string, status: Option<Status>)
    | UpdateModule(moduleId: Id, status: Option<Status>)
    | DeleteModule(moduleId: Id)

  predicate ModuleLive(db: Db, m: Id) {
    m in db.modules && !db.modules[m].isDeleted
  }

  /** `findModule` followed by `assertMutable`. */
  function MutableModule(db: Db, m: Id): Outcome {
    if !ModuleLive(db, m) then NotFound
    else if db.modules[m].isSystemModule then Forbidden
    else Done
  }

  function ChildrenOf(db: Db, m: Id): set<Id> {
    set p | p in db.permissions && db.permissions[p].moduleId == m && !db.permissions[p].isDeleted
  }

  function DropPermissions(permissions: map<Id, Permission>, gone: set<Id>): map<Id, Permission> {
    map p | p in permissions :: if p in gone then permissions[p].(isDeleted := true) else permissions[p]
  }

  function HandleModule(db: Db, request: ModuleRequest): (result: (Db, Outcome))
    ensures result.0 == db.(modules := result.0.modules, permissions := result.0.permissions,
                            rolePermissions := result.0.rolePermissions, nextId := result.0.nextId)
  {
    match request
    case CreateModule(moduleCode, status) =>
      if exists m :: m in db.modules && db.modules[m].moduleCode == moduleCode then Refuse(db, Conflict)
      else if status == Some(SUSPENDED) then Refuse(db, BadRequest)
      else (db.(modules := db.modules[db.nextId := AppModule(moduleCode, false, GetOr(status, ACTIVE), false)],
                nextId := db.nextId + 1), Done)
    case UpdateModule(m, status) =>
      if MutableModule(db, m) != Done then Refuse(db, MutableModule(db, m))
      else if status == Some(SUSPENDED) then Refuse(db, BadRequest)
      else (db.(modules := db.modules[m := db.modules[m].(status := GetOr(status, ACTIVE))]), Done)
    case DeleteModule(m) =>
      if MutableModule(db, m) != Done then Refuse(db, MutableModule(db, m))
      else
        var children := ChildrenOf(db, m);
        (db.(rolePermissions := Retire(db.rolePermissions, LiveTo(db.rolePermissions, children)),
             permissions := DropPermissions(db.permissions, children),
             modules := db.modules[m := db.modules[m].(isDeleted := true)]), Done)
  }

  // ---------------------------------------------------------------- permissions

  datatype PermissionRequest =
    | CreatePermission(moduleId: Id, permissionCode: string, operation: Operation)
    | UpdatePermission(permissionId: Id, moduleId: Id, permissionCode: string, operation: Operation)
    | DeletePermission(permissionId: Id)

  predicate PermissionLive(db: Db, p: Id) {
    p in db.permissions && !db.permissions[p].isDeleted
  }

  /** `findPermission` of the permissions service. */
  predicate PermissionFound(db: Db, p: Id) {
    PermissionLive(db, p) && ModuleLive(db, db.permissions[p].moduleId)
  }

  predicate CodeFree(permissions: map<Id, Permission>, permissionCode: string, except: set<Id>) {
    forall p :: p in permissions && p !in except ==> permissions[p].permissionCode != permissionCode
  }

  predicate OperationFree(permissions: map<Id, Permission>, m: Id, operation: Operation, except: set<Id>) {
    forall p :: p in permissions && p !in except ==>
      !(permissions[p].moduleId == m && permissions[p].operation == operation)
  }

  predicate Granted(db: Db, p: Id) {
    exists i :: i in db.rolePermissions && db.rolePermissions[i].right == p && !db.rolePermissions[i].isDeleted
  }

  function HandlePermission(db: Db, request: PermissionRequest): (result: (Db, Outcome))
    ensures result.0 == db.(permissions := result.0.permissions, nextId := result.0.nextId)
  {
    match request
    case CreatePermission(m, code, operation) =>
      if !ModuleLive(db, m) then Refuse(db, NotFound)
      else if !CodeFree(db.permissions, code, {}) || !OperationFree(db.permissions, m, operation, {})
      then Refuse(db, Conflict)
      else (db.(permissions := db.permissions[db.nextId := Permission(m, code, operation, false)],
                nextId := db.nextId + 1), Done)
    case UpdatePermission(p, m, code, operation) =>
      if !PermissionFound(db, p) || !ModuleLive(db, m) then Refuse(db, NotFound)
      else if !CodeFree(db.permissions, code, {p}) || !OperationFree(db.permissions, m, operation, {p})
      then Refuse(db, Conflict)
      else (db.(permissions := db.permissions[p := Permission(m, code, operation, false)]), Done)
    case DeletePermission(p) =>
      if !PermissionFound(db, p) then Refuse(db, NotFound)
      else if Granted(db, p) then Refuse(db, Conflict)
      else (db.(permissions := DropPermissions(db.permissions, {p})), Done)
  }

  // ---------------------------------------------------------------- roles

  datatype RoleRequest =
    | CreateRole(tenant: Option<TenantId>, roleCode: string, status: Option<Status>)
    | UpdateRole(roleId: Id, status: Option<Status>)
    | DeleteRole(roleId: Id)
    | GrantPermission(roleId: Id, permissionId: Id)
    | RevokePermission(roleId: Id, permissionId: Id)
    | BatchPermissions(roleId: Id, permissionIds: seq<Id>, revoke: bool)

  predicate OnRoleRow(request: RoleRequest) {
    request.CreateRole? || request.UpdateRole? || request.DeleteRole?
  }

  predicate RoleLive(db: Db, r: Id) {
    r in db.roles && !db.roles[r].isDeleted
  }

  /** `findRole` followed by `assertMutable`. */
  function MutableRole(db: Db, r: Id, scope: Option<TenantId>): Outcome {
    if !RoleLive(db, r) then NotFound
    else
      var role := db.roles[r];
      if scope.Some? && role.tenant.Some? && role.tenant != scope then NotFound
      else if role.isSystemRole || (scope.Some? && role.tenant.None?) then Forbidden
      else Done
  }

  predicate RoleCodeTaken(roles: map<Id, Role>, tenant: Option<TenantId>, code: string) {
    exists r :: r in roles && roles[r].roleCode == code && roles[r].tenant == tenant
  }

  /** `resolveTenant`: the tenant a new role belongs to, or the refusal. */
  function RoleTenant(db: Db, requested: Option<TenantId>, scope: Option<TenantId>): (Option<TenantId>, Outcome) {
    if scope.Some? && requested.Some? && requested != scope then (None, Forbidden)
    else
      var tenant := if scope.Some? then scope else requested;
      if tenant.Some? && tenant.value !in db.tenants then (None, NotFound) else (tenant, Done)
  }

  /** `upsertGrant` */
  ghost function Grant(db: Db, r: Id, p: Id): Db {
    db.(rolePermissions := Put(db.rolePermissions, r, p, db.nextId),
        nextId := IdAfterPut(db.rolePermissions, r, p, db.nextId))
  }

  /** Grants one permission after the other and stops at the first that is not live. */
  ghost function GrantAll(db: Db, r: Id, permissionIds: seq<Id>): (result: (Db, Outcome))
    ensures result.0 == db.(rolePermissions := result.0.rolePermissions, nextId := result.0.nextId)
    decreases permissionIds
  {
    if permissionIds == [] then (db, Done)
    else if !PermissionLive(db, permissionIds[0]) then (db, NotFound)
    else GrantAll(Grant(db, r, permissionIds[0]), r, permissionIds[1..])
  }

  function RevokeAmong(db: Db, r: Id, permissionIds: set<Id>): Db {
    db.(rolePermissions := Retire(db.rolePermissions, LiveBetween(db.rolePermissions, r, permissionIds)))
  }

  ghost function HandleRole(db: Db, request: RoleRequest, scope: Option<TenantId>): (result: (Db, Outcome))
    ensures result.0 == db.(roles := result.0.roles, rolePermissions := result.0.rolePermissions,
                            nextId := result.0.nextId)
    ensures !OnRoleRow(request) ==> result.0.roles == db.roles
  {
    match request
    case CreateRole(requested, code, status) =>
      var (tenant, outcome) := RoleTenant(db, requested, scope);
      if outcome != Done then Refuse(db, outcome)
      else if RoleCodeTaken(db.roles, tenant, code) then Refuse(db, Conflict)
      else if status == Some(SUSPENDED) then Refuse(db, BadRequest)
      else (db.(roles := db.roles[db.nextId := Role(tenant, code, false, GetOr(status, ACTIVE), false)],
                nextId := db.nextId + 1), Done)
    case UpdateRole(r, status) =>
      if MutableRole(db, r, scope) != Done then Refuse(db, MutableRole(db, r, scope))
      else if status == Some(SUSPENDED) then Refuse(db, BadRequest)
      else (db.(roles := db.roles[r := db.roles[r].(status := GetOr(status, ACTIVE))]), Done)
    case DeleteRole(r) =>
      if MutableRole(db, r, scope) != Done then Refuse(db, MutableRole(db, r, scope))
      else (db.(roles := db.roles[r := db.roles[r].(isDeleted := true)]), Done)
    case GrantPermission(r, p) =>
      if MutableRole(db, r, scope) != Done then Refuse(db, MutableRole(db, r, scope))
      else if !PermissionLive(db, p) then Refuse(db, NotFound)
      else (Grant(db, r, p), Done)
    case RevokePermission(r, p) =>
      if MutableRole(db, r, scope) != Done then Refuse(db, MutableRole(db, r, scope))
      else if !Related(db.rolePermissions, r, p) then Refuse(db, NotFound)
      else (RevokeAmong(db, r, {p}), Done)
    case BatchPermissions(r, permissionIds, revoke) =>
      if MutableRole(db, r, scope) != Done then Refuse(db, MutableRole(db, r, scope))
      else if revoke then (RevokeAmong(db, r, set p | p in permissionIds), Done)
      else GrantAll(db, r, permissionIds)
  }

  // ---------------------------------------------------------------- groups

  datatype GroupRequest =
    | CreateGroup(tenant: TenantId, groupCode: string, status: Option<Status>)
    | UpdateGroup(groupId: Id, tenant: TenantId, status: Option<Status>)
    | DeleteGroup(groupId: Id)
    | AddMember(groupId: Id, userId: Id)
    | RemoveMember(groupId: Id, userId: Id)
    | AssignGroupRole(groupId: Id, roleId: Id)
    | RevokeGroupRole(groupId: Id, roleId: Id)

  /** `findGroup` */
  predicate GroupFound(db: Db, g: Id, scope: Option<TenantId>) {
    g in db.groups && !db.groups[g].isDeleted && (scope.Some? ==> db.groups[g].tenant == scope.value)
  }

  /** `findAssignableRole`, for a group's tenant or a user's. */
  function AssignableRole(db: Db, r: Id, tenant: Option<TenantId>): Outcome {
    if !RoleLive(db, r) || db.roles[r].status != ACTIVE then NotFound
    else if db.roles[r].tenant.Some? && db.roles[r].tenant != tenant then Forbidden
    else Done
  }

  ghost function HandleGroup(db: Db, request: GroupRequest, scope: Option<TenantId>): (result: (Db, Outcome))
    ensures result.0 == db.(groups := result.0.groups, groupMembers := result.0.groupMembers,
                            groupRoles := result.0.groupRoles, nextId := result.0.nextId)
  {
    match request
    case CreateGroup(tenant, code, status) =>
      if scope.Some? && scope.value != tenant then Refuse(db, Forbidden)
      else if tenant !in db.tenants then Refuse(db, NotFound)
      else if exists g :: g in db.groups && db.groups[g].tenant == tenant && db.groups[g].groupCode == code
      then Refuse(db, Conflict)
      else (db.(groups := db.groups[db.nextId := Group(tenant, code, GetOr(status, ACTIVE), false)],
                nextId := db.nextId + 1), Done)
    case UpdateGroup(g, tenant, status) =>
      if !GroupFound(db, g, scope) then Refuse(db, NotFound)
      else if tenant != db.groups[g].tenant then Refuse(db, BadRequest)
      else (db.(groups := db.groups[g := db.groups[g].(status := GetOr(status, db.groups[g].status))]), Done)
    case DeleteGroup(g) =>
      if !GroupFound(db, g, scope) then Refuse(db, NotFound)
      else (db.(groups := db.groups[g := db.groups[g].(isDeleted := true)],
                groupMembers := Retire(db.groupMembers, LiveFrom(db.groupMembers, g)),
                groupRoles := Retire(db.groupRoles, LiveFrom(db.groupRoles, g))), Done)
    case AddMember(g, u) =>
      if !GroupFound(db, g, scope) || !UserFound(db, u, None) then Refuse(db, NotFound)
      else if db.users[u].tenant != Some(db.groups[g].tenant) then Refuse(db, Forbidden)
      else if Related(db.groupMembers, g, u) then Refuse(db, Conflict)
      else (db.(groupMembers := Put(db.groupMembers, g, u, db.nextId),
                nextId := IdAfterPut(db.groupMembers, g, u, db.nextId)), Done)
    case RemoveMember(g, u) =>
      if !GroupFound(db, g, scope) || !Related(db.groupMembers, g, u) then Refuse(db, NotFound)
      else (db.(groupMembers := Retire(db.groupMembers, LiveBetween(db.groupMembers, g, {u}))), Done)
    case AssignGroupRole(g, r) =>
      if !GroupFound(db, g, scope) then Refuse(db, NotFound)
      else if AssignableRole(db, r, Some(db.groups[g].tenant)) != Done
      then Refuse(db, AssignableRole(db, r, Some(db.groups[g].tenant)))
      else if Related(db.groupRoles, g, r) then Refuse(db, Conflict)
      else (db.(groupRoles := Put(db.groupRoles, g, r, db.nextId),
                nextId := IdAfterPut(db.groupRoles, g, r, db.nextId)), Done)
    case RevokeGroupRole(g, r) =>
      if !GroupFound(db, g, scope) || !Related(db.groupRoles, g, r) then Refuse(db, NotFound)
      else (db.(groupRoles := Retire(db.groupRoles, LiveBetween(db.groupRoles, g, {r}))), Done)
  }

  // ---------------------------------------------------------------- users

  /** `code` is the mapped role code of the request. */
  datatype UserRequest =
    | CreateUser(tenant: Option<TenantId>, code: string)
    | RegisterUser(tenant: Option<TenantId>)
    | UpdateUser(userId: Id, newCode: Option<string>)
    | DeleteUser(userId: Id, actor: Id)
    | AssignUserRole(userId: Id, roleId: Id)
    | RevokeUserRole(userId: Id, roleId: Id)

  /** `findUser` */
  predicate UserFound(db: Db, u: Id, scope: Option<TenantId>) {
    u in db.users && !db.users[u].isDeleted && (scope.Some? ==> db.users[u].tenant == scope)
  }

  predicate GlobalRole(roles: map<Id, Role>, r: Id, code: string) {
    r in roles && roles[r].roleCode == code && roles[r].tenant.None? && !roles[r].isDeleted
  }

  ghost function GlobalRoleOf(roles: map<Id, Role>, code: string): (found: Option<Id>)
    ensures found.Some? ==> GlobalRole(roles, found.value, code)
    ensures found.None? ==> forall r :: !GlobalRole(roles, r, code)
  {
    if exists r :: GlobalRole(roles, r, code) then
      var r :| GlobalRole(roles, r, code);
      Some(r)
    else None
  }

  /** INSERT … SELECT the live global role of that code … ON CONFLICT DO NOTHING. */
  ghost function AssignByCode(db: Db, u: Id, code: string): (after: Db)
    ensures after == db.(userRoles := after.userRoles, nextId := after.nextId)
  {
    match GlobalRoleOf(db.roles, code)
    case None => db
    case Some(r) =>
      if HasRow(db.userRoles, u, r) then db
      else db.(userRoles := db.userRoles[db.nextId := Link(u, r, false)], nextId := db.nextId + 1)
  }

  function AddUser(db: Db, tenant: Option<TenantId>): Db {
    db.(users := db.users[db.nextId := User(tenant, false)], nextId := db.nextId + 1)
  }

  ghost function HandleUser(db: Db, request: UserRequest, scope: Option<TenantId>): (result: (Db, Outcome))
    ensures result.0 == db.(users := result.0.users, userRoles := result.0.userRoles, nextId := result.0.nextId)
  {
    match request
    case CreateUser(requested, code) =>
      var (tenant, outcome) := RoleTenant(db, requested, scope);
      if outcome != Done then Refuse(db, outcome)
      else if tenant.None? then Refuse(db, BadRequest)
      else (AssignByCode(AddUser(db, tenant), db.nextId, code), Done)
    case RegisterUser(tenant) =>
      if tenant.Some? && tenant.value !in db.tenants then Refuse(db, NotFound)
      else (AddUser(db, tenant), Done)
    case UpdateUser(u, code) =>
      if !UserFound(db, u, scope) then Refuse(db, NotFound)
      else (if code.Some? then AssignByCode(db, u, code.value) else db, Done)
    case DeleteUser(u, actor) =>
      if u == actor then Refuse(db, BadRequest)
      else if !UserFound(db, u, scope) then Refuse(db, NotFound)
      else (db.(users := db.users[u := db.users[u].(isDeleted := true)]), Done)
    case AssignUserRole(u, r) =>
      if !UserFound(db, u, scope) then Refuse(db, NotFound)
      else if AssignableRole(db, r, db.users[u].tenant) != Done
      then Refuse(db, AssignableRole(db, r, db.users[u].tenant))
      else if Related(db.userRoles, u, r) then Refuse(db, Conflict)
      else (db.(userRoles := Put(db.userRoles, u, r, db.nextId),
                nextId := IdAfterPut(db.userRoles, u, r, db.nextId)), Done)
    case RevokeUserRole(u, r) =>
      if !UserFound(db, u, scope) || !Related(db.userRoles, u, r) then Refuse(db, NotFound)
      else (db.(userRoles := Retire(db.userRoles, LiveBetween(db.userRoles, u, {r}))), Done)
  }

  // ---------------------------------------------------------------- runs

  /** Every request carries the tenant the caller is confined to; module and permission requests ignore it. */
  datatype Request =
    | ToModules(onModules: ModuleRequest)
    | ToPermissions(onPermissions: PermissionRequest)
    | ToRoles(onRoles: RoleRequest, scope: Option<TenantId>)
    | ToGroups(onGroups: GroupRequest, scope: Option<TenantId>)
    | ToUsers(onUsers: UserRequest, scope: Option<TenantId>)
    | TenantsBecome(live: set<TenantId>)

  ghost function Handle(db: Db, request: Request): (Db, Outcome) {
    match request
    case ToModules(r) => HandleModule(db, r)
    case ToPermissions(r) => HandlePermission(db, r)
    case ToRoles(r, scope) => HandleRole(db, r, scope)
    case ToGroups(r, scope) => HandleGroup(db, r, scope)
    case ToUsers(r, scope) => HandleUser(db, r, scope)
    case TenantsBecome(live) => (db.(tenants := live), Done)
  }

  ghost function Run(db: Db, requests: seq<Request>): Db {
    if requests == [] then db
    else Handle(Run(db, requests[..|requests| - 1]), requests[|requests| - 1]).0
  }
}
