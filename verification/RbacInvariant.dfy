/** What every request keeps true of the access tables. */
module RbacInvariant {
  import opened Options
  import opened Links
  import opened RbacModel

  // ---------------------------------------------------------------- the invariant

  /** A permission's module exists, and is live while the permission is. */
  predicate PermissionsHaveModules(modules: map<Id, AppModule>, permissions: map<Id, Permission>) {
    forall p :: p in permissions ==>
      && permissions[p].moduleId in modules
      && (!permissions[p].isDeleted ==> !modules[permissions[p].moduleId].isDeleted)
  }

  /** Codes are unique over all rows, deleted ones included; so are operations of a module. */
  predicate PermissionsDistinct(permissions: map<Id, Permission>) {
    forall p, q :: p in permissions && q in permissions && p != q ==>
      && permissions[p].permissionCode != permissions[q].permissionCode
      && (permissions[p].moduleId == permissions[q].moduleId ==> permissions[p].operation != permissions[q].operation)
  }

  predicate ModulesDistinct(modules: map<Id, AppModule>) {
    forall m, n :: m in modules && n in modules && m != n ==> modules[m].moduleCode != modules[n].moduleCode
  }

  predicate RolesDistinct(roles: map<Id, Role>) {
    forall r, s :: r in roles && s in roles && r != s && roles[r].tenant == roles[s].tenant ==>
      roles[r].roleCode != roles[s].roleCode
  }

  predicate GroupsDistinct(groups: map<Id, Group>) {
    forall g, h :: g in groups && h in groups && g != h && groups[g].tenant == groups[h].tenant ==>
      groups[g].groupCode != groups[h].groupCode
  }

  /** A live grant names a live permission. */
  predicate GrantsSound(grants: Table, permissions: map<Id, Permission>) {
    forall i :: i in grants && !grants[i].isDeleted ==>
      grants[i].right in permissions && !permissions[grants[i].right].isDeleted
  }

  /** A live membership joins a live group and a user of its tenant. */
  predicate MembersSound(members: Table, groups: map<Id, Group>, users: map<Id, User>) {
    forall i :: i in members && !members[i].isDeleted ==>
      && members[i].left in groups && !groups[members[i].left].isDeleted
      && members[i].right in users && users[members[i].right].tenant == Some(groups[members[i].left].tenant)
  }

  predicate Reaches(role: Role, tenant: Option<TenantId>) {
    role.tenant.None? || role.tenant == tenant
  }

  /** A live group role joins a live group and a role that is global or of its tenant. */
  predicate GroupRolesSound(groupRoles: Table, groups: map<Id, Group>, roles: map<Id, Role>) {
    forall i :: i in groupRoles && !groupRoles[i].isDeleted ==>
      && groupRoles[i].left in groups && !groups[groupRoles[i].left].isDeleted
      && groupRoles[i].right in roles && Reaches(roles[groupRoles[i].right], Some(groups[groupRoles[i].left].tenant))
  }

  /** A live user role is global or of the user's tenant. */
  predicate UserRolesSound(userRoles: Table, users: map<Id, User>, roles: map<Id, Role>) {
    forall i :: i in userRoles && !userRoles[i].isDeleted ==>
      && userRoles[i].left in users && userRoles[i].right in roles
      && Reaches(roles[userRoles[i].right], users[userRoles[i].left].tenant)
  }

  predicate CatalogSound(db: Db) {
    && PermissionsHaveModules(db.modules, db.permissions) && PermissionsDistinct(db.permissions)
    && ModulesDistinct(db.modules) && RolesDistinct(db.roles) && GroupsDistinct(db.groups)
  }

  predicate PairsUnique(db: Db) {
    && UniquePairs(db.userRoles) && UniquePairs(db.groupMembers)
    && UniquePairs(db.groupRoles) && UniquePairs(db.rolePermissions)
  }

  predicate LinksSound(db: Db) {
    && GrantsSound(db.rolePermissions, db.permissions)
    && MembersSound(db.groupMembers, db.groups, db.users)
    && GroupRolesSound(db.groupRoles, db.groups, db.roles)
    && UserRolesSound(db.userRoles, db.users, db.roles)
  }

  predicate Below(ids: set<Id>, n: Id) {
    forall i :: i in ids ==> i < n
  }

  predicate Numbered(db: Db) {
    && Below(db.users.Keys, db.nextId) && Below(db.roles.Keys, db.nextId) && Below(db.groups.Keys, db.nextId)
    && Below(db.modules.Keys, db.nextId) && Below(db.permissions.Keys, db.nextId)
    && Below(db.userRoles.Keys, db.nextId) && Below(db.groupMembers.Keys, db.nextId)
    && Below(db.groupRoles.Keys, db.nextId) && Below(db.rolePermissions.Keys, db.nextId)
  }

  predicate Valid(db: Db) {
    CatalogSound(db) && PairsUnique(db) && LinksSound(db) && Numbered(db)
  }

  // ---------------------------------------------------------------- how a request may change a link table

  /** No row joins anything newly but the pair l, r. */
  predicate AddsAtMost(before: Table, after: Table, l: Id, r: Id) {
    forall i :: i in after && !after[i].isDeleted ==>
      (i in before && after[i] == before[i]) || Joins(after[i], l, r)
  }

  lemma PutAdds(t: Table, l: Id, r: Id, n: Id)
    requires UniquePairs(t) && forall i :: i in t ==> i < n
    ensures AddsAtMost(t, Put(t, l, r, n), l, r) && UniquePairs(Put(t, l, r, n))
    ensures n <= IdAfterPut(t, l, r, n)
    ensures forall i :: i in Put(t, l, r, n) ==> i in t || (i == n && n < IdAfterPut(t, l, r, n))
  {
    PutRelates(t, l, r, n);
  }

  lemma RetireNothing(t: Table)
    ensures Retire(t, {}) == t
  {
  }

  lemma RetireKeeps(db: Db, members: set<Id>, groupRoles: set<Id>, userRoles: set<Id>, grants: set<Id>)
    requires Valid(db)
    ensures Valid(db.(groupMembers := Retire(db.groupMembers, members), groupRoles := Retire(db.groupRoles, groupRoles),
                      userRoles := Retire(db.userRoles, userRoles),
                      rolePermissions := Retire(db.rolePermissions, grants)))
  {
  }

  // ---------------------------------------------------------------- modules and permissions

  lemma GrantsRetiredKeepsValid(db: Db, grants: set<Id>)
    requires Valid(db)
    ensures Valid(db.(rolePermissions := Retire(db.rolePermissions, grants)))
  {
    RetireNothing(db.groupMembers);
    RetireNothing(db.groupRoles);
    RetireNothing(db.userRoles);
    RetireKeeps(db, {}, {}, {}, grants);
  }

  /** Without live grants, permissions can be dropped. */
  lemma DropKeepsValid(db: Db, gone: set<Id>)
    requires Valid(db) && LiveTo(db.rolePermissions, gone) == {}
    ensures Valid(db.(permissions := DropPermissions(db.permissions, gone)))
  {
    forall i | i in db.rolePermissions && !db.rolePermissions[i].isDeleted
      ensures db.rolePermissions[i].right !in gone
    {
      assert db.rolePermissions[i].right in gone ==> i in LiveTo(db.rolePermissions, gone);
    }
  }

  lemma ChildlessDeleteKeepsValid(db: Db, m: Id)
    requires Valid(db) && m in db.modules && ChildrenOf(db, m) == {}
    ensures Valid(db.(modules := db.modules[m := db.modules[m].(isDeleted := true)]))
  {
    forall p | p in db.permissions && !db.permissions[p].isDeleted
      ensures db.permissions[p].moduleId != m
    {
      assert db.permissions[p].moduleId == m ==> p in ChildrenOf(db, m);
    }
  }

  /** The grants go first, then the children, then the module. */
  lemma ModuleDeleteKeepsValid(db: Db, m: Id)
    requires Valid(db)
    ensures Valid(HandleModule(db, DeleteModule(m)).0)
  {
    if MutableModule(db, m) == Done {
      var children := ChildrenOf(db, m);
      var first := db.(rolePermissions := Retire(db.rolePermissions, LiveTo(db.rolePermissions, children)));
      var second := first.(permissions := DropPermissions(db.permissions, children));
      GrantsRetiredKeepsValid(db, LiveTo(db.rolePermissions, children));
      DropKeepsValid(first, children);
      ChildlessDeleteKeepsValid(second, m);
      assert HandleModule(db, DeleteModule(m)).0
          == second.(modules := db.modules[m := db.modules[m].(isDeleted := true)]);
    }
  }

  lemma ModuleKeepsValid(db: Db, request: ModuleRequest)
    requires Valid(db)
    ensures Valid(HandleModule(db, request).0)
  {
    var (after, outcome) := HandleModule(db, request);
    if outcome == Done {
      match request
      case CreateModule(_, _) =>
        assert db.nextId !in db.modules;
      case UpdateModule(_, _) =>
      case DeleteModule(m) => ModuleDeleteKeepsValid(db, m);
    }
  }

  lemma PermissionRowKeepsValid(db: Db, p: Id, row: Permission, nextId: Id)
    requires Valid(db) && p < nextId && db.nextId <= nextId
    requires ModuleLive(db, row.moduleId) && !row.isDeleted
    requires CodeFree(db.permissions, row.permissionCode, {p})
    requires OperationFree(db.permissions, row.moduleId, row.operation, {p})
    ensures Valid(db.(permissions := db.permissions[p := row], nextId := nextId))
  {
  }

  lemma PermissionKeepsValid(db: Db, request: PermissionRequest)
    requires Valid(db)
    ensures Valid(HandlePermission(db, request).0)
  {
    if HandlePermission(db, request).1 == Done {
      match request
      case CreatePermission(m, code, operation) =>
        PermissionRowKeepsValid(db, db.nextId, Permission(m, code, operation, false), db.nextId + 1);
      case UpdatePermission(p, m, code, operation) =>
        PermissionRowKeepsValid(db, p, Permission(m, code, operation, false), db.nextId);
      case DeletePermission(p) =>
        assert LiveTo(db.rolePermissions, {p}) == {};
        DropKeepsValid(db, {p});
    }
  }

  // ---------------------------------------------------------------- roles

  lemma GrantKeepsValid(db: Db, r: Id, p: Id)
    requires Valid(db) && PermissionLive(db, p)
    ensures Valid(Grant(db, r, p))
  {
    PutAdds(db.rolePermissions, r, p, db.nextId);
  }

  lemma {:induction false} GrantAllKeepsValid(db: Db, r: Id, permissionIds: seq<Id>)
    requires Valid(db)
    ensures Valid(GrantAll(db, r, permissionIds).0)
    decreases permissionIds
  {
    if permissionIds != [] && PermissionLive(db, permissionIds[0]) {
      GrantKeepsValid(db, r, permissionIds[0]);
      GrantAllKeepsValid(Grant(db, r, permissionIds[0]), r, permissionIds[1..]);
    }
  }

  lemma RoleRowKeepsValid(db: Db, r: Id, row: Role)
    requires Valid(db) && r in db.roles
    requires row.tenant == db.roles[r].tenant && row.roleCode == db.roles[r].roleCode
    ensures Valid(db.(roles := db.roles[r := row]))
  {
  }

  lemma NewRoleKeepsValid(db: Db, row: Role)
    requires Valid(db) && !RoleCodeTaken(db.roles, row.tenant, row.roleCode)
    ensures Valid(db.(roles := db.roles[db.nextId := row], nextId := db.nextId + 1))
  {
  }

  lemma RoleRowRequestKeepsValid(db: Db, request: RoleRequest, scope: Option<TenantId>)
    requires Valid(db) && OnRoleRow(request)
    ensures Valid(HandleRole(db, request, scope).0)
  {
    if HandleRole(db, request, scope).1 == Done {
      match request
      case CreateRole(requested, code, status) =>
        NewRoleKeepsValid(db, Role(RoleTenant(db, requested, scope).0, code, false, GetOr(status, ACTIVE), false));
      case UpdateRole(r, status) => RoleRowKeepsValid(db, r, db.roles[r].(status := GetOr(status, ACTIVE)));
      case DeleteRole(r) => RoleRowKeepsValid(db, r, db.roles[r].(isDeleted := true));
    }
  }

  lemma GrantRequestKeepsValid(db: Db, request: RoleRequest, scope: Option<TenantId>)
    requires Valid(db) && (request.GrantPermission? || request.RevokePermission?)
    ensures Valid(HandleRole(db, request, scope).0)
  {
    if HandleRole(db, request, scope).1 == Done {
      match request
      case GrantPermission(r, p) => GrantKeepsValid(db, r, p);
      case RevokePermission(r, p) => GrantsRetiredKeepsValid(db, LiveBetween(db.rolePermissions, r, {p}));
    }
  }

  lemma BatchRequestKeepsValid(db: Db, r: Id, ids: seq<Id>, revoke: bool, scope: Option<TenantId>)
    requires Valid(db)
    ensures Valid(HandleRole(db, BatchPermissions(r, ids, revoke), scope).0)
  {
    var after := HandleRole(db, BatchPermissions(r, ids, revoke), scope).0;
    if MutableRole(db, r, scope) != Done {
      assert after == db;
    } else if revoke {
      GrantsRetiredKeepsValid(db, LiveBetween(db.rolePermissions, r, set p | p in ids));
    } else {
      GrantAllKeepsValid(db, r, ids);
      assert after == GrantAll(db, r, ids).0;
    }
  }

  lemma RoleKeepsValid(db: Db, request: RoleRequest, scope: Option<TenantId>)
    requires Valid(db)
    ensures Valid(HandleRole(db, request, scope).0)
  {
    match request
    case CreateRole(_, _, _) => RoleRowRequestKeepsValid(db, request, scope);
    case UpdateRole(_, _) => RoleRowRequestKeepsValid(db, request, scope);
    case DeleteRole(_) => RoleRowRequestKeepsValid(db, request, scope);
    case GrantPermission(_, _) => GrantRequestKeepsValid(db, request, scope);
    case RevokePermission(_, _) => GrantRequestKeepsValid(db, request, scope);
    case BatchPermissions(r, ids, revoke) => BatchRequestKeepsValid(db, r, ids, revoke, scope);
  }

  // ---------------------------------------------------------------- groups

  lemma NewGroupKeepsValid(db: Db, row: Group)
    requires Valid(db)
    requires forall g :: g in db.groups && db.groups[g].tenant == row.tenant ==> db.groups[g].groupCode != row.groupCode
    ensures Valid(db.(groups := db.groups[db.nextId := row], nextId := db.nextId + 1))
  {
  }

  lemma GroupStatusKeepsValid(db: Db, g: Id, status: Status)
    requires Valid(db) && g in db.groups
    ensures Valid(db.(groups := db.groups[g := db.groups[g].(status := status)]))
  {
  }

  lemma EmptyGroupDeleteKeepsValid(db: Db, g: Id)
    requires Valid(db) && g in db.groups && LiveFrom(db.groupMembers, g) == {} && LiveFrom(db.groupRoles, g) == {}
    ensures Valid(db.(groups := db.groups[g := db.groups[g].(isDeleted := true)]))
  {
    forall i | i in db.groupMembers && !db.groupMembers[i].isDeleted
      ensures db.groupMembers[i].left != g
    {
      assert db.groupMembers[i].left == g ==> i in LiveFrom(db.groupMembers, g);
    }
    forall i | i in db.groupRoles && !db.groupRoles[i].isDeleted
      ensures db.groupRoles[i].left != g
    {
      assert db.groupRoles[i].left == g ==> i in LiveFrom(db.groupRoles, g);
    }
  }

  lemma GroupDeleteKeepsValid(db: Db, g: Id)
    requires Valid(db) && g in db.groups
    ensures Valid(HandleGroup(db, DeleteGroup(g), None).0)
  {
    if GroupFound(db, g, None) {
      var members, roles := LiveFrom(db.groupMembers, g), LiveFrom(db.groupRoles, g);
      RetireNothing(db.userRoles);
      RetireNothing(db.rolePermissions);
      RetireKeeps(db, members, roles, {}, {});
      var first := db.(groupMembers := Retire(db.groupMembers, members), groupRoles := Retire(db.groupRoles, roles));
      EmptyGroupDeleteKeepsValid(first, g);
    }
  }

  lemma MemberKeepsValid(db: Db, g: Id, u: Id)
    requires Valid(db) && GroupFound(db, g, None) && u in db.users && db.users[u].tenant == Some(db.groups[g].tenant)
    ensures Valid(db.(groupMembers := Put(db.groupMembers, g, u, db.nextId),
                      nextId := IdAfterPut(db.groupMembers, g, u, db.nextId)))
  {
    PutAdds(db.groupMembers, g, u, db.nextId);
  }

  lemma GroupRoleKeepsValid(db: Db, g: Id, r: Id)
    requires Valid(db) && GroupFound(db, g, None) && r in db.roles && Reaches(db.roles[r], Some(db.groups[g].tenant))
    ensures Valid(db.(groupRoles := Put(db.groupRoles, g, r, db.nextId),
                      nextId := IdAfterPut(db.groupRoles, g, r, db.nextId)))
  {
    PutAdds(db.groupRoles, g, r, db.nextId);
  }

  lemma MembersRetiredKeepsValid(db: Db, gone: set<Id>)
    requires Valid(db)
    ensures Valid(db.(groupMembers := Retire(db.groupMembers, gone)))
  {
    RetireNothing(db.groupRoles);
    RetireNothing(db.userRoles);
    RetireNothing(db.rolePermissions);
    RetireKeeps(db, gone, {}, {}, {});
  }

  lemma GroupRolesRetiredKeepsValid(db: Db, gone: set<Id>)
    requires Valid(db)
    ensures Valid(db.(groupRoles := Retire(db.groupRoles, gone)))
  {
    RetireNothing(db.groupMembers);
    RetireNothing(db.userRoles);
    RetireNothing(db.rolePermissions);
    RetireKeeps(db, {}, gone, {}, {});
  }

  lemma GroupRowRequestKeepsValid(db: Db, request: GroupRequest, scope: Option<TenantId>)
    requires Valid(db) && (request.CreateGroup? || request.UpdateGroup? || request.DeleteGroup?)
    ensures Valid(HandleGroup(db, request, scope).0)
  {
    if HandleGroup(db, request, scope).1 == Done {
      match request
      case CreateGroup(tenant, code, status) =>
        NewGroupKeepsValid(db, Group(tenant, code, GetOr(status, ACTIVE), false));
      case UpdateGroup(g, _, status) => GroupStatusKeepsValid(db, g, GetOr(status, db.groups[g].status));
      case DeleteGroup(g) => GroupDeleteKeepsValid(db, g);
    }
  }

  lemma GroupLinkRequestKeepsValid(db: Db, request: GroupRequest, scope: Option<TenantId>)
    requires Valid(db) && !request.CreateGroup? && !request.UpdateGroup? && !request.DeleteGroup?
    ensures Valid(HandleGroup(db, request, scope).0)
  {
    if HandleGroup(db, request, scope).1 == Done {
      match request
      case AddMember(g, u) => MemberKeepsValid(db, g, u);
      case RemoveMember(g, u) => MembersRetiredKeepsValid(db, LiveBetween(db.groupMembers, g, {u}));
      case AssignGroupRole(g, r) => GroupRoleKeepsValid(db, g, r);
      case RevokeGroupRole(g, r) => GroupRolesRetiredKeepsValid(db, LiveBetween(db.groupRoles, g, {r}));
    }
  }

  lemma GroupKeepsValid(db: Db, request: GroupRequest, scope: Option<TenantId>)
    requires Valid(db)
    ensures Valid(HandleGroup(db, request, scope).0)
  {
    if request.CreateGroup? || request.UpdateGroup? || request.DeleteGroup? {
      GroupRowRequestKeepsValid(db, request, scope);
    } else {
      GroupLinkRequestKeepsValid(db, request, scope);
    }
  }

  // ---------------------------------------------------------------- users

  lemma UserRoleKeepsValid(db: Db, u: Id, r: Id)
    requires Valid(db) && u in db.users && r in db.roles && Reaches(db.roles[r], db.users[u].tenant)
    ensures Valid(db.(userRoles := Put(db.userRoles, u, r, db.nextId),
                      nextId := IdAfterPut(db.userRoles, u, r, db.nextId)))
  {
    PutAdds(db.userRoles, u, r, db.nextId);
  }

  lemma AssignByCodeKeepsValid(db: Db, u: Id, code: string)
    requires Valid(db) && u in db.users
    ensures Valid(AssignByCode(db, u, code))
  {
    var role := GlobalRoleOf(db.roles, code);
    if role.Some? && !HasRow(db.userRoles, u, role.value) {
      UserRoleKeepsValid(db, u, role.value);
      assert AssignByCode(db, u, code)
          == db.(userRoles := Put(db.userRoles, u, role.value, db.nextId),
                 nextId := IdAfterPut(db.userRoles, u, role.value, db.nextId));
    } else {
      assert AssignByCode(db, u, code) == db;
    }
  }

  lemma AddUserKeepsValid(db: Db, tenant: Option<TenantId>)
    requires Valid(db)
    ensures Valid(AddUser(db, tenant))
  {
  }

  lemma UserDeleteKeepsValid(db: Db, u: Id)
    requires Valid(db) && u in db.users
    ensures Valid(db.(users := db.users[u := db.users[u].(isDeleted := true)]))
  {
  }

  lemma UserRolesRetiredKeepsValid(db: Db, gone: set<Id>)
    requires Valid(db)
    ensures Valid(db.(userRoles := Retire(db.userRoles, gone)))
  {
    RetireNothing(db.groupMembers);
    RetireNothing(db.groupRoles);
    RetireNothing(db.rolePermissions);
    RetireKeeps(db, {}, {}, gone, {});
  }

  lemma UserKeepsValid(db: Db, request: UserRequest, scope: Option<TenantId>)
    requires Valid(db)
    ensures Valid(HandleUser(db, request, scope).0)
  {
    if HandleUser(db, request, scope).1 == Done {
      match request
      case CreateUser(requested, code) =>
        var tenant := RoleTenant(db, requested, scope).0;
        AddUserKeepsValid(db, tenant);
        AssignByCodeKeepsValid(AddUser(db, tenant), db.nextId, code);
      case RegisterUser(tenant) => AddUserKeepsValid(db, tenant);
      case UpdateUser(u, code) => if code.Some? { AssignByCodeKeepsValid(db, u, code.value); }
      case DeleteUser(u, _) => UserDeleteKeepsValid(db, u);
      case AssignUserRole(u, r) => UserRoleKeepsValid(db, u, r);
      case RevokeUserRole(u, r) => UserRolesRetiredKeepsValid(db, LiveBetween(db.userRoles, u, {r}));
    }
  }

  // ---------------------------------------------------------------- runs

  lemma HandleKeepsValid(db: Db, request: Request)
    requires Valid(db)
    ensures Valid(Handle(db, request).0)
  {
    match request
    case ToModules(r) => ModuleKeepsValid(db, r);
    case ToPermissions(r) => PermissionKeepsValid(db, r);
    case ToRoles(r, scope) => RoleKeepsValid(db, r, scope);
    case ToGroups(r, scope) => GroupKeepsValid(db, r, scope);
    case ToUsers(r, scope) => UserKeepsValid(db, r, scope);
    case TenantsBecome(live) =>
  }

  /** Every run of requests keeps the invariant. */
  lemma {:induction false} RunKeepsValid(db: Db, requests: seq<Request>)
    requires Valid(db)
    ensures Valid(Run(db, requests))
  {
    if requests != [] {
      RunKeepsValid(db, requests[..|requests| - 1]);
      HandleKeepsValid(Run(db, requests[..|requests| - 1]), requests[|requests| - 1]);
    }
  }
}
