/**
 What each request on modules, permissions, roles, groups and users does, told in the tables
 before and after it: when it succeeds, which refusal answers what, the row it writes or the
 pair it joins or parts, and that it changes nothing else.
 */
module RbacMeaning {
  import opened Options
  import opened Links
  import opened RbacModel
  import opened RbacInvariant
  import opened RequestFrames
  import opened Grants

  // ---------------------------------------------------------------- words

  /** The checks are made in this order, and the first that fails gives the answer. */
  predicate Answers(outcome: Outcome, found: bool, allowed: bool, free: bool) {
    && (outcome == NotFound <==> !found)
    && (outcome == Forbidden <==> found && !allowed)
    && (outcome == Conflict <==> found && allowed && !free)
    && (outcome == Done <==> found && allowed && free)
    && outcome != BadRequest
  }

  /** l and r are joined now, every other pair as before. */
  ghost predicate Joined(before: Table, after: Table, l: Id, r: Id) {
    forall a, b :: Related(after, a, b) <==> Related(before, a, b) || (a == l && b == r)
  }

  /** l and r are parted now, every other pair as before. */
  ghost predicate Parted(before: Table, after: Table, l: Id, r: Id) {
    forall a, b :: Related(after, a, b) <==> Related(before, a, b) && !(a == l && b == r)
  }

  predicate LiveModule(db: Db, m: Id) {
    m in db.modules && !db.modules[m].isDeleted
  }

  /** A live role the caller may see: any one when not confined, else global or of its tenant. */
  predicate RoleSeen(db: Db, r: Id, scope: Option<TenantId>) {
    && r in db.roles && !db.roles[r].isDeleted
    && (scope.None? || db.roles[r].tenant.None? || db.roles[r].tenant == Some(scope.value))
  }

  /** Of those, the ones it may change. */
  predicate RoleOwned(db: Db, r: Id, scope: Option<TenantId>)
    requires RoleSeen(db, r, scope)
  {
    !db.roles[r].isSystemRole && (scope.None? || db.roles[r].tenant.Some?)
  }

  predicate GroupSeen(db: Db, g: Id, scope: Option<TenantId>) {
    g in db.groups && !db.groups[g].isDeleted && (scope.None? || db.groups[g].tenant == scope.value)
  }

  predicate UserSeen(db: Db, u: Id, scope: Option<TenantId>) {
    u in db.users && !db.users[u].isDeleted && (scope.None? || db.users[u].tenant == Some(scope.value))
  }

  predicate RoleUsable(db: Db, r: Id) {
    r in db.roles && !db.roles[r].isDeleted && db.roles[r].status == ACTIVE
  }

  /** Role and module requests take ACTIVE and INACTIVE, and ACTIVE when none is given. */
  function StatusAsked(status: Option<Status>): Status {
    match status
    case None => ACTIVE
    case Some(asked) => asked
  }

  predicate OnlyModules(before: Db, after: Db) {
    after == before.(modules := after.modules, nextId := after.nextId)
  }

  predicate OnlyPermissions(before: Db, after: Db) {
    after == before.(permissions := after.permissions, nextId := after.nextId)
  }

  predicate OnlyRoles(before: Db, after: Db) {
    after == before.(roles := after.roles, nextId := after.nextId)
  }

  predicate OnlyGroups(before: Db, after: Db) {
    after == before.(groups := after.groups, nextId := after.nextId)
  }

  // ---------------------------------------------------------------- modules

  predicate ModuleCodeUsed(db: Db, code: string) {
    exists m :: m in db.modules && db.modules[m].moduleCode == code
  }

  predicate CreateModuleEffect(before: Db, after: Db, outcome: Outcome, code: string, status: Option<Status>) {
    && (outcome == Conflict <==> ModuleCodeUsed(before, code))
    && (outcome == BadRequest <==> !ModuleCodeUsed(before, code) && status == Some(SUSPENDED))
    && (outcome == Done <==> !ModuleCodeUsed(before, code) && status != Some(SUSPENDED))
    && (outcome == Done ==>
          && OnlyModules(before, after)
          && after.modules == before.modules[before.nextId := AppModule(code, false, StatusAsked(status), false)])
    && (outcome != Done ==> after == before)
  }

  predicate UpdateModuleEffect(before: Db, after: Db, outcome: Outcome, m: Id, status: Option<Status>) {
    && (outcome == NotFound <==> !LiveModule(before, m))
    && (outcome == Forbidden <==> LiveModule(before, m) && before.modules[m].isSystemModule)
    && (outcome == BadRequest <==>
          LiveModule(before, m) && !before.modules[m].isSystemModule && status == Some(SUSPENDED))
    && (outcome == Done <==>
          LiveModule(before, m) && !before.modules[m].isSystemModule && status != Some(SUSPENDED))
    && (outcome == Done ==>
          && OnlyModules(before, after)
          && after.modules == before.modules[m := before.modules[m].(status := StatusAsked(status))])
    && (outcome != Done ==> after == before)
  }

  /** With the module go its permissions, and with them their grants; no row disappears. */
  predicate ModuleTreeDeleted(before: Db, after: Db, m: Id)
    requires m in before.modules
  {
    && after == before.(modules := after.modules, permissions := after.permissions,
                        rolePermissions := after.rolePermissions)
    && after.modules == before.modules[m := before.modules[m].(isDeleted := true)]
    && after.permissions.Keys == before.permissions.Keys
    && after.rolePermissions.Keys == before.rolePermissions.Keys
    && (forall p :: p in before.permissions ==>
          after.permissions[p] == if before.permissions[p].moduleId == m
                                  then before.permissions[p].(isDeleted := true) else before.permissions[p])
    && (forall i :: i in before.rolePermissions ==>
          var p := before.rolePermissions[i].right;
          after.rolePermissions[i] == if p in before.permissions && before.permissions[p].moduleId == m
                                         && !before.permissions[p].isDeleted
                                      then before.rolePermissions[i].(isDeleted := true)
                                      else before.rolePermissions[i])
  }

  predicate DeleteModuleEffect(before: Db, after: Db, outcome: Outcome, m: Id) {
    && Answers(outcome, LiveModule(before, m), m in before.modules && !before.modules[m].isSystemModule, true)
    && (outcome == Done ==> m in before.modules && ModuleTreeDeleted(before, after, m))
    && (outcome != Done ==> after == before)
  }

  lemma CreateModuleMeans(db: Db, code: string, status: Option<Status>)
    ensures var (after, outcome) := HandleModule(db, CreateModule(code, status));
            CreateModuleEffect(db, after, outcome, code, status)
  {
  }

  lemma UpdateModuleMeans(db: Db, m: Id, status: Option<Status>)
    ensures var (after, outcome) := HandleModule(db, UpdateModule(m, status));
            UpdateModuleEffect(db, after, outcome, m, status)
  {
  }

  lemma TreeIsDeleted(db: Db, m: Id)
    requires LiveModule(db, m) && !db.modules[m].isSystemModule
    ensures HandleModule(db, DeleteModule(m)).1 == Done
    ensures ModuleTreeDeleted(db, HandleModule(db, DeleteModule(m)).0, m)
  {
    var children := ChildrenOf(db, m);
    forall i | i in db.rolePermissions && !db.rolePermissions[i].isDeleted
      ensures i in LiveTo(db.rolePermissions, children) <==>
              var p := db.rolePermissions[i].right;
              p in db.permissions && db.permissions[p].moduleId == m && !db.permissions[p].isDeleted
    {
    }
  }

  lemma DeleteModuleMeans(db: Db, m: Id)
    ensures var (after, outcome) := HandleModule(db, DeleteModule(m));
            DeleteModuleEffect(db, after, outcome, m)
  {
    if LiveModule(db, m) && !db.modules[m].isSystemModule {
      TreeIsDeleted(db, m);
    }
  }

  // ---------------------------------------------------------------- permissions

  /** Another row, deleted or not, has the code, or the operation of the module. */
  predicate PermissionClash(db: Db, except: Option<Id>, m: Id, code: string, operation: Operation) {
    exists p :: p in db.permissions && Some(p) != except
      && (db.permissions[p].permissionCode == code
          || (db.permissions[p].moduleId == m && db.permissions[p].operation == operation))
  }

  predicate CreatePermissionEffect(before: Db, after: Db, outcome: Outcome, m: Id, code: string, operation: Operation) {
    && Answers(outcome, LiveModule(before, m), true, !PermissionClash(before, None, m, code, operation))
    && (outcome == Done ==>
          && OnlyPermissions(before, after)
          && after.permissions == before.permissions[before.nextId := Permission(m, code, operation, false)])
    && (outcome != Done ==> after == before)
  }

  /** In a sound table a live permission's module is live. */
  predicate LivePermission(db: Db, p: Id) {
    p in db.permissions && !db.permissions[p].isDeleted
  }

  predicate UpdatePermissionEffect(before: Db, after: Db, outcome: Outcome, p: Id, m: Id, code: string,
                                   operation: Operation)
  {
    && Answers(outcome, LivePermission(before, p) && LiveModule(before, m), true,
               !PermissionClash(before, Some(p), m, code, operation))
    && (outcome == Done ==>
          && p in after.permissions && OnlyPermissions(before, after)
          && after.permissions == before.permissions[p := after.permissions[p]]
          && after.permissions[p].moduleId == m && after.permissions[p].permissionCode == code
          && after.permissions[p].operation == operation && !after.permissions[p].isDeleted)
    && (outcome != Done ==> after == before)
  }

  predicate GrantedToSomebody(db: Db, p: Id) {
    exists i :: i in db.rolePermissions && db.rolePermissions[i].right == p && !db.rolePermissions[i].isDeleted
  }

  predicate DeletePermissionEffect(before: Db, after: Db, outcome: Outcome, p: Id) {
    && Answers(outcome, LivePermission(before, p), true, !GrantedToSomebody(before, p))
    && (outcome == Done ==>
          && p in before.permissions && OnlyPermissions(before, after)
          && after.permissions == before.permissions[p := before.permissions[p].(isDeleted := true)])
    && (outcome != Done ==> after == before)
  }

  lemma ClashIff(db: Db, except: Option<Id>, m: Id, code: string, operation: Operation)
    ensures var ids := if except.Some? then {except.value} else {};
            (PermissionClash(db, except, m, code, operation)
             <==> !CodeFree(db.permissions, code, ids) || !OperationFree(db.permissions, m, operation, ids))
  {
  }

  lemma CreatePermissionMeans(db: Db, m: Id, code: string, operation: Operation)
    ensures var (after, outcome) := HandlePermission(db, CreatePermission(m, code, operation));
            CreatePermissionEffect(db, after, outcome, m, code, operation)
  {
    ClashIff(db, None, m, code, operation);
  }

  lemma FoundIsLive(db: Db, p: Id)
    requires PermissionsHaveModules(db.modules, db.permissions)
    ensures PermissionFound(db, p) <==> LivePermission(db, p)
  {
  }

  lemma UpdatePermissionMeans(db: Db, p: Id, m: Id, code: string, operation: Operation)
    requires PermissionsHaveModules(db.modules, db.permissions)
    ensures var (after, outcome) := HandlePermission(db, UpdatePermission(p, m, code, operation));
            UpdatePermissionEffect(db, after, outcome, p, m, code, operation)
  {
    FoundIsLive(db, p);
    ClashIff(db, Some(p), m, code, operation);
  }

  lemma OneIsDropped(permissions: map<Id, Permission>, p: Id)
    requires p in permissions
    ensures DropPermissions(permissions, {p}) == permissions[p := permissions[p].(isDeleted := true)]
  {
  }

  lemma DeletePermissionMeans(db: Db, p: Id)
    requires PermissionsHaveModules(db.modules, db.permissions)
    ensures var (after, outcome) := HandlePermission(db, DeletePermission(p));
            DeletePermissionEffect(db, after, outcome, p)
  {
    FoundIsLive(db, p);
    if LivePermission(db, p) {
      OneIsDropped(db.permissions, p);
      assert Granted(db, p) <==> GrantedToSomebody(db, p);
    }
  }

  // ---------------------------------------------------------------- roles

  predicate RoleCodeUsed(db: Db, tenant: Option<TenantId>, code: string) {
    exists r :: r in db.roles && db.roles[r].tenant == tenant && db.roles[r].roleCode == code
  }

  /** `requested` is what the caller asks for and `scope` what it is confined to. */
  predicate CreateRoleEffect(before: Db, after: Db, outcome: Outcome, requested: Option<TenantId>, code: string,
                             status: Option<Status>, scope: Option<TenantId>)
  {
    var allowed := scope.None? || requested.None? || requested == scope;
    var tenant := if scope.Some? then scope else requested;
    var live := tenant.Some? ==> tenant.value in before.tenants;
    && (outcome == Forbidden <==> !allowed)
    && (outcome == NotFound <==> allowed && !live)
    && (outcome == Conflict <==> allowed && live && RoleCodeUsed(before, tenant, code))
    && (outcome == BadRequest <==>
          allowed && live && !RoleCodeUsed(before, tenant, code) && status == Some(SUSPENDED))
    && (outcome == Done ==>
          && OnlyRoles(before, after)
          && after.roles == before.roles[before.nextId := Role(tenant, code, false, StatusAsked(status), false)])
    && (outcome != Done ==> after == before)
  }

  predicate UpdateRoleEffect(before: Db, after: Db, outcome: Outcome, r: Id, status: Option<Status>,
                             scope: Option<TenantId>)
  {
    var seen := RoleSeen(before, r, scope);
    && (outcome == NotFound <==> !seen)
    && (outcome == Forbidden <==> seen && !RoleOwned(before, r, scope))
    && (outcome == BadRequest <==> seen && RoleOwned(before, r, scope) && status == Some(SUSPENDED))
    && (outcome == Done <==> seen && RoleOwned(before, r, scope) && status != Some(SUSPENDED))
    && (outcome == Done ==>
          && OnlyRoles(before, after)
          && after.roles == before.roles[r := before.roles[r].(status := StatusAsked(status))])
    && (outcome != Done ==> after == before)
  }

  predicate DeleteRoleEffect(before: Db, after: Db, outcome: Outcome, r: Id, scope: Option<TenantId>) {
    && Answers(outcome, RoleSeen(before, r, scope), RoleSeen(before, r, scope) && RoleOwned(before, r, scope), true)
    && (outcome == Done ==>
          && r in before.roles && OnlyRoles(before, after)
          && after.roles == before.roles[r := before.roles[r].(isDeleted := true)])
    && (outcome != Done ==> after == before)
  }

  /** Granting what is granted already succeeds too. */
  ghost predicate GrantPermissionEffect(before: Db, after: Db, outcome: Outcome, r: Id, p: Id,
                                        scope: Option<TenantId>)
  {
    var seen := RoleSeen(before, r, scope);
    && (outcome == Forbidden <==> seen && !RoleOwned(before, r, scope))
    && (outcome == NotFound <==> !seen || (RoleOwned(before, r, scope) && !LivePermission(before, p)))
    && (outcome == Done <==> seen && RoleOwned(before, r, scope) && LivePermission(before, p))
    && (outcome == Done ==> SameButGrants(before, after) && Joined(before.rolePermissions, after.rolePermissions, r, p))
    && (outcome != Done ==> after == before)
  }

  ghost predicate RevokePermissionEffect(before: Db, after: Db, outcome: Outcome, r: Id, p: Id,
                                         scope: Option<TenantId>)
  {
    var seen := RoleSeen(before, r, scope);
    && (outcome == Forbidden <==> seen && !RoleOwned(before, r, scope))
    && (outcome == NotFound <==> !seen || (RoleOwned(before, r, scope) && !Related(before.rolePermissions, r, p)))
    && (outcome == Done <==> seen && RoleOwned(before, r, scope) && Related(before.rolePermissions, r, p))
    && (outcome == Done ==> SameButGrants(before, after) && Parted(before.rolePermissions, after.rolePermissions, r, p))
    && (outcome != Done ==> after == before)
  }

  /** A revocation always succeeds on a role one owns; a grant when every id names a live permission. */
  ghost predicate BatchPermissionsEffect(before: Db, after: Db, outcome: Outcome, r: Id, ids: seq<Id>, revoke: bool,
                                         scope: Option<TenantId>)
  {
    var seen := RoleSeen(before, r, scope);
    var owned := seen && RoleOwned(before, r, scope);
    && (outcome == Forbidden <==> seen && !owned)
    && (outcome == Done <==> owned && (revoke || forall i :: 0 <= i < |ids| ==> LivePermission(before, ids[i])))
    && outcome in {Forbidden, NotFound, Done}
    && SameButGrants(before, after)
    && (forall a, b :: Related(after.rolePermissions, a, b) <==>
          if !owned || a != r then Related(before.rolePermissions, a, b)
          else if revoke then Related(before.rolePermissions, a, b) && b !in ids
          else Related(before.rolePermissions, a, b) || b in ids[..LiveLead(before, ids)])
  }

  lemma RoleMutableIff(db: Db, r: Id, scope: Option<TenantId>)
    ensures MutableRole(db, r, scope)
         == if !RoleSeen(db, r, scope) then NotFound else if RoleOwned(db, r, scope) then Done else Forbidden
  {
  }

  lemma CreateRoleMeans(db: Db, requested: Option<TenantId>, code: string, status: Option<Status>,
                        scope: Option<TenantId>)
    ensures var (after, outcome) := HandleRole(db, CreateRole(requested, code, status), scope);
            CreateRoleEffect(db, after, outcome, requested, code, status, scope)
  {
    var tenant := if scope.Some? then scope else requested;
    assert RoleCodeUsed(db, tenant, code) <==> RoleCodeTaken(db.roles, tenant, code);
  }

  lemma UpdateRoleMeans(db: Db, r: Id, status: Option<Status>, scope: Option<TenantId>)
    ensures var (after, outcome) := HandleRole(db, UpdateRole(r, status), scope);
            UpdateRoleEffect(db, after, outcome, r, status, scope)
  {
    RoleMutableIff(db, r, scope);
  }

  lemma DeleteRoleMeans(db: Db, r: Id, scope: Option<TenantId>)
    ensures var (after, outcome) := HandleRole(db, DeleteRole(r), scope);
            DeleteRoleEffect(db, after, outcome, r, scope)
  {
    RoleMutableIff(db, r, scope);
  }

  lemma GrantPermissionMeans(db: Db, r: Id, p: Id, scope: Option<TenantId>)
    requires Valid(db)
    ensures var (after, outcome) := HandleRole(db, GrantPermission(r, p), scope);
            GrantPermissionEffect(db, after, outcome, r, p, scope)
  {
    RoleMutableIff(db, r, scope);
    PutRelates(db.rolePermissions, r, p, db.nextId);
  }

  lemma RevokePermissionMeans(db: Db, r: Id, p: Id, scope: Option<TenantId>)
    requires Valid(db)
    ensures var (after, outcome) := HandleRole(db, RevokePermission(r, p), scope);
            RevokePermissionEffect(db, after, outcome, r, p, scope)
  {
    RoleMutableIff(db, r, scope);
    RetireBetweenRelates(db.rolePermissions, r, {p});
  }

  lemma BatchRevokeRetires(db: Db, r: Id, ids: seq<Id>, scope: Option<TenantId>)
    requires MutableRole(db, r, scope) == Done
    ensures HandleRole(db, BatchPermissions(r, ids, true), scope) == (RevokeAmong(db, r, Elements(ids)), Done)
  {
    assert (set p | p in ids) == Elements(ids);
  }

  lemma BatchRevokeRelates(db: Db, r: Id, ids: seq<Id>)
    ensures var after := RevokeAmong(db, r, Elements(ids));
            forall a, b :: Related(after.rolePermissions, a, b)
                      <==> Related(db.rolePermissions, a, b) && !(a == r && b in ids)
  {
    RetireBetweenRelates(db.rolePermissions, r, Elements(ids));
  }

  lemma BatchRevokeMeans(db: Db, r: Id, ids: seq<Id>, scope: Option<TenantId>)
    requires RoleSeen(db, r, scope) && RoleOwned(db, r, scope)
    ensures var (after, outcome) := HandleRole(db, BatchPermissions(r, ids, true), scope);
            BatchPermissionsEffect(db, after, outcome, r, ids, true, scope)
  {
    RoleMutableIff(db, r, scope);
    BatchRevokeRetires(db, r, ids, scope);
    BatchRevokeRelates(db, r, ids);
  }

  lemma BatchGrantMeans(db: Db, r: Id, ids: seq<Id>, scope: Option<TenantId>)
    requires Valid(db) && RoleSeen(db, r, scope) && RoleOwned(db, r, scope)
    ensures var (after, outcome) := HandleRole(db, BatchPermissions(r, ids, false), scope);
            BatchPermissionsEffect(db, after, outcome, r, ids, false, scope)
  {
    RoleMutableIff(db, r, scope);
    var after := GrantAll(db, r, ids).0;
    var granted := ids[..LiveLead(db, ids)];
    GrantAllGrows(db, r, ids);
    assert HandleRole(db, BatchPermissions(r, ids, false), scope) == GrantAll(db, r, ids);
    forall a, b
      ensures Related(after.rolePermissions, a, b) <==> Related(db.rolePermissions, a, b) || (a == r && b in granted)
    {
      assert b in granted <==> b in Elements(granted);
    }
    assert forall i :: 0 <= i < |ids| ==> (PermissionLive(db, ids[i]) <==> LivePermission(db, ids[i]));
  }

  lemma BatchPermissionsMeans(db: Db, r: Id, ids: seq<Id>, revoke: bool, scope: Option<TenantId>)
    requires Valid(db)
    ensures var (after, outcome) := HandleRole(db, BatchPermissions(r, ids, revoke), scope);
            BatchPermissionsEffect(db, after, outcome, r, ids, revoke, scope)
  {
    if !RoleSeen(db, r, scope) || !RoleOwned(db, r, scope) {
      RoleMutableIff(db, r, scope);
    } else if revoke {
      BatchRevokeMeans(db, r, ids, scope);
    } else {
      BatchGrantMeans(db, r, ids, scope);
    }
  }

  // ---------------------------------------------------------------- groups

  predicate GroupCodeUsed(db: Db, tenant: TenantId, code: string) {
    exists g :: g in db.groups && db.groups[g].tenant == tenant && db.groups[g].groupCode == code
  }

  predicate CreateGroupEffect(before: Db, after: Db, outcome: Outcome, tenant: TenantId, code: string,
                              status: Option<Status>, scope: Option<TenantId>)
  {
    var allowed := scope.None? || scope.value == tenant;
    && (outcome == Forbidden <==> !allowed)
    && (outcome == NotFound <==> allowed && tenant !in before.tenants)
    && (outcome == Conflict <==> allowed && tenant in before.tenants && GroupCodeUsed(before, tenant, code))
    && outcome != BadRequest
    && (outcome == Done ==>
          && OnlyGroups(before, after)
          && after.groups == before.groups[before.nextId := Group(tenant, code, StatusAsked(status), false)])
    && (outcome != Done ==> after == before)
  }

  /** A group keeps its tenant, and its status when none is asked for. */
  predicate UpdateGroupEffect(before: Db, after: Db, outcome: Outcome, g: Id, tenant: TenantId, status: Option<Status>,
                              scope: Option<TenantId>)
  {
    && (outcome == NotFound <==> !GroupSeen(before, g, scope))
    && (outcome == BadRequest <==> GroupSeen(before, g, scope) && before.groups[g].tenant != tenant)
    && (outcome == Done <==> GroupSeen(before, g, scope) && before.groups[g].tenant == tenant)
    && (outcome == Done ==>
          && g in after.groups && OnlyGroups(before, after) && after.groups == before.groups[g := after.groups[g]]
          && after.groups[g] == before.groups[g].(status := after.groups[g].status)
          && after.groups[g].status == match status case Some(asked) => asked case None => before.groups[g].status)
    && (outcome != Done ==> after == before)
  }

  /** With the group go its live memberships and roles, and no others. */
  ghost predicate DeleteGroupEffect(before: Db, after: Db, outcome: Outcome, g: Id, scope: Option<TenantId>) {
    && Answers(outcome, GroupSeen(before, g, scope), true, true)
    && (outcome == Done ==>
          && g in before.groups
          && after == before.(groups := after.groups, groupMembers := after.groupMembers,
                              groupRoles := after.groupRoles)
          && after.groups == before.groups[g := before.groups[g].(isDeleted := true)]
          && (forall h, u :: Related(after.groupMembers, h, u) <==> Related(before.groupMembers, h, u) && h != g)
          && (forall h, r :: Related(after.groupRoles, h, r) <==> Related(before.groupRoles, h, r) && h != g))
    && (outcome != Done ==> after == before)
  }

  predicate OnlyMembers(before: Db, after: Db) {
    after == before.(groupMembers := after.groupMembers, nextId := after.nextId)
  }

  predicate OnlyGroupRoles(before: Db, after: Db) {
    after == before.(groupRoles := after.groupRoles, nextId := after.nextId)
  }

  predicate OnlyUserRoles(before: Db, after: Db) {
    after == before.(userRoles := after.userRoles, nextId := after.nextId)
  }

  /** A live user joins a group of its own tenant unless it is a member already. */
  ghost predicate AddMemberEffect(before: Db, after: Db, outcome: Outcome, g: Id, u: Id, scope: Option<TenantId>) {
    var found := GroupSeen(before, g, scope) && UserSeen(before, u, None);
    && Answers(outcome, found, found && before.users[u].tenant == Some(before.groups[g].tenant),
               !Related(before.groupMembers, g, u))
    && (outcome == Done ==> OnlyMembers(before, after) && Joined(before.groupMembers, after.groupMembers, g, u))
    && (outcome != Done ==> after == before)
  }

  ghost predicate RemoveMemberEffect(before: Db, after: Db, outcome: Outcome, g: Id, u: Id, scope: Option<TenantId>) {
    && Answers(outcome, GroupSeen(before, g, scope) && Related(before.groupMembers, g, u), true, true)
    && (outcome == Done ==> OnlyMembers(before, after) && Parted(before.groupMembers, after.groupMembers, g, u))
    && (outcome != Done ==> after == before)
  }

  /** A live ACTIVE role, global or of the group's tenant, unless the group has it already. */
  ghost predicate AssignGroupRoleEffect(before: Db, after: Db, outcome: Outcome, g: Id, r: Id,
                                        scope: Option<TenantId>)
  {
    var found := GroupSeen(before, g, scope) && RoleUsable(before, r);
    && Answers(outcome, found,
               found && (before.roles[r].tenant.None? || before.roles[r].tenant == Some(before.groups[g].tenant)),
               !Related(before.groupRoles, g, r))
    && (outcome == Done ==> OnlyGroupRoles(before, after) && Joined(before.groupRoles, after.groupRoles, g, r))
    && (outcome != Done ==> after == before)
  }

  ghost predicate RevokeGroupRoleEffect(before: Db, after: Db, outcome: Outcome, g: Id, r: Id,
                                        scope: Option<TenantId>)
  {
    && Answers(outcome, GroupSeen(before, g, scope) && Related(before.groupRoles, g, r), true, true)
    && (outcome == Done ==> OnlyGroupRoles(before, after) && Parted(before.groupRoles, after.groupRoles, g, r))
    && (outcome != Done ==> after == before)
  }

  lemma CreateGroupMeans(db: Db, tenant: TenantId, code: string, status: Option<Status>, scope: Option<TenantId>)
    ensures var (after, outcome) := HandleGroup(db, CreateGroup(tenant, code, status), scope);
            CreateGroupEffect(db, after, outcome, tenant, code, status, scope)
  {
  }

  lemma UpdateGroupMeans(db: Db, g: Id, tenant: TenantId, status: Option<Status>, scope: Option<TenantId>)
    ensures var (after, outcome) := HandleGroup(db, UpdateGroup(g, tenant, status), scope);
            UpdateGroupEffect(db, after, outcome, g, tenant, status, scope)
  {
  }

  lemma RetireFromRelates(t: Table, l: Id)
    ensures forall a, b :: Related(Retire(t, LiveFrom(t, l)), a, b) <==> Related(t, a, b) && a != l
  {
    RetireRelates(t, LiveFrom(t, l));
  }

  lemma DeleteGroupMeans(db: Db, g: Id, scope: Option<TenantId>)
    ensures var (after, outcome) := HandleGroup(db, DeleteGroup(g), scope);
            DeleteGroupEffect(db, after, outcome, g, scope)
  {
    RetireFromRelates(db.groupMembers, g);
    RetireFromRelates(db.groupRoles, g);
  }

  lemma AddMemberMeans(db: Db, g: Id, u: Id, scope: Option<TenantId>)
    requires Valid(db)
    ensures var (after, outcome) := HandleGroup(db, AddMember(g, u), scope);
            AddMemberEffect(db, after, outcome, g, u, scope)
  {
    PutRelates(db.groupMembers, g, u, db.nextId);
  }

  lemma RemoveMemberMeans(db: Db, g: Id, u: Id, scope: Option<TenantId>)
    requires Valid(db)
    ensures var (after, outcome) := HandleGroup(db, RemoveMember(g, u), scope);
            RemoveMemberEffect(db, after, outcome, g, u, scope)
  {
    RetireBetweenRelates(db.groupMembers, g, {u});
  }

  lemma AssignGroupRoleMeans(db: Db, g: Id, r: Id, scope: Option<TenantId>)
    requires Valid(db)
    ensures var (after, outcome) := HandleGroup(db, AssignGroupRole(g, r), scope);
            AssignGroupRoleEffect(db, after, outcome, g, r, scope)
  {
    PutRelates(db.groupRoles, g, r, db.nextId);
  }

  lemma RevokeGroupRoleMeans(db: Db, g: Id, r: Id, scope: Option<TenantId>)
    requires Valid(db)
    ensures var (after, outcome) := HandleGroup(db, RevokeGroupRole(g, r), scope);
            RevokeGroupRoleEffect(db, after, outcome, g, r, scope)
  {
    RetireBetweenRelates(db.groupRoles, g, {r});
  }

  // ---------------------------------------------------------------- users

  ghost predicate AssignUserRoleEffect(before: Db, after: Db, outcome: Outcome, u: Id, r: Id, scope: Option<TenantId>) {
    var found := UserSeen(before, u, scope) && RoleUsable(before, r);
    && Answers(outcome, found,
               found && (before.roles[r].tenant.None? || before.roles[r].tenant == before.users[u].tenant),
               !Related(before.userRoles, u, r))
    && (outcome == Done ==> OnlyUserRoles(before, after) && Joined(before.userRoles, after.userRoles, u, r))
    && (outcome != Done ==> after == before)
  }

  ghost predicate RevokeUserRoleEffect(before: Db, after: Db, outcome: Outcome, u: Id, r: Id, scope: Option<TenantId>) {
    && Answers(outcome, UserSeen(before, u, scope) && Related(before.userRoles, u, r), true, true)
    && (outcome == Done ==> OnlyUserRoles(before, after) && Parted(before.userRoles, after.userRoles, u, r))
    && (outcome != Done ==> after == before)
  }

  predicate DeleteUserEffect(before: Db, after: Db, outcome: Outcome, u: Id, actor: Id, scope: Option<TenantId>) {
    && (outcome == BadRequest <==> u == actor)
    && (outcome == NotFound <==> u != actor && !UserSeen(before, u, scope))
    && (outcome == Done <==> u != actor && UserSeen(before, u, scope))
    && (outcome == Done ==>
          u in before.users && after == before.(users := before.users[u := before.users[u].(isDeleted := true)]))
    && (outcome != Done ==> after == before)
  }

  predicate IsGlobalRole(db: Db, r: Id, code: string) {
    r in db.roles && !db.roles[r].isDeleted && db.roles[r].tenant.None? && db.roles[r].roleCode == code
  }

  /** The live global role of that code, if any, is joined to u unless they have a row, live or not. */
  ghost predicate RoleByCode(before: Table, after: Table, db: Db, u: Id, code: string) {
    forall a, b :: Related(after, a, b) <==>
      Related(before, a, b) || (a == u && IsGlobalRole(db, b, code) && !HasRow(before, a, b))
  }

  ghost predicate UpdateUserEffect(before: Db, after: Db, outcome: Outcome, u: Id, code: Option<string>,
                                   scope: Option<TenantId>)
  {
    && (outcome == Done <==> UserSeen(before, u, scope)) && (outcome == NotFound <==> !UserSeen(before, u, scope))
    && OnlyUserRoles(before, after)
    && (if outcome == Done && code.Some? then RoleByCode(before.userRoles, after.userRoles, before, u, code.value)
        else after == before)
  }

  ghost predicate CreateUserEffect(before: Db, after: Db, outcome: Outcome, requested: Option<TenantId>, code: string,
                                   scope: Option<TenantId>)
  {
    var allowed := scope.None? || requested.None? || requested == scope;
    var tenant := if scope.Some? then scope else requested;
    && (outcome == Forbidden <==> !allowed)
    && (outcome == NotFound <==> allowed && tenant.Some? && tenant.value !in before.tenants)
    && (outcome == BadRequest <==> allowed && tenant.None?)
    && (outcome == Done <==> allowed && tenant.Some? && tenant.value in before.tenants)
    && (outcome == Done ==>
          && after == before.(users := after.users, userRoles := after.userRoles, nextId := after.nextId)
          && after.users == before.users[before.nextId := User(tenant, false)]
          && RoleByCode(before.userRoles, after.userRoles, before, before.nextId, code))
    && (outcome != Done ==> after == before)
  }

  predicate RegisterUserEffect(before: Db, after: Db, outcome: Outcome, tenant: Option<TenantId>) {
    && (outcome == Done <==> tenant.None? || tenant.value in before.tenants)
    && (outcome == Done ==>
          && after == before.(users := after.users, nextId := after.nextId)
          && after.users == before.users[before.nextId := User(tenant, false)])
    && (outcome != Done ==> outcome == NotFound && after == before)
  }

  lemma AssignUserRoleMeans(db: Db, u: Id, r: Id, scope: Option<TenantId>)
    requires Valid(db)
    ensures var (after, outcome) := HandleUser(db, AssignUserRole(u, r), scope);
            AssignUserRoleEffect(db, after, outcome, u, r, scope)
  {
    PutRelates(db.userRoles, u, r, db.nextId);
  }

  lemma RevokeUserRoleMeans(db: Db, u: Id, r: Id, scope: Option<TenantId>)
    requires Valid(db)
    ensures var (after, outcome) := HandleUser(db, RevokeUserRole(u, r), scope);
            RevokeUserRoleEffect(db, after, outcome, u, r, scope)
  {
    RetireBetweenRelates(db.userRoles, u, {r});
  }

  lemma DeleteUserMeans(db: Db, u: Id, actor: Id, scope: Option<TenantId>)
    ensures var (after, outcome) := HandleUser(db, DeleteUser(u, actor), scope);
            DeleteUserEffect(db, after, outcome, u, actor, scope)
  {
  }

  lemma OneGlobalRole(db: Db, code: string, r: Id)
    requires RolesDistinct(db.roles)
    ensures IsGlobalRole(db, r, code) <==> GlobalRoleOf(db.roles, code) == Some(r)
  {
    assert IsGlobalRole(db, r, code) <==> GlobalRole(db.roles, r, code);
  }

  lemma RoleByCodeMeans(db: Db, u: Id, code: string)
    requires RolesDistinct(db.roles) && UniquePairs(db.userRoles) && Below(db.userRoles.Keys, db.nextId)
    ensures RoleByCode(db.userRoles, AssignByCode(db, u, code).userRoles, db, u, code)
  {
    forall r: Id
      ensures IsGlobalRole(db, r, code) <==> GlobalRoleOf(db.roles, code) == Some(r)
    {
      OneGlobalRole(db, code, r);
    }
    var role := GlobalRoleOf(db.roles, code);
    if role.Some? && !HasRow(db.userRoles, u, role.value) {
      PutRelates(db.userRoles, u, role.value, db.nextId);
    }
  }

  lemma UpdateUserMeans(db: Db, u: Id, code: Option<string>, scope: Option<TenantId>)
    requires Valid(db)
    ensures var (after, outcome) := HandleUser(db, UpdateUser(u, code), scope);
            UpdateUserEffect(db, after, outcome, u, code, scope)
  {
    if code.Some? {
      RoleByCodeMeans(db, u, code.value);
    }
  }

  lemma CreateUserMeans(db: Db, requested: Option<TenantId>, code: string, scope: Option<TenantId>)
    requires Valid(db)
    ensures var (after, outcome) := HandleUser(db, CreateUser(requested, code), scope);
            CreateUserEffect(db, after, outcome, requested, code, scope)
  {
    var tenant := if scope.Some? then scope else requested;
    RoleByCodeMeans(AddUser(db, tenant), db.nextId, code);
  }

  lemma RegisterUserMeans(db: Db, tenant: Option<TenantId>, scope: Option<TenantId>)
    ensures var (after, outcome) := HandleUser(db, RegisterUser(tenant), scope);
            RegisterUserEffect(db, after, outcome, tenant)
  {
  }
}
