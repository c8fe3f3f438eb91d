/**
 The module, permission, role, group and user services as code over mutable tables.  Every
 request has a method that tries it, statement by statement, and computes the outcome and the new
 state of the request of that name in `RbacModel`; the method offered to callers adds that the
 invariant is kept and what effect the request has.
 */
module AccessServices {
  import opened Options
  import opened Links
  import opened RbacModel
  import opened RbacInvariant
  import opened RbacMeaning

  // ---------------------------------------------------------------- rows of a link table

  method FindOne(t: Table, l: Id, r: Id) returns (found: Option<Id>)
    requires UniquePairs(t)
    ensures found == Find(t, l, r)
  {
    if i :| i in t && Joins(t[i], l, r) {
      return Some(i);
    }
    return None;
  }

  method FindLive(t: Table, l: Id, r: Id) returns (found: Option<Id>)
    ensures found.Some? <==> Related(t, l, r)
    ensures found.Some? ==> found.value in t && Joins(t[found.value], l, r) && !t[found.value].isDeleted
  {
    if i :| i in t && Joins(t[i], l, r) && !t[i].isDeleted {
      return Some(i);
    }
    return None;
  }

  /** Revives the row found for a pair, or inserts one. */
  method Save(t: Table, existing: Option<Id>, l: Id, r: Id, nextId: Id) returns (t': Table, nextId': Id)
    requires existing == Find(t, l, r)
    ensures t' == Put(t, l, r, nextId) && nextId' == IdAfterPut(t, l, r, nextId)
  {
    if existing.Some? {
      t', nextId' := t[existing.value := t[existing.value].(isDeleted := false)], nextId;
    } else {
      t', nextId' := t[nextId := Link(l, r, false)], nextId + 1;
    }
  }

  /** Soft-deletes the found row of a pair. */
  method SoftDeleteOne(t: Table, i: Id) returns (t': Table)
    requires UniquePairs(t) && i in t && !t[i].isDeleted
    ensures t' == Retire(t, LiveBetween(t, t[i].left, {t[i].right}))
  {
    t' := t[i := t[i].(isDeleted := true)];
  }

  /** Soft-deletes the loaded rows one after the other. */
  method SoftDelete(t: Table, rows: set<Id>) returns (t': Table)
    requires forall i :: i in rows ==> i in t
    ensures t' == Retire(t, rows)
  {
    t' := t;
    var todo := rows;
    while todo != {}
      invariant todo <= rows && t' == Retire(t, rows - todo)
    {
      var i :| i in todo;
      t' := t'[i := t'[i].(isDeleted := true)];
      todo := todo - {i};
    }
  }

  // ---------------------------------------------------------------- the services

  class AccessStore {
    var tenants: set<TenantId>
    var users: map<Id, User>
    var roles: map<Id, Role>
    var groups: map<Id, Group>
    var modules: map<Id, AppModule>
    var permissions: map<Id, Permission>
    var userRoles: Table
    var groupMembers: Table
    var groupRoles: Table
    var rolePermissions: Table
    var nextId: Id

    ghost function State(): Db
      reads this
    {
      Db(tenants, users, roles, groups, modules, permissions,
         userRoles, groupMembers, groupRoles, rolePermissions, nextId)
    }

    // -------------------------------------------------------------- ModulesService

    method TryCreateModule(moduleCode: string, status: Option<Status>) returns (outcome: Outcome)
      modifies this`modules, this`nextId
      ensures (State(), outcome) == HandleModule(old(State()), ModuleRequest.CreateModule(moduleCode, status))
    {
      if exists m :: m in modules && modules[m].moduleCode == moduleCode {
        return Conflict;
      }
      if status == Some(SUSPENDED) {
        return BadRequest;
      }
      modules, nextId := modules[nextId := AppModule(moduleCode, false, GetOr(status, ACTIVE), false)], nextId + 1;
      return Done;
    }

    method CreateModule(moduleCode: string, status: Option<Status>) returns (outcome: Outcome)
      requires Valid(State())
      modifies this`modules, this`nextId
      ensures (State(), outcome) == HandleModule(old(State()), ModuleRequest.CreateModule(moduleCode, status))
      ensures Valid(State())
      ensures CreateModuleEffect(old(State()), State(), outcome, moduleCode, status)
    {
      ModuleKeepsValid(State(), ModuleRequest.CreateModule(moduleCode, status));
      CreateModuleMeans(State(), moduleCode, status);
      outcome := TryCreateModule(moduleCode, status);
    }

    method TryUpdateModule(moduleId: Id, status: Option<Status>) returns (outcome: Outcome)
      modifies this`modules
      ensures (State(), outcome) == HandleModule(old(State()), ModuleRequest.UpdateModule(moduleId, status))
    {
      if moduleId !in modules || modules[moduleId].isDeleted {
        return NotFound;
      }
      if modules[moduleId].isSystemModule {
        return Forbidden;
      }
      if status == Some(SUSPENDED) {
        return BadRequest;
      }
      modules := modules[moduleId := modules[moduleId].(status := GetOr(status, ACTIVE))];
      return Done;
    }

    method UpdateModule(moduleId: Id, status: Option<Status>) returns (outcome: Outcome)
      requires Valid(State())
      modifies this`modules
      ensures (State(), outcome) == HandleModule(old(State()), ModuleRequest.UpdateModule(moduleId, status))
      ensures Valid(State())
      ensures UpdateModuleEffect(old(State()), State(), outcome, moduleId, status)
    {
      ModuleKeepsValid(State(), ModuleRequest.UpdateModule(moduleId, status));
      UpdateModuleMeans(State(), moduleId, status);
      outcome := TryUpdateModule(moduleId, status);
    }

    method TryDeleteModule(moduleId: Id) returns (outcome: Outcome)
      modifies this`modules, this`permissions, this`rolePermissions
      ensures (State(), outcome) == HandleModule(old(State()), ModuleRequest.DeleteModule(moduleId))
    {
      if moduleId !in modules || modules[moduleId].isDeleted {
        return NotFound;
      }
      if modules[moduleId].isSystemModule {
        return Forbidden;
      }
      DeleteModuleTree(moduleId);
      return Done;
    }

    method DeleteModule(moduleId: Id) returns (outcome: Outcome)
      requires Valid(State())
      modifies this`modules, this`permissions, this`rolePermissions
      ensures (State(), outcome) == HandleModule(old(State()), ModuleRequest.DeleteModule(moduleId))
      ensures Valid(State())
      ensures DeleteModuleEffect(old(State()), State(), outcome, moduleId)
    {
      ModuleKeepsValid(State(), ModuleRequest.DeleteModule(moduleId));
      DeleteModuleMeans(State(), moduleId);
      outcome := TryDeleteModule(moduleId);
    }

    /** First the grants of the live children, then the children, then the module. */
    method DeleteModuleTree(moduleId: Id)
      requires moduleId in modules
      modifies this`modules, this`permissions, this`rolePermissions
      ensures modules == old(modules)[moduleId := old(modules)[moduleId].(isDeleted := true)]
      ensures var children := ChildrenOf(old(State()), moduleId);
              && permissions == DropPermissions(old(permissions), children)
              && rolePermissions == Retire(old(rolePermissions), LiveTo(old(rolePermissions), children))
    {
      var children := set p | p in permissions && permissions[p].moduleId == moduleId && !permissions[p].isDeleted;
      assert children == ChildrenOf(State(), moduleId);
      if children != {} {
        var assignments := set i | i in rolePermissions && rolePermissions[i].right in children
                                   && !rolePermissions[i].isDeleted;
        rolePermissions := SoftDelete(rolePermissions, assignments);
        permissions := DeleteChildren(permissions, children);
      } else {
        RetireNothing(rolePermissions);
      }
      modules := modules[moduleId := modules[moduleId].(isDeleted := true)];
    }

    // -------------------------------------------------------------- PermissionsService

    method EnsureCodeAvailable(permissionCode: string, except: set<Id>) returns (free: bool)
      ensures free <==> CodeFree(permissions, permissionCode, except)
    {
      free := !exists p :: p in permissions && p !in except && permissions[p].permissionCode == permissionCode;
    }

    method EnsureOperationAvailable(moduleId: Id, operation: Operation, except: set<Id>) returns (free: bool)
      ensures free <==> OperationFree(permissions, moduleId, operation, except)
    {
      free := !exists p :: p in permissions && p !in except && permissions[p].moduleId == moduleId
                           && permissions[p].operation == operation;
    }

    method FindPermission(permissionId: Id) returns (found: bool)
      requires PermissionsHaveModules(modules, permissions)
      ensures found <==> PermissionFound(State(), permissionId)
    {
      found := permissionId in permissions && !permissions[permissionId].isDeleted
               && !modules[permissions[permissionId].moduleId].isDeleted;
    }

    method CountGrants(permissionId: Id) returns (roleCount: nat)
      ensures roleCount > 0 <==> Granted(State(), permissionId)
    {
      var rows := set i | i in rolePermissions && rolePermissions[i].right == permissionId
                          && !rolePermissions[i].isDeleted;
      roleCount := |rows|;
      if roleCount > 0 {
        assert exists i :: i in rows;
      } else {
        assert rows == {};
        if Granted(State(), permissionId) {
          var i :| i in rolePermissions && rolePermissions[i].right == permissionId && !rolePermissions[i].isDeleted;
          assert i in rows;
        }
      }
    }

    method TryCreatePermission(moduleId: Id, permissionCode: string, operation: Operation) returns (outcome: Outcome)
      requires PermissionsHaveModules(modules, permissions)
      modifies this`permissions, this`nextId
      ensures (State(), outcome)
           == HandlePermission(old(State()), PermissionRequest.CreatePermission(moduleId, permissionCode, operation))
    {
      if moduleId !in modules || modules[moduleId].isDeleted {
        return NotFound;
      }
      var codeFree := EnsureCodeAvailable(permissionCode, {});
      if !codeFree {
        return Conflict;
      }
      var operationFree := EnsureOperationAvailable(moduleId, operation, {});
      if !operationFree {
        return Conflict;
      }
      permissions := permissions[nextId := Permission(moduleId, permissionCode, operation, false)];
      nextId := nextId + 1;
      return Done;
    }

    method CreatePermission(moduleId: Id, permissionCode: string, operation: Operation) returns (outcome: Outcome)
      requires Valid(State())
      modifies this`permissions, this`nextId
      ensures (State(), outcome)
           == HandlePermission(old(State()), PermissionRequest.CreatePermission(moduleId, permissionCode, operation))
      ensures Valid(State())
      ensures CreatePermissionEffect(old(State()), State(), outcome, moduleId, permissionCode, operation)
    {
      PermissionKeepsValid(State(), PermissionRequest.CreatePermission(moduleId, permissionCode, operation));
      CreatePermissionMeans(State(), moduleId, permissionCode, operation);
      outcome := TryCreatePermission(moduleId, permissionCode, operation);
    }

    method TryUpdatePermission(permissionId: Id, moduleId: Id, permissionCode: string, operation: Operation)
      returns (outcome: Outcome)
      requires PermissionsHaveModules(modules, permissions)
      modifies this`permissions
      ensures (State(), outcome) == HandlePermission(old(State()),
                PermissionRequest.UpdatePermission(permissionId, moduleId, permissionCode, operation))
    {
      var found := FindPermission(permissionId);
      if !found || moduleId !in modules || modules[moduleId].isDeleted {
        return NotFound;
      }
      var codeFree := EnsureCodeAvailable(permissionCode, {permissionId});
      if !codeFree {
        return Conflict;
      }
      var operationFree := EnsureOperationAvailable(moduleId, operation, {permissionId});
      if !operationFree {
        return Conflict;
      }
      var permission := permissions[permissionId].(moduleId := moduleId, permissionCode := permissionCode);
      permissions := permissions[permissionId := permission.(operation := operation)];
      return Done;
    }

    method UpdatePermission(permissionId: Id, moduleId: Id, permissionCode: string, operation: Operation)
      returns (outcome: Outcome)
      requires Valid(State())
      modifies this`permissions
      ensures (State(), outcome) == HandlePermission(old(State()),
                PermissionRequest.UpdatePermission(permissionId, moduleId, permissionCode, operation))
      ensures Valid(State())
      ensures UpdatePermissionEffect(old(State()), State(), outcome, permissionId, moduleId, permissionCode, operation)
    {
      PermissionKeepsValid(State(),
                           PermissionRequest.UpdatePermission(permissionId, moduleId, permissionCode, operation));
      UpdatePermissionMeans(State(), permissionId, moduleId, permissionCode, operation);
      outcome := TryUpdatePermission(permissionId, moduleId, permissionCode, operation);
    }

    method TryDeletePermission(permissionId: Id) returns (outcome: Outcome)
      requires PermissionsHaveModules(modules, permissions)
      modifies this`permissions
      ensures (State(), outcome) == HandlePermission(old(State()), PermissionRequest.DeletePermission(permissionId))
    {
      var found := FindPermission(permissionId);
      if !found {
        return NotFound;
      }
      var roleCount := CountGrants(permissionId);
      if roleCount > 0 {
        return Conflict;
      }
      permissions := permissions[permissionId := permissions[permissionId].(isDeleted := true)];
      assert permissions == DropPermissions(old(permissions), {permissionId});
      return Done;
    }

    method DeletePermission(permissionId: Id) returns (outcome: Outcome)
      requires Valid(State())
      modifies this`permissions
      ensures (State(), outcome) == HandlePermission(old(State()), PermissionRequest.DeletePermission(permissionId))
      ensures Valid(State())
      ensures DeletePermissionEffect(old(State()), State(), outcome, permissionId)
    {
      PermissionKeepsValid(State(), PermissionRequest.DeletePermission(permissionId));
      DeletePermissionMeans(State(), permissionId);
      outcome := TryDeletePermission(permissionId);
    }

    // -------------------------------------------------------------- RolesService

    method FindMutableRole(roleId: Id, scope: Option<TenantId>) returns (outcome: Outcome)
      ensures outcome == MutableRole(State(), roleId, scope)
      ensures outcome == Done <==>
                && RoleLive(State(), roleId) && !roles[roleId].isSystemRole
                && (scope.Some? ==> roles[roleId].tenant == scope)
      ensures outcome == NotFound <==> RoleLive(State(), roleId) ==> scope.Some? && !Reaches(roles[roleId], scope)
    {
      if roleId !in roles || roles[roleId].isDeleted {
        return NotFound;
      }
      var role := roles[roleId];
      if scope.Some? && role.tenant.Some? && role.tenant.value != scope.value {
        return NotFound;
      }
      if role.isSystemRole {
        return Forbidden;
      }
      if scope.Some? && role.tenant.None? {
        return Forbidden;
      }
      return Done;
    }

    method TryCreateRole(requested: Option<TenantId>, roleCode: string, status: Option<Status>, scope: Option<TenantId>)
      returns (outcome: Outcome)
      modifies this`roles, this`nextId
      ensures (State(), outcome) == HandleRole(old(State()), RoleRequest.CreateRole(requested, roleCode, status), scope)
    {
      if scope.Some? && requested.Some? && requested.value != scope.value {
        return Forbidden;
      }
      var tenant := if scope.Some? then scope else requested;
      if tenant.Some? && tenant.value !in tenants {
        return NotFound;
      }
      if exists r :: r in roles && roles[r].roleCode == roleCode && roles[r].tenant == tenant {
        return Conflict;
      }
      if status == Some(SUSPENDED) {
        return BadRequest;
      }
      roles, nextId := roles[nextId := Role(tenant, roleCode, false, GetOr(status, ACTIVE), false)], nextId + 1;
      return Done;
    }

    method CreateRole(requested: Option<TenantId>, roleCode: string, status: Option<Status>, scope: Option<TenantId>)
      returns (outcome: Outcome)
      requires Valid(State())
      modifies this`roles, this`nextId
      ensures (State(), outcome) == HandleRole(old(State()), RoleRequest.CreateRole(requested, roleCode, status), scope)
      ensures Valid(State())
      ensures CreateRoleEffect(old(State()), State(), outcome, requested, roleCode, status, scope)
    {
      RoleKeepsValid(State(), RoleRequest.CreateRole(requested, roleCode, status), scope);
      CreateRoleMeans(State(), requested, roleCode, status, scope);
      outcome := TryCreateRole(requested, roleCode, status, scope);
    }

    method TryUpdateRole(roleId: Id, status: Option<Status>, scope: Option<TenantId>) returns (outcome: Outcome)
      modifies this`roles
      ensures (State(), outcome) == HandleRole(old(State()), RoleRequest.UpdateRole(roleId, status), scope)
    {
      outcome := FindMutableRole(roleId, scope);
      if outcome != Done {
        return;
      }
      if status == Some(SUSPENDED) {
        return BadRequest;
      }
      roles := roles[roleId := roles[roleId].(status := GetOr(status, ACTIVE))];
    }

    method UpdateRole(roleId: Id, status: Option<Status>, scope: Option<TenantId>) returns (outcome: Outcome)
      requires Valid(State())
      modifies this`roles
      ensures (State(), outcome) == HandleRole(old(State()), RoleRequest.UpdateRole(roleId, status), scope)
      ensures Valid(State())
      ensures UpdateRoleEffect(old(State()), State(), outcome, roleId, status, scope)
    {
      RoleKeepsValid(State(), RoleRequest.UpdateRole(roleId, status), scope);
      UpdateRoleMeans(State(), roleId, status, scope);
      outcome := TryUpdateRole(roleId, status, scope);
    }

    method TryDeleteRole(roleId: Id, scope: Option<TenantId>) returns (outcome: Outcome)
      modifies this`roles
      ensures (State(), outcome) == HandleRole(old(State()), RoleRequest.DeleteRole(roleId), scope)
    {
      outcome := FindMutableRole(roleId, scope);
      if outcome == Done {
        roles := roles[roleId := roles[roleId].(isDeleted := true)];
      }
    }

    method DeleteRole(roleId: Id, scope: Option<TenantId>) returns (outcome: Outcome)
      requires Valid(State())
      modifies this`roles
      ensures (State(), outcome) == HandleRole(old(State()), RoleRequest.DeleteRole(roleId), scope)
      ensures Valid(State())
      ensures DeleteRoleEffect(old(State()), State(), outcome, roleId, scope)
    {
      RoleKeepsValid(State(), RoleRequest.DeleteRole(roleId), scope);
      DeleteRoleMeans(State(), roleId, scope);
      outcome := TryDeleteRole(roleId, scope);
    }

    method UpsertGrant(roleId: Id, permissionId: Id)
      requires UniquePairs(rolePermissions)
      modifies this`rolePermissions, this`nextId
      ensures State() == Grant(old(State()), roleId, permissionId)
    {
      var existing := FindOne(rolePermissions, roleId, permissionId);
      if existing.Some? && !rolePermissions[existing.value].isDeleted {
        assert rolePermissions[existing.value := rolePermissions[existing.value].(isDeleted := false)]
            == rolePermissions;
        return;
      }
      rolePermissions, nextId := Save(rolePermissions, existing, roleId, permissionId, nextId);
    }

    method TryGrantPermission(roleId: Id, permissionId: Id, scope: Option<TenantId>) returns (outcome: Outcome)
      requires UniquePairs(rolePermissions)
      modifies this`rolePermissions, this`nextId
      ensures (State(), outcome) == HandleRole(old(State()), RoleRequest.GrantPermission(roleId, permissionId), scope)
    {
      outcome := FindMutableRole(roleId, scope);
      if outcome != Done {
        return;
      }
      if permissionId !in permissions || permissions[permissionId].isDeleted {
        return NotFound;
      }
      UpsertGrant(roleId, permissionId);
    }

    method GrantPermission(roleId: Id, permissionId: Id, scope: Option<TenantId>) returns (outcome: Outcome)
      requires Valid(State())
      modifies this`rolePermissions, this`nextId
      ensures (State(), outcome) == HandleRole(old(State()), RoleRequest.GrantPermission(roleId, permissionId), scope)
      ensures Valid(State())
      ensures GrantPermissionEffect(old(State()), State(), outcome, roleId, permissionId, scope)
    {
      RoleKeepsValid(State(), RoleRequest.GrantPermission(roleId, permissionId), scope);
      GrantPermissionMeans(State(), roleId, permissionId, scope);
      outcome := TryGrantPermission(roleId, permissionId, scope);
    }

    method TryRevokePermission(roleId: Id, permissionId: Id, scope: Option<TenantId>) returns (outcome: Outcome)
      requires UniquePairs(rolePermissions)
      modifies this`rolePermissions
      ensures (State(), outcome) == HandleRole(old(State()), RoleRequest.RevokePermission(roleId, permissionId), scope)
    {
      outcome := FindMutableRole(roleId, scope);
      if outcome != Done {
        return;
      }
      var assignment := FindLive(rolePermissions, roleId, permissionId);
      if assignment.None? {
        return NotFound;
      }
      rolePermissions := SoftDeleteOne(rolePermissions, assignment.value);
    }

    method RevokePermission(roleId: Id, permissionId: Id, scope: Option<TenantId>) returns (outcome: Outcome)
      requires Valid(State())
      modifies this`rolePermissions
      ensures (State(), outcome) == HandleRole(old(State()), RoleRequest.RevokePermission(roleId, permissionId), scope)
      ensures Valid(State())
      ensures RevokePermissionEffect(old(State()), State(), outcome, roleId, permissionId, scope)
    {
      RoleKeepsValid(State(), RoleRequest.RevokePermission(roleId, permissionId), scope);
      RevokePermissionMeans(State(), roleId, permissionId, scope);
      outcome := TryRevokePermission(roleId, permissionId, scope);
    }

    method RevokeMany(roleId: Id, permissionIds: seq<Id>)
      modifies this`rolePermissions
      ensures State() == RevokeAmong(old(State()), roleId, set p | p in permissionIds)
    {
      ghost var asked := set p | p in permissionIds;
      if |permissionIds| == 0 {
        assert LiveBetween(rolePermissions, roleId, asked) == {};
        RetireNothing(rolePermissions);
        return;
      }
      var assignments := set i | i in rolePermissions && rolePermissions[i].left == roleId
                                 && rolePermissions[i].right in permissionIds && !rolePermissions[i].isDeleted;
      assert assignments == LiveBetween(rolePermissions, roleId, asked);
      rolePermissions := SoftDelete(rolePermissions, assignments);
    }

    /** Grants stop at the first id that is not a live permission, and those before it stay. */
    method TryBatchPermissions(roleId: Id, permissionIds: seq<Id>, revoke: bool, scope: Option<TenantId>)
      returns (outcome: Outcome)
      requires Valid(State())
      modifies this`rolePermissions, this`nextId
      ensures (State(), outcome)
           == HandleRole(old(State()), RoleRequest.BatchPermissions(roleId, permissionIds, revoke), scope)
    {
      ghost var before := State();
      outcome := FindMutableRole(roleId, scope);
      if outcome != Done {
        return;
      }
      if revoke {
        RevokeMany(roleId, permissionIds);
        return;
      }
      outcome := GrantEach(roleId, permissionIds);
    }

    method BatchPermissions(roleId: Id, permissionIds: seq<Id>, revoke: bool, scope: Option<TenantId>)
      returns (outcome: Outcome)
      requires Valid(State())
      modifies this`rolePermissions, this`nextId
      ensures (State(), outcome)
           == HandleRole(old(State()), RoleRequest.BatchPermissions(roleId, permissionIds, revoke), scope)
      ensures Valid(State())
      ensures BatchPermissionsEffect(old(State()), State(), outcome, roleId, permissionIds, revoke, scope)
    {
      RoleKeepsValid(State(), RoleRequest.BatchPermissions(roleId, permissionIds, revoke), scope);
      BatchPermissionsMeans(State(), roleId, permissionIds, revoke, scope);
      outcome := TryBatchPermissions(roleId, permissionIds, revoke, scope);
    }

    method GrantEach(roleId: Id, permissionIds: seq<Id>) returns (outcome: Outcome)
      requires Valid(State())
      modifies this`rolePermissions, this`nextId
      ensures (State(), outcome) == GrantAll(old(State()), roleId, permissionIds)
    {
      ghost var before := State();
      for i := 0 to |permissionIds|
        invariant Valid(State()) && permissions == before.permissions
        invariant GrantAll(State(), roleId, permissionIds[i..]) == GrantAll(before, roleId, permissionIds)
      {
        assert permissionIds[i..][1..] == permissionIds[i + 1..];
        var permissionId := permissionIds[i];
        if permissionId !in permissions || permissions[permissionId].isDeleted {
          return NotFound;
        }
        GrantKeepsValid(State(), roleId, permissionId);
        UpsertGrant(roleId, permissionId);
      }
      return Done;
    }

    // -------------------------------------------------------------- GroupsService

    method TryCreateGroup(tenant: TenantId, groupCode: string, status: Option<Status>, scope: Option<TenantId>)
      returns (outcome: Outcome)
      modifies this`groups, this`nextId
      ensures (State(), outcome)
           == HandleGroup(old(State()), GroupRequest.CreateGroup(tenant, groupCode, status), scope)
    {
      if scope.Some? && scope.value != tenant {
        return Forbidden;
      }
      if tenant !in tenants {
        return NotFound;
      }
      if exists g :: g in groups && groups[g].tenant == tenant && groups[g].groupCode == groupCode {
        return Conflict;
      }
      groups, nextId := groups[nextId := Group(tenant, groupCode, GetOr(status, ACTIVE), false)], nextId + 1;
      return Done;
    }

    method CreateGroup(tenant: TenantId, groupCode: string, status: Option<Status>, scope: Option<TenantId>)
      returns (outcome: Outcome)
      requires Valid(State())
      modifies this`groups, this`nextId
      ensures (State(), outcome)
           == HandleGroup(old(State()), GroupRequest.CreateGroup(tenant, groupCode, status), scope)
      ensures Valid(State())
      ensures CreateGroupEffect(old(State()), State(), outcome, tenant, groupCode, status, scope)
    {
      GroupKeepsValid(State(), GroupRequest.CreateGroup(tenant, groupCode, status), scope);
      CreateGroupMeans(State(), tenant, groupCode, status, scope);
      outcome := TryCreateGroup(tenant, groupCode, status, scope);
    }

    method FindGroup(groupId: Id, scope: Option<TenantId>) returns (found: bool)
      ensures found <==> GroupFound(State(), groupId, scope)
    {
      found := groupId in groups && !groups[groupId].isDeleted
               && (scope.Some? ==> groups[groupId].tenant == scope.value);
    }

    method TryUpdateGroup(groupId: Id, tenant: TenantId, status: Option<Status>, scope: Option<TenantId>)
      returns (outcome: Outcome)
      modifies this`groups
      ensures (State(), outcome) == HandleGroup(old(State()), GroupRequest.UpdateGroup(groupId, tenant, status), scope)
    {
      var found := FindGroup(groupId, scope);
      if !found {
        return NotFound;
      }
      if tenant != groups[groupId].tenant {
        return BadRequest;
      }
      groups := groups[groupId := groups[groupId].(status := GetOr(status, groups[groupId].status))];
      return Done;
    }

    method UpdateGroup(groupId: Id, tenant: TenantId, status: Option<Status>, scope: Option<TenantId>)
      returns (outcome: Outcome)
      requires Valid(State())
      modifies this`groups
      ensures (State(), outcome) == HandleGroup(old(State()), GroupRequest.UpdateGroup(groupId, tenant, status), scope)
      ensures Valid(State())
      ensures UpdateGroupEffect(old(State()), State(), outcome, groupId, tenant, status, scope)
    {
      GroupKeepsValid(State(), GroupRequest.UpdateGroup(groupId, tenant, status), scope);
      UpdateGroupMeans(State(), groupId, tenant, status, scope);
      outcome := TryUpdateGroup(groupId, tenant, status, scope);
    }

    method TryDeleteGroup(groupId: Id, scope: Option<TenantId>) returns (outcome: Outcome)
      modifies this`groups, this`groupMembers, this`groupRoles
      ensures (State(), outcome) == HandleGroup(old(State()), GroupRequest.DeleteGroup(groupId), scope)
    {
      var found := FindGroup(groupId, scope);
      if !found {
        return NotFound;
      }
      groups := groups[groupId := groups[groupId].(isDeleted := true)];
      groupMembers := SoftDelete(groupMembers, LiveFrom(groupMembers, groupId));
      groupRoles := SoftDelete(groupRoles, LiveFrom(groupRoles, groupId));
      return Done;
    }

    method DeleteGroup(groupId: Id, scope: Option<TenantId>) returns (outcome: Outcome)
      requires Valid(State())
      modifies this`groups, this`groupMembers, this`groupRoles
      ensures (State(), outcome) == HandleGroup(old(State()), GroupRequest.DeleteGroup(groupId), scope)
      ensures Valid(State())
      ensures DeleteGroupEffect(old(State()), State(), outcome, groupId, scope)
    {
      GroupKeepsValid(State(), GroupRequest.DeleteGroup(groupId), scope);
      DeleteGroupMeans(State(), groupId, scope);
      outcome := TryDeleteGroup(groupId, scope);
    }

    method TryAddMember(groupId: Id, userId: Id, scope: Option<TenantId>) returns (outcome: Outcome)
      requires UniquePairs(groupMembers)
      modifies this`groupMembers, this`nextId
      ensures (State(), outcome) == HandleGroup(old(State()), GroupRequest.AddMember(groupId, userId), scope)
    {
      var found := FindGroup(groupId, scope);
      if !found || userId !in users || users[userId].isDeleted {
        return NotFound;
      }
      if users[userId].tenant != Some(groups[groupId].tenant) {
        return Forbidden;
      }
      var existing := FindOne(groupMembers, groupId, userId);
      if existing.Some? && !groupMembers[existing.value].isDeleted {
        return Conflict;
      }
      groupMembers, nextId := Save(groupMembers, existing, groupId, userId, nextId);
      return Done;
    }

    method AddMember(groupId: Id, userId: Id, scope: Option<TenantId>) returns (outcome: Outcome)
      requires Valid(State())
      modifies this`groupMembers, this`nextId
      ensures (State(), outcome) == HandleGroup(old(State()), GroupRequest.AddMember(groupId, userId), scope)
      ensures Valid(State())
      ensures AddMemberEffect(old(State()), State(), outcome, groupId, userId, scope)
    {
      GroupKeepsValid(State(), GroupRequest.AddMember(groupId, userId), scope);
      AddMemberMeans(State(), groupId, userId, scope);
      outcome := TryAddMember(groupId, userId, scope);
    }

    method TryRemoveMember(groupId: Id, userId: Id, scope: Option<TenantId>) returns (outcome: Outcome)
      requires UniquePairs(groupMembers)
      modifies this`groupMembers
      ensures (State(), outcome) == HandleGroup(old(State()), GroupRequest.RemoveMember(groupId, userId), scope)
    {
      var found := FindGroup(groupId, scope);
      if !found {
        return NotFound;
      }
      var member := FindLive(groupMembers, groupId, userId);
      if member.None? {
        return NotFound;
      }
      groupMembers := SoftDeleteOne(groupMembers, member.value);
      return Done;
    }

    method RemoveMember(groupId: Id, userId: Id, scope: Option<TenantId>) returns (outcome: Outcome)
      requires Valid(State())
      modifies this`groupMembers
      ensures (State(), outcome) == HandleGroup(old(State()), GroupRequest.RemoveMember(groupId, userId), scope)
      ensures Valid(State())
      ensures RemoveMemberEffect(old(State()), State(), outcome, groupId, userId, scope)
    {
      GroupKeepsValid(State(), GroupRequest.RemoveMember(groupId, userId), scope);
      RemoveMemberMeans(State(), groupId, userId, scope);
      outcome := TryRemoveMember(groupId, userId, scope);
    }

    /** `findAssignableRole` of both the groups and the users service. */
    method FindAssignableRole(roleId: Id, tenant: Option<TenantId>) returns (outcome: Outcome)
      ensures outcome == AssignableRole(State(), roleId, tenant)
      ensures outcome == Done <==>
                RoleLive(State(), roleId) && roles[roleId].status == ACTIVE && Reaches(roles[roleId], tenant)
      ensures outcome == Forbidden ==> RoleLive(State(), roleId) && !Reaches(roles[roleId], tenant)
    {
      if roleId !in roles || roles[roleId].isDeleted || roles[roleId].status != ACTIVE {
        return NotFound;
      }
      if roles[roleId].tenant.Some? && roles[roleId].tenant != tenant {
        return Forbidden;
      }
      return Done;
    }

    method TryAssignGroupRole(groupId: Id, roleId: Id, scope: Option<TenantId>) returns (outcome: Outcome)
      requires UniquePairs(groupRoles)
      modifies this`groupRoles, this`nextId
      ensures (State(), outcome) == HandleGroup(old(State()), GroupRequest.AssignGroupRole(groupId, roleId), scope)
    {
      var found := FindGroup(groupId, scope);
      if !found {
        return NotFound;
      }
      outcome := FindAssignableRole(roleId, Some(groups[groupId].tenant));
      if outcome != Done {
        return;
      }
      var existing := FindOne(groupRoles, groupId, roleId);
      if existing.Some? && !groupRoles[existing.value].isDeleted {
        return Conflict;
      }
      groupRoles, nextId := Save(groupRoles, existing, groupId, roleId, nextId);
    }

    method AssignGroupRole(groupId: Id, roleId: Id, scope: Option<TenantId>) returns (outcome: Outcome)
      requires Valid(State())
      modifies this`groupRoles, this`nextId
      ensures (State(), outcome) == HandleGroup(old(State()), GroupRequest.AssignGroupRole(groupId, roleId), scope)
      ensures Valid(State())
      ensures AssignGroupRoleEffect(old(State()), State(), outcome, groupId, roleId, scope)
    {
      GroupKeepsValid(State(), GroupRequest.AssignGroupRole(groupId, roleId), scope);
      AssignGroupRoleMeans(State(), groupId, roleId, scope);
      outcome := TryAssignGroupRole(groupId, roleId, scope);
    }

    method TryRevokeGroupRole(groupId: Id, roleId: Id, scope: Option<TenantId>) returns (outcome: Outcome)
      requires UniquePairs(groupRoles)
      modifies this`groupRoles
      ensures (State(), outcome) == HandleGroup(old(State()), GroupRequest.RevokeGroupRole(groupId, roleId), scope)
    {
      var found := FindGroup(groupId, scope);
      if !found {
        return NotFound;
      }
      var assignment := FindLive(groupRoles, groupId, roleId);
      if assignment.None? {
        return NotFound;
      }
      groupRoles := SoftDeleteOne(groupRoles, assignment.value);
      return Done;
    }

    method RevokeGroupRole(groupId: Id, roleId: Id, scope: Option<TenantId>) returns (outcome: Outcome)
      requires Valid(State())
      modifies this`groupRoles
      ensures (State(), outcome) == HandleGroup(old(State()), GroupRequest.RevokeGroupRole(groupId, roleId), scope)
      ensures Valid(State())
      ensures RevokeGroupRoleEffect(old(State()), State(), outcome, groupId, roleId, scope)
    {
      GroupKeepsValid(State(), GroupRequest.RevokeGroupRole(groupId, roleId), scope);
      RevokeGroupRoleMeans(State(), groupId, roleId, scope);
      outcome := TryRevokeGroupRole(groupId, roleId, scope);
    }

    // -------------------------------------------------------------- UsersService

    method FindUser(userId: Id, scope: Option<TenantId>) returns (found: bool)
      ensures found <==> UserFound(State(), userId, scope)
    {
      found := userId in users && !users[userId].isDeleted && (scope.Some? ==> users[userId].tenant == scope);
    }

    method TryAssignUserRole(userId: Id, roleId: Id, scope: Option<TenantId>) returns (outcome: Outcome)
      requires UniquePairs(userRoles)
      modifies this`userRoles, this`nextId
      ensures (State(), outcome) == HandleUser(old(State()), UserRequest.AssignUserRole(userId, roleId), scope)
    {
      var found := FindUser(userId, scope);
      if !found {
        return NotFound;
      }
      outcome := FindAssignableRole(roleId, users[userId].tenant);
      if outcome != Done {
        return;
      }
      var existing := FindOne(userRoles, userId, roleId);
      if existing.Some? && !userRoles[existing.value].isDeleted {
        return Conflict;
      }
      userRoles, nextId := Save(userRoles, existing, userId, roleId, nextId);
    }

    method AssignUserRole(userId: Id, roleId: Id, scope: Option<TenantId>) returns (outcome: Outcome)
      requires Valid(State())
      modifies this`userRoles, this`nextId
      ensures (State(), outcome) == HandleUser(old(State()), UserRequest.AssignUserRole(userId, roleId), scope)
      ensures Valid(State())
      ensures AssignUserRoleEffect(old(State()), State(), outcome, userId, roleId, scope)
    {
      UserKeepsValid(State(), UserRequest.AssignUserRole(userId, roleId), scope);
      AssignUserRoleMeans(State(), userId, roleId, scope);
      outcome := TryAssignUserRole(userId, roleId, scope);
    }

    method TryRevokeUserRole(userId: Id, roleId: Id, scope: Option<TenantId>) returns (outcome: Outcome)
      requires UniquePairs(userRoles)
      modifies this`userRoles
      ensures (State(), outcome) == HandleUser(old(State()), UserRequest.RevokeUserRole(userId, roleId), scope)
    {
      var found := FindUser(userId, scope);
      if !found {
        return NotFound;
      }
      var assignment := FindLive(userRoles, userId, roleId);
      if assignment.None? {
        return NotFound;
      }
      userRoles := SoftDeleteOne(userRoles, assignment.value);
      return Done;
    }

    method RevokeUserRole(userId: Id, roleId: Id, scope: Option<TenantId>) returns (outcome: Outcome)
      requires Valid(State())
      modifies this`userRoles
      ensures (State(), outcome) == HandleUser(old(State()), UserRequest.RevokeUserRole(userId, roleId), scope)
      ensures Valid(State())
      ensures RevokeUserRoleEffect(old(State()), State(), outcome, userId, roleId, scope)
    {
      UserKeepsValid(State(), UserRequest.RevokeUserRole(userId, roleId), scope);
      RevokeUserRoleMeans(State(), userId, roleId, scope);
      outcome := TryRevokeUserRole(userId, roleId, scope);
    }

    /** The private `assignRole`. */
    method TryAssignRole(userId: Id, code: string)
      requires RolesDistinct(roles) && UniquePairs(userRoles)
      modifies this`userRoles, this`nextId
      ensures State() == AssignByCode(old(State()), userId, code)
    {
      if r :| r in roles && roles[r].roleCode == code && roles[r].tenant.None? && !roles[r].isDeleted {
        assert GlobalRoleOf(roles, code) == Some(r) by {
          assert RolesDistinct(roles) && GlobalRole(roles, r, code);
        }
        var existing := FindOne(userRoles, userId, r);
        if existing.None? {
          userRoles, nextId := userRoles[nextId := Link(userId, r, false)], nextId + 1;
        }
      } else {
        assert forall r :: !GlobalRole(roles, r, code);
      }
    }

    method AssignRole(userId: Id, code: string)
      requires Valid(State())
      modifies this`userRoles, this`nextId
      ensures State() == AssignByCode(old(State()), userId, code)
      ensures RoleByCode(old(userRoles), userRoles, old(State()), userId, code)
    {
      RoleByCodeMeans(State(), userId, code);
      TryAssignRole(userId, code);
    }
  }

  /** Soft-deletes the children one after the other. */
  method DeleteChildren(permissions: map<Id, Permission>, children: set<Id>) returns (after: map<Id, Permission>)
    requires forall p :: p in children ==> p in permissions
    ensures after == DropPermissions(permissions, children)
  {
    after := permissions;
    var todo := children;
    while todo != {}
      invariant todo <= children && after == DropPermissions(permissions, children - todo)
    {
      var p :| p in todo;
      after := after[p := after[p].(isDeleted := true)];
      todo := todo - {p};
    }
  }
}
