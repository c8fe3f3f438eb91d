/** What no request, or only some requests, can change: tenants, users and roles. */
module RequestFrames {
  import opened Options
  import opened Links
  import opened RbacModel
  import opened RbacInvariant

  /** Users are added or deleted; they never change tenant or come back. */
  predicate UserKept(before: map<Id, User>, after: map<Id, User>, u: Id)
    requires u in before
  {
    && u in after && after[u].tenant == before[u].tenant
    && (before[u].isDeleted ==> after[u].isDeleted)
  }

  /** A new user's tenant is a live one. */
  predicate UsersGrow(before: map<Id, User>, after: map<Id, User>, tenants: set<TenantId>) {
    && (forall u :: u in before ==> UserKept(before, after, u))
    && (forall u :: u in after && u !in before && after[u].tenant.Some? ==> after[u].tenant.value in tenants)
  }

  // ---------------------------------------------------------------- requests on roles

  /** A request on a role row writes that row or none. */
  lemma RoleRowWritten(db: Db, request: RoleRequest, scope: Option<TenantId>)
    requires OnRoleRow(request)
    ensures var (after, outcome) := HandleRole(db, request, scope);
            var r := if request.CreateRole? then db.nextId else request.roleId;
            && (outcome != Done ==> after == db)
            && (outcome == Done ==> r in after.roles && after.roles == db.roles[r := after.roles[r]])
            && (outcome == Done && request.CreateRole? ==>
                  && after.roles[r].roleCode == request.roleCode
                  && RoleTenant(db, request.tenant, scope) == (after.roles[r].tenant, Done)
                  && !RoleCodeTaken(db.roles, after.roles[r].tenant, request.roleCode))
            && (outcome == Done && !request.CreateRole? ==>
                  && MutableRole(db, r, scope) == Done
                  && after.roles[r] == db.roles[r].(status := after.roles[r].status,
                                                    isDeleted := after.roles[r].isDeleted))
  {
  }

  // ---------------------------------------------------------------- requests on users

  lemma NewUserGrows(db: Db, tenant: Option<TenantId>)
    requires Below(db.users.Keys, db.nextId) && (tenant.Some? ==> tenant.value in db.tenants)
    ensures UsersGrow(db.users, AddUser(db, tenant).users, db.tenants)
  {
  }

  lemma UserCreation(db: Db, request: UserRequest, scope: Option<TenantId>)
    requires Below(db.users.Keys, db.nextId) && (request.CreateUser? || request.RegisterUser?)
    ensures UsersGrow(db.users, HandleUser(db, request, scope).0.users, db.tenants)
  {
    if HandleUser(db, request, scope).1 == Done {
      NewUserGrows(db, if request.CreateUser? then RoleTenant(db, request.tenant, scope).0 else request.tenant);
    }
  }

  lemma UserLinksKeepUsers(db: Db, request: UserRequest, scope: Option<TenantId>)
    requires request.UpdateUser? || request.AssignUserRole? || request.RevokeUserRole?
    ensures HandleUser(db, request, scope).0.users == db.users
  {
  }

  lemma UserDeletion(db: Db, u: Id, actor: Id, scope: Option<TenantId>)
    ensures HandleUser(db, DeleteUser(u, actor), scope).0
         == if u != actor && UserFound(db, u, scope) then db.(users := db.users[u := db.users[u].(isDeleted := true)])
            else db
  {
  }

  lemma UserRequestGrowsUsers(db: Db, request: UserRequest, scope: Option<TenantId>)
    requires Below(db.users.Keys, db.nextId)
    ensures UsersGrow(db.users, HandleUser(db, request, scope).0.users, db.tenants)
  {
    if request.CreateUser? || request.RegisterUser? {
      UserCreation(db, request, scope);
    } else if request.DeleteUser? {
      UserDeletion(db, request.userId, request.actor, scope);
    } else {
      UserLinksKeepUsers(db, request, scope);
    }
  }

  // ---------------------------------------------------------------- any request

  predicate WritesRole(request: Request) {
    request.ToRoles? && OnRoleRow(request.onRoles)
  }

  lemma RequestKeepsRoles(db: Db, request: Request)
    requires !request.TenantsBecome?
    ensures Handle(db, request).0.tenants == db.tenants
    ensures !WritesRole(request) ==> Handle(db, request).0.roles == db.roles
  {
  }

  lemma RequestGrowsUsers(db: Db, request: Request)
    requires Below(db.users.Keys, db.nextId)
    ensures UsersGrow(db.users, Handle(db, request).0.users, db.tenants)
  {
    if request.ToUsers? {
      UserRequestGrowsUsers(db, request.onUsers, request.scope);
    }
  }
}
