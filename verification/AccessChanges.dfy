/** What a request does to a user's access: what it takes away, and what undoes it exactly. */
module AccessChanges {
  import opened Options
  import opened Links
  import opened RbacModel
  import opened RbacInvariant
  import opened RequestFrames
  import opened EffectiveAccess

  // ---------------------------------------------------------------- groups and roles taken away

  /** The source row comes from membership of g. */
  predicate Through(db: Db, s: Source, g: Id) {
    s.ViaGroup? && s.membership in db.groupMembers && db.groupMembers[s.membership].left == g
  }

  function SourcesWithoutGroup(db: Db, u: Id, g: Id): set<Source> {
    set s | s in ActiveRoleSources(db, u) && !Through(db, s, g)
  }

  function SourcesWithoutRole(db: Db, u: Id, r: Id): set<Source> {
    set s | s in ActiveRoleSources(db, u) && s.role != r
  }

  /** Nothing about g's rows matters once g is deleted or not ACTIVE. */
  lemma GroupSilenced(db: Db, after: Db, u: Id, g: Id)
    requires !GroupActive(after, g)
    requires forall h :: h != g ==> (GroupActive(after, h) <==> GroupActive(db, h))
    requires after.roles == db.roles && after.userRoles == db.userRoles
    requires after.groupMembers.Keys == db.groupMembers.Keys && after.groupRoles.Keys == db.groupRoles.Keys
    requires forall m :: m in db.groupMembers ==>
               after.groupMembers[m].left == db.groupMembers[m].left
               && (db.groupMembers[m].left != g ==> after.groupMembers[m] == db.groupMembers[m])
    requires forall a :: a in db.groupRoles ==>
               && after.groupRoles[a].left == db.groupRoles[a].left
               && after.groupRoles[a].right == db.groupRoles[a].right
               && (db.groupRoles[a].left != g ==> after.groupRoles[a] == db.groupRoles[a])
    ensures ActiveRoleSources(after, u) == SourcesWithoutGroup(db, u, g)
  {
  }

  lemma SameGrantsSameListing(db: Db, after: Db, sources: set<Source>)
    requires after.rolePermissions == db.rolePermissions && after.permissions == db.permissions
    requires after.modules == db.modules
    ensures EffectiveOf(after, sources) == EffectiveOf(db, sources)
    ensures CodesOf(after, sources) == CodesOf(db, sources)
  {
    assert forall r, i :: GrantRow(after, r, i) <==> GrantRow(db, r, i);
    assert JoinedRows(after, sources) == JoinedRows(db, sources);
  }

  /** No live row mentions the group. */
  predicate Unlinked(db: Db, g: Id) {
    LiveFrom(db.groupMembers, g) == {} && LiveFrom(db.groupRoles, g) == {}
  }

  /** Deleting a group leaves every user exactly the access the other sources give, and no live row of the group. */
  lemma GroupDeleteTakesItsSources(db: Db, g: Id, scope: Option<TenantId>, u: Id)
    requires HandleGroup(db, DeleteGroup(g), scope).1 == Done
    ensures var after := HandleGroup(db, DeleteGroup(g), scope).0;
            && ActiveRoleSources(after, u) == SourcesWithoutGroup(db, u, g)
            && ListEffectivePermissions(after, u) == EffectiveOf(db, SourcesWithoutGroup(db, u, g))
            && ResolvePermissions(after, u) == CodesOf(db, SourcesWithoutGroup(db, u, g))
            && Unlinked(after, g)
  {
    var after := HandleGroup(db, DeleteGroup(g), scope).0;
    GroupSilenced(db, after, u, g);
    SameGrantsSameListing(db, after, SourcesWithoutGroup(db, u, g));
  }

  /** A group that is not ACTIVE gives nothing. */
  lemma GroupSuspensionTakesItsSources(db: Db, g: Id, status: Status, scope: Option<TenantId>, u: Id)
    requires GroupFound(db, g, scope) && status != ACTIVE
    ensures var after := HandleGroup(db, UpdateGroup(g, db.groups[g].tenant, Some(status)), scope).0;
            && ActiveRoleSources(after, u) == SourcesWithoutGroup(db, u, g)
            && ListEffectivePermissions(after, u) == EffectiveOf(db, SourcesWithoutGroup(db, u, g))
            && ResolvePermissions(after, u) == CodesOf(db, SourcesWithoutGroup(db, u, g))
  {
    var after := HandleGroup(db, UpdateGroup(g, db.groups[g].tenant, Some(status)), scope).0;
    GroupSilenced(db, after, u, g);
    SameGrantsSameListing(db, after, SourcesWithoutGroup(db, u, g));
  }

  lemma RoleSilenced(db: Db, after: Db, u: Id, r: Id)
    requires !RoleActive(after, r) && forall q :: q != r ==> (RoleActive(after, q) <==> RoleActive(db, q))
    requires after == db.(roles := after.roles)
    ensures ActiveRoleSources(after, u) == SourcesWithoutRole(db, u, r)
    ensures ListEffectivePermissions(after, u) == EffectiveOf(db, SourcesWithoutRole(db, u, r))
    ensures ResolvePermissions(after, u) == CodesOf(db, SourcesWithoutRole(db, u, r))
  {
    assert forall i :: DirectRow(after, u, i) <==> DirectRow(db, u, i) && db.userRoles[i].right != r;
    assert forall m, a :: GroupRow(after, u, m, a) <==> GroupRow(db, u, m, a) && db.groupRoles[a].right != r;
    assert ActiveRoleSources(after, u) == SourcesWithoutRole(db, u, r);
    SameGrantsSameListing(db, after, SourcesWithoutRole(db, u, r));
  }

  /** Deleting a role, or making it INACTIVE, leaves every user exactly the access the other sources give. */
  lemma RoleRemovalTakesItsSources(db: Db, r: Id, scope: Option<TenantId>, delete: bool, u: Id)
    requires MutableRole(db, r, scope) == Done
    ensures var request := if delete then DeleteRole(r) else UpdateRole(r, Some(INACTIVE));
            var (after, outcome) := HandleRole(db, request, scope);
            && outcome == Done
            && ActiveRoleSources(after, u) == SourcesWithoutRole(db, u, r)
            && ListEffectivePermissions(after, u) == EffectiveOf(db, SourcesWithoutRole(db, u, r))
            && ResolvePermissions(after, u) == CodesOf(db, SourcesWithoutRole(db, u, r))
  {
    var request := if delete then DeleteRole(r) else UpdateRole(r, Some(INACTIVE));
    RoleSilenced(db, HandleRole(db, request, scope).0, u, r);
  }

  // ---------------------------------------------------------------- modules taken away

  lemma ModuleDeleteGrants(db: Db, m: Id, r: Id, i: Id)
    requires Valid(db) && MutableModule(db, m) == Done
    ensures GrantRow(HandleModule(db, DeleteModule(m)).0, r, i)
       <==> GrantRow(db, r, i) && db.permissions[db.rolePermissions[i].right].moduleId != m
  {
    var children := ChildrenOf(db, m);
    if GrantRow(db, r, i) {
      assert db.permissions[db.rolePermissions[i].right].moduleId == m <==> db.rolePermissions[i].right in children;
      assert db.rolePermissions[i].right in children <==> i in LiveTo(db.rolePermissions, children);
    }
  }

  /** What stays of the join: the rows of other modules, whose permissions and modules are as they were. */
  lemma ModuleDeleteJoins(db: Db, m: Id, sources: set<Source>)
    requires Valid(db) && MutableModule(db, m) == Done
    ensures JoinedRows(HandleModule(db, DeleteModule(m)).0, sources)
         == set row | row in JoinedRows(db, sources) && db.permissions[row.permissionId].moduleId != m
  {
    var after := HandleModule(db, DeleteModule(m)).0;
    forall r, i | i in db.rolePermissions
      ensures GrantRow(after, r, i) <==> GrantRow(db, r, i) && db.permissions[db.rolePermissions[i].right].moduleId != m
    {
      ModuleDeleteGrants(db, m, r, i);
    }
    assert forall i :: i in db.rolePermissions ==>
        i in after.rolePermissions && after.rolePermissions[i].right == db.rolePermissions[i].right;
    assert forall n :: n != m ==> (ModuleLive(after, n) <==> ModuleLive(db, n));
  }

  lemma ModuleDeleteKeepsSources(db: Db, m: Id, u: Id)
    ensures ActiveRoleSources(HandleModule(db, DeleteModule(m)).0, u) == ActiveRoleSources(db, u)
  {
    var after := HandleModule(db, DeleteModule(m)).0;
    assert forall i :: DirectRow(after, u, i) <==> DirectRow(db, u, i);
    assert forall n, a :: GroupRow(after, u, n, a) <==> GroupRow(db, u, n, a);
  }

  lemma GroupedAlike(db: Db, after: Db, rows: set<JoinedRow>, rest: set<JoinedRow>, p: Id)
    requires p in db.permissions && db.permissions[p].moduleId in db.modules
    requires p in after.permissions && after.permissions[p] == db.permissions[p]
    requires db.permissions[p].moduleId in after.modules
    requires after.modules[db.permissions[p].moduleId] == db.modules[db.permissions[p].moduleId]
    requires forall row: JoinedRow :: row.permissionId == p ==> (row in rest <==> row in rows)
    ensures Grouped(after, rest, p) == Grouped(db, rows, p)
  {
  }

  lemma ModuleDeleteGroups(db: Db, m: Id, sources: set<Source>, row: JoinedRow)
    requires Valid(db) && MutableModule(db, m) == Done
    requires row in JoinedRows(db, sources) && db.permissions[row.permissionId].moduleId != m
    ensures var after := HandleModule(db, DeleteModule(m)).0;
            && row.permissionId in after.permissions && after.permissions[row.permissionId].moduleId in after.modules
            && Grouped(after, JoinedRows(after, sources), row.permissionId)
               == Grouped(db, JoinedRows(db, sources), row.permissionId)
  {
    var after := HandleModule(db, DeleteModule(m)).0;
    ModuleDeleteJoins(db, m, sources);
    GroupedAlike(db, after, JoinedRows(db, sources), JoinedRows(after, sources), row.permissionId);
  }

  /** Deleting a module takes from every user exactly the permissions of that module. */
  lemma ModuleDeleteTakesItsPermissions(db: Db, m: Id, u: Id)
    requires Valid(db) && MutableModule(db, m) == Done
    ensures var after := HandleModule(db, DeleteModule(m)).0;
            ListEffectivePermissions(after, u) == set e | e in ListEffectivePermissions(db, u) && e.moduleId != m
  {
    var after := HandleModule(db, DeleteModule(m)).0;
    var sources := ActiveRoleSources(db, u);
    ModuleDeleteKeepsSources(db, m, u);
    ModuleDeleteJoins(db, m, sources);
    forall e | e in EffectiveOf(db, sources) && e.moduleId != m
      ensures e in EffectiveOf(after, sources)
    {
      var row :| row in JoinedRows(db, sources) && e == Grouped(db, JoinedRows(db, sources), row.permissionId);
      ModuleDeleteGroups(db, m, sources, row);
      assert row in JoinedRows(after, sources);
    }
    forall e | e in EffectiveOf(after, sources)
      ensures e in EffectiveOf(db, sources) && e.moduleId != m
    {
      var row :| row in JoinedRows(after, sources) && e == Grouped(after, JoinedRows(after, sources), row.permissionId);
      assert row in JoinedRows(db, sources);
      ModuleDeleteGroups(db, m, sources, row);
    }
  }

  // ---------------------------------------------------------------- exact restoration

  /** A group switched to another status and back is as it was, and with it every table. */
  lemma GroupStatusRestores(db: Db, g: Id, status: Status, scope: Option<TenantId>)
    requires GroupFound(db, g, scope)
    ensures var group := db.groups[g];
            var switched := HandleGroup(db, UpdateGroup(g, group.tenant, Some(status)), scope).0;
            HandleGroup(switched, UpdateGroup(g, group.tenant, Some(group.status)), scope) == (db, Done)
  {
    var group := db.groups[g];
    var switched := HandleGroup(db, UpdateGroup(g, group.tenant, Some(status)), scope).0;
    assert switched.groups[g := group] == db.groups;
  }

  /** So is a role, unless its status is SUSPENDED, which a role request cannot set. */
  lemma RoleStatusRestoresIff(db: Db, r: Id, scope: Option<TenantId>)
    requires MutableRole(db, r, scope) == Done
    ensures var role := db.roles[r];
            var switched := HandleRole(db, UpdateRole(r, Some(INACTIVE)), scope).0;
            HandleRole(switched, UpdateRole(r, Some(role.status)), scope) == (db, Done) <==> role.status != SUSPENDED
  {
    var role := db.roles[r];
    var switched := HandleRole(db, UpdateRole(r, Some(INACTIVE)), scope).0;
    assert switched.roles[r := role] == db.roles;
    assert MutableRole(switched, r, scope) == Done;
  }

  predicate NoneSuspended(roles: map<Id, Role>) {
    forall r :: r in roles ==> roles[r].status != SUSPENDED
  }

  lemma RoleRowStaysUnsuspended(db: Db, request: RoleRequest, scope: Option<TenantId>)
    requires OnRoleRow(request) && NoneSuspended(db.roles)
    ensures NoneSuspended(HandleRole(db, request, scope).0.roles)
  {
  }

  lemma {:induction false} RunKeepsUnsuspended(db: Db, requests: seq<Request>)
    requires Valid(db) && NoneSuspended(db.roles)
    ensures NoneSuspended(Run(db, requests).roles)
  {
    if requests != [] {
      var mid, last := Run(db, requests[..|requests| - 1]), requests[|requests| - 1];
      RunKeepsUnsuspended(db, requests[..|requests| - 1]);
      RunKeepsValid(db, requests[..|requests| - 1]);
      if WritesRole(last) {
        RoleRowStaysUnsuspended(mid, last.onRoles, last.scope);
      } else if !last.TenantsBecome? {
        RequestKeepsRoles(mid, last);
      }
    }
  }

  /** No request suspends a role, so after any run switching a role and back restores every table. */
  lemma RoleStatusRestoresOnRuns(db: Db, requests: seq<Request>, r: Id, scope: Option<TenantId>)
    requires Valid(db) && NoneSuspended(db.roles) && MutableRole(Run(db, requests), r, scope) == Done
    ensures var now := Run(db, requests);
            HandleRole(HandleRole(now, UpdateRole(r, Some(INACTIVE)), scope).0,
                       UpdateRole(r, Some(now.roles[r].status)), scope) == (now, Done)
  {
    RunKeepsUnsuspended(db, requests);
    RoleStatusRestoresIff(Run(db, requests), r, scope);
  }

  lemma RetireKeepsIds(t: Table, gone: set<Id>, l: Id, r: Id, n: Id)
    requires Related(t, l, r)
    ensures IdAfterPut(Retire(t, gone), l, r, n) == n
  {
    var i :| i in t && Joins(t[i], l, r);
    assert i in Retire(t, gone) && Joins(Retire(t, gone)[i], l, r);
  }

  /**
   A removed member can be added again exactly while the user is not deleted, and that
   restores every table.
   */
  lemma MemberReturnsIff(db: Db, g: Id, u: Id, scope: Option<TenantId>)
    requires Valid(db) && HandleGroup(db, RemoveMember(g, u), scope).1 == Done
    ensures var removed := HandleGroup(db, RemoveMember(g, u), scope).0;
            HandleGroup(removed, AddMember(g, u), scope)
            == if db.users[u].isDeleted then (removed, NotFound) else (db, Done)
  {
    RetireThenPut(db.groupMembers, g, u, db.nextId);
    RetireBetweenRelates(db.groupMembers, g, {u});
    RetireKeepsIds(db.groupMembers, LiveBetween(db.groupMembers, g, {u}), g, u, db.nextId);
  }

  /** A revoked group role can be assigned again exactly while the role is live and ACTIVE. */
  lemma GroupRoleReturnsIff(db: Db, g: Id, r: Id, scope: Option<TenantId>)
    requires Valid(db) && HandleGroup(db, RevokeGroupRole(g, r), scope).1 == Done
    ensures var revoked := HandleGroup(db, RevokeGroupRole(g, r), scope).0;
            HandleGroup(revoked, AssignGroupRole(g, r), scope)
            == if RoleActive(db, r) then (db, Done) else (revoked, NotFound)
  {
    RetireThenPut(db.groupRoles, g, r, db.nextId);
    RetireBetweenRelates(db.groupRoles, g, {r});
    RetireKeepsIds(db.groupRoles, LiveBetween(db.groupRoles, g, {r}), g, r, db.nextId);
  }

  /** So can a role revoked from a user. */
  lemma UserRoleReturnsIff(db: Db, u: Id, r: Id, scope: Option<TenantId>)
    requires Valid(db) && HandleUser(db, RevokeUserRole(u, r), scope).1 == Done
    ensures var revoked := HandleUser(db, RevokeUserRole(u, r), scope).0;
            HandleUser(revoked, AssignUserRole(u, r), scope)
            == if RoleActive(db, r) then (db, Done) else (revoked, NotFound)
  {
    RetireThenPut(db.userRoles, u, r, db.nextId);
    RetireBetweenRelates(db.userRoles, u, {r});
    RetireKeepsIds(db.userRoles, LiveBetween(db.userRoles, u, {r}), u, r, db.nextId);
  }

  /** A revoked grant can always be granted again. */
  lemma GrantReturns(db: Db, r: Id, p: Id, scope: Option<TenantId>)
    requires Valid(db) && HandleRole(db, RevokePermission(r, p), scope).1 == Done
    ensures HandleRole(HandleRole(db, RevokePermission(r, p), scope).0, GrantPermission(r, p), scope) == (db, Done)
  {
    RetireThenPut(db.rolePermissions, r, p, db.nextId);
    RetireBetweenRelates(db.rolePermissions, r, {p});
    RetireKeepsIds(db.rolePermissions, LiveBetween(db.rolePermissions, r, {p}), r, p, db.nextId);
  }

  // ---------------------------------------------------------------- a role given by code

  /**
   An update naming a role gives that global role exactly when the user had it or never did:
   a soft-deleted row is left as it is.  Every other pair stays as it was.
   */
  lemma RoleByCodeGivenIff(db: Db, u: Id, r: Id, code: string, scope: Option<TenantId>)
    requires Valid(db) && UserFound(db, u, scope) && GlobalRole(db.roles, r, code)
    ensures var (after, outcome) := HandleUser(db, UpdateUser(u, Some(code)), scope);
            && outcome == Done
            && (Related(after.userRoles, u, r) <==> HasRow(db.userRoles, u, r) ==> Related(db.userRoles, u, r))
            && forall a, b :: a != u || b != r ==> (Related(after.userRoles, a, b) <==> Related(db.userRoles, a, b))
  {
    assert GlobalRoleOf(db.roles, code) == Some(r) by {
      assert RolesDistinct(db.roles);
    }
    if !HasRow(db.userRoles, u, r) {
      PutRelates(db.userRoles, u, r, db.nextId);
    }
  }
}
