/**
 Role, group and user requests that carry the scope of one tenant change nothing outside it:
 users of other tenants keep exactly the access they had.  Whose requests carry which scope is
 the subject of `Confinement`.
 */
module TenantIsolation {
  import opened Options
  import opened Links
  import opened RbacModel
  import opened RbacInvariant
  import opened EffectiveAccess

  /** The rows that start at l are the same. */
  predicate KeepsFrom(before: Table, after: Table, l: Id) {
    && (forall i :: i in before && before[i].left == l ==> i in after && after[i] == before[i])
    && (forall i :: i in after && after[i].left == l ==> i in before && after[i] == before[i])
  }

  predicate RolesOutside(db: Db, after: Db, t: TenantId) {
    forall r :: r in db.roles && db.roles[r].tenant != Some(t) ==> r in after.roles && after.roles[r] == db.roles[r]
  }

  predicate GrantsOutside(db: Db, after: Db, t: TenantId) {
    forall r :: r in db.roles && db.roles[r].tenant != Some(t) ==>
      KeepsFrom(db.rolePermissions, after.rolePermissions, r)
  }

  predicate GroupsOutside(db: Db, after: Db, t: TenantId) {
    && (forall g :: g in db.groups && db.groups[g].tenant != t ==>
          && g in after.groups && after.groups[g] == db.groups[g]
          && KeepsFrom(db.groupMembers, after.groupMembers, g) && KeepsFrom(db.groupRoles, after.groupRoles, g))
    && (forall g :: g in after.groups && after.groups[g].tenant != t ==>
          g in db.groups && db.groups[g] == after.groups[g])
  }

  predicate UsersOutside(db: Db, after: Db, t: TenantId) {
    forall u :: u in db.users && db.users[u].tenant != Some(t) ==>
      u in after.users && after.users[u] == db.users[u] && KeepsFrom(db.userRoles, after.userRoles, u)
  }

  /** Roles, groups and users outside t, and the links between them, are the same. */
  predicate LinksOutside(db: Db, after: Db, t: TenantId) {
    RolesOutside(db, after, t) && GroupsOutside(db, after, t) && UsersOutside(db, after, t)
  }

  /** So is everything else of other tenants, and everything global. */
  predicate SameOutside(db: Db, after: Db, t: TenantId) {
    && after.permissions == db.permissions && after.modules == db.modules
    && GrantsOutside(db, after, t) && LinksOutside(db, after, t)
  }

  // ---------------------------------------------------------------- every confined request stays inside

  /** Rows that do not start at l are the same. */
  predicate OnlyFrom(before: Table, after: Table, l: Id) {
    && (forall i :: i in before && before[i].left != l ==> i in after && after[i] == before[i])
    && (forall i :: i in after && after[i].left != l ==> i in before && after[i] == before[i])
  }

  lemma OthersKeepFrom(before: Table, after: Table, l: Id, other: Id)
    requires OnlyFrom(before, after, l) && other != l
    ensures KeepsFrom(before, after, other)
  {
  }

  lemma PutOnlyFrom(t: Table, l: Id, r: Id, newId: Id)
    requires newId !in t
    ensures OnlyFrom(t, Put(t, l, r, newId), l)
  {
  }

  lemma RetireOnlyFrom(t: Table, gone: set<Id>, l: Id)
    requires forall i :: i in gone && i in t ==> t[i].left == l
    ensures OnlyFrom(t, Retire(t, gone), l)
  {
  }

  lemma {:induction false} GrantAllOnlyFrom(db: Db, r: Id, ids: seq<Id>)
    requires Below(db.rolePermissions.Keys, db.nextId)
    ensures var after := GrantAll(db, r, ids).0;
            OnlyFrom(db.rolePermissions, after.rolePermissions, r)
    decreases ids
  {
    if ids != [] && PermissionLive(db, ids[0]) {
      PutOnlyFrom(db.rolePermissions, r, ids[0], db.nextId);
      GrantAllOnlyFrom(Grant(db, r, ids[0]), r, ids[1..]);
    }
  }

  lemma GrantsInside(db: Db, grants: Table, nextId: Id, r: Id, t: TenantId)
    requires OnlyFrom(db.rolePermissions, grants, r) && (r in db.roles ==> db.roles[r].tenant == Some(t))
    ensures SameOutside(db, db.(rolePermissions := grants, nextId := nextId), t)
  {
  }

  lemma RoleInside(db: Db, r: Id, row: Role, nextId: Id, t: TenantId)
    requires r in db.roles ==> db.roles[r].tenant == Some(t)
    ensures SameOutside(db, db.(roles := db.roles[r := row], nextId := nextId), t)
  {
  }

  lemma NothingInside(db: Db, t: TenantId)
    ensures SameOutside(db, db, t)
  {
  }

  lemma RevokeInside(db: Db, r: Id, ids: set<Id>, t: TenantId)
    requires r in db.roles && db.roles[r].tenant == Some(t)
    ensures SameOutside(db, RevokeAmong(db, r, ids), t)
  {
    RetireOnlyFrom(db.rolePermissions, LiveBetween(db.rolePermissions, r, ids), r);
    GrantsInside(db, RevokeAmong(db, r, ids).rolePermissions, db.nextId, r, t);
  }

  lemma MutableRoleInside(db: Db, request: RoleRequest, t: TenantId)
    requires Numbered(db) && !request.CreateRole? && MutableRole(db, request.roleId, Some(t)) == Done
    ensures SameOutside(db, HandleRole(db, request, Some(t)).0, t)
  {
    NothingInside(db, t);
    match request
    case UpdateRole(r, status) => RoleInside(db, r, db.roles[r].(status := GetOr(status, ACTIVE)), db.nextId, t);
    case DeleteRole(r) => RoleInside(db, r, db.roles[r].(isDeleted := true), db.nextId, t);
    case GrantPermission(r, p) =>
      PutOnlyFrom(db.rolePermissions, r, p, db.nextId);
      GrantsInside(db, Grant(db, r, p).rolePermissions, Grant(db, r, p).nextId, r, t);
    case RevokePermission(r, p) => RevokeInside(db, r, {p}, t);
    case BatchPermissions(r, ids, _) =>
      RevokeInside(db, r, (set p | p in ids), t);
      GrantAllOnlyFrom(db, r, ids);
      GrantsInside(db, GrantAll(db, r, ids).0.rolePermissions, GrantAll(db, r, ids).0.nextId, r, t);
  }

  lemma RoleRequestStaysInside(db: Db, request: RoleRequest, t: TenantId)
    requires Numbered(db)
    ensures SameOutside(db, HandleRole(db, request, Some(t)).0, t)
  {
    NothingInside(db, t);
    if HandleRole(db, request, Some(t)).1 == Done && request.CreateRole? {
      assert db.nextId !in db.roles;
      RoleInside(db, db.nextId, Role(RoleTenant(db, request.tenant, Some(t)).0, request.roleCode, false,
                                     GetOr(request.status, ACTIVE), false), db.nextId + 1, t);
    } else if !request.CreateRole? && MutableRole(db, request.roleId, Some(t)) == Done {
      MutableRoleInside(db, request, t);
    }
  }

  /** A group of t, and links that start at it, may change. */
  lemma GroupInside(db: Db, g: Id, row: Group, members: Table, groupRoles: Table, nextId: Id, t: TenantId)
    requires (g in db.groups ==> db.groups[g].tenant == t) && row.tenant == t
    requires OnlyFrom(db.groupMembers, members, g) && OnlyFrom(db.groupRoles, groupRoles, g)
    ensures SameOutside(db, db.(groups := db.groups[g := row], groupMembers := members, groupRoles := groupRoles,
                                nextId := nextId), t)
  {
    forall h | h in db.groups && db.groups[h].tenant != t
      ensures KeepsFrom(db.groupMembers, members, h) && KeepsFrom(db.groupRoles, groupRoles, h)
    {
      OthersKeepFrom(db.groupMembers, members, g, h);
      OthersKeepFrom(db.groupRoles, groupRoles, g, h);
    }
    NothingInside(db, t);
  }

  lemma GroupPutsInside(db: Db, request: GroupRequest, t: TenantId)
    requires Numbered(db) && HandleGroup(db, request, Some(t)).1 == Done
    requires request.AddMember? || request.AssignGroupRole?
    ensures SameOutside(db, HandleGroup(db, request, Some(t)).0, t)
  {
    var g := request.groupId;
    var after := HandleGroup(db, request, Some(t)).0;
    if request.AddMember? {
      PutOnlyFrom(db.groupMembers, g, request.userId, db.nextId);
    } else {
      PutOnlyFrom(db.groupRoles, g, request.roleId, db.nextId);
    }
    GroupInside(db, g, db.groups[g], after.groupMembers, after.groupRoles, after.nextId, t);
    assert db.groups[g := db.groups[g]] == db.groups;
  }

  lemma GroupRetiresInside(db: Db, request: GroupRequest, t: TenantId)
    requires HandleGroup(db, request, Some(t)).1 == Done && (request.RemoveMember? || request.RevokeGroupRole?)
    ensures SameOutside(db, HandleGroup(db, request, Some(t)).0, t)
  {
    var g := request.groupId;
    var after := HandleGroup(db, request, Some(t)).0;
    if request.RemoveMember? {
      RetireOnlyFrom(db.groupMembers, LiveBetween(db.groupMembers, g, {request.userId}), g);
    } else {
      RetireOnlyFrom(db.groupRoles, LiveBetween(db.groupRoles, g, {request.roleId}), g);
    }
    GroupInside(db, g, db.groups[g], after.groupMembers, after.groupRoles, db.nextId, t);
    assert db.groups[g := db.groups[g]] == db.groups;
  }

  lemma GroupRowInside(db: Db, request: GroupRequest, t: TenantId)
    requires Numbered(db) && HandleGroup(db, request, Some(t)).1 == Done
    requires request.CreateGroup? || request.UpdateGroup? || request.DeleteGroup?
    ensures SameOutside(db, HandleGroup(db, request, Some(t)).0, t)
  {
    var after := HandleGroup(db, request, Some(t)).0;
    match request
    case CreateGroup(_, code, status) =>
      assert db.nextId !in db.groups;
      GroupInside(db, db.nextId, Group(t, code, GetOr(status, ACTIVE), false), db.groupMembers, db.groupRoles,
                  db.nextId + 1, t);
    case UpdateGroup(g, _, status) =>
      GroupInside(db, g, db.groups[g].(status := GetOr(status, db.groups[g].status)), db.groupMembers, db.groupRoles,
                  db.nextId, t);
    case DeleteGroup(g) =>
      RetireOnlyFrom(db.groupMembers, LiveFrom(db.groupMembers, g), g);
      RetireOnlyFrom(db.groupRoles, LiveFrom(db.groupRoles, g), g);
      GroupInside(db, g, db.groups[g].(isDeleted := true), after.groupMembers, after.groupRoles, db.nextId, t);
  }

  lemma GroupRequestStaysInside(db: Db, request: GroupRequest, t: TenantId)
    requires Numbered(db)
    ensures SameOutside(db, HandleGroup(db, request, Some(t)).0, t)
  {
    NothingInside(db, t);
    if HandleGroup(db, request, Some(t)).1 == Done {
      if request.AddMember? || request.AssignGroupRole? {
        GroupPutsInside(db, request, t);
      } else if request.RemoveMember? || request.RevokeGroupRole? {
        GroupRetiresInside(db, request, t);
      } else {
        GroupRowInside(db, request, t);
      }
    }
  }

  /** A user of t, and role links that start at it, may change. */
  lemma UserInside(db: Db, u: Id, row: User, userRoles: Table, nextId: Id, t: TenantId)
    requires (u in db.users ==> db.users[u].tenant == Some(t)) && OnlyFrom(db.userRoles, userRoles, u)
    ensures SameOutside(db, db.(users := db.users[u := row], userRoles := userRoles, nextId := nextId), t)
  {
  }

  lemma InsertOnlyFrom(t: Table, l: Id, r: Id, newId: Id)
    requires newId !in t
    ensures OnlyFrom(t, t[newId := Link(l, r, false)], l)
  {
  }

  lemma AssignByCodeInside(db: Db, u: Id, code: string)
    requires Below(db.userRoles.Keys, db.nextId)
    ensures var after := AssignByCode(db, u, code);
            OnlyFrom(db.userRoles, after.userRoles, u)
  {
    var role := GlobalRoleOf(db.roles, code);
    if role.Some? && !HasRow(db.userRoles, u, role.value) {
      InsertOnlyFrom(db.userRoles, u, role.value, db.nextId);
    }
  }

  lemma NewUserInside(db: Db, request: UserRequest, t: TenantId)
    requires Numbered(db) && (request.CreateUser? || request.RegisterUser?)
    requires HandleUser(db, request, Some(t)).1 == Done
    ensures SameOutside(db, HandleUser(db, request, Some(t)).0, t)
  {
    var after := HandleUser(db, request, Some(t)).0;
    var u := db.nextId;
    assert u !in db.users;
    if request.CreateUser? {
      AssignByCodeInside(AddUser(db, RoleTenant(db, request.tenant, Some(t)).0), u, request.code);
    }
    UserInside(db, u, after.users[u], after.userRoles, after.nextId, t);
  }

  lemma UserRowKept(db: Db, request: UserRequest, t: TenantId)
    requires !request.CreateUser? && !request.RegisterUser? && HandleUser(db, request, Some(t)).1 == Done
    ensures var after := HandleUser(db, request, Some(t)).0;
            && request.userId in db.users && db.users[request.userId].tenant == Some(t)
            && request.userId in after.users && after.users == db.users[request.userId := after.users[request.userId]]
  {
  }

  lemma UserLinksInside(db: Db, request: UserRequest, t: TenantId)
    requires Numbered(db) && !request.CreateUser? && !request.RegisterUser?
    requires HandleUser(db, request, Some(t)).1 == Done
    ensures OnlyFrom(db.userRoles, HandleUser(db, request, Some(t)).0.userRoles, request.userId)
  {
    match request
    case UpdateUser(u, code) => if code.Some? { AssignByCodeInside(db, u, code.value); }
    case AssignUserRole(u, r) => PutOnlyFrom(db.userRoles, u, r, db.nextId);
    case RevokeUserRole(u, r) => RetireOnlyFrom(db.userRoles, LiveBetween(db.userRoles, u, {r}), u);
    case DeleteUser(u, _) =>
  }

  lemma KnownUserInside(db: Db, request: UserRequest, t: TenantId)
    requires Numbered(db) && !request.CreateUser? && !request.RegisterUser?
    requires HandleUser(db, request, Some(t)).1 == Done
    ensures SameOutside(db, HandleUser(db, request, Some(t)).0, t)
  {
    var after := HandleUser(db, request, Some(t)).0;
    UserRowKept(db, request, t);
    UserLinksInside(db, request, t);
    UserInside(db, request.userId, after.users[request.userId], after.userRoles, after.nextId, t);
  }

  lemma UserRequestStaysInside(db: Db, request: UserRequest, t: TenantId)
    requires Numbered(db)
    ensures SameOutside(db, HandleUser(db, request, Some(t)).0, t)
  {
    NothingInside(db, t);
    if HandleUser(db, request, Some(t)).1 == Done {
      if request.CreateUser? || request.RegisterUser? {
        NewUserInside(db, request, t);
      } else {
        KnownUserInside(db, request, t);
      }
    }
  }

  // ---------------------------------------------------------------- so access outside is the same

  predicate Outsider(db: Db, u: Id, t: TenantId) {
    u in db.users && db.users[u].tenant != Some(t)
  }

  lemma DirectRowsSame(db: Db, after: Db, t: TenantId, u: Id, i: Id)
    requires Valid(db) && LinksOutside(db, after, t) && Outsider(db, u, t)
    ensures DirectRow(after, u, i) <==> DirectRow(db, u, i)
    ensures DirectRow(db, u, i) ==> after.userRoles[i] == db.userRoles[i]
  {
  }

  /** A live membership of an outsider is in a group outside t, before and after. */
  lemma MembershipsOutside(db: Db, after: Db, t: TenantId, u: Id, m: Id)
    requires Valid(db) && Valid(after) && LinksOutside(db, after, t) && Outsider(db, u, t)
    requires (m in db.groupMembers && db.groupMembers[m].right == u && !db.groupMembers[m].isDeleted)
          || (m in after.groupMembers && after.groupMembers[m].right == u && !after.groupMembers[m].isDeleted)
    ensures m in db.groupMembers && m in after.groupMembers && after.groupMembers[m] == db.groupMembers[m]
    ensures var g := db.groupMembers[m].left; g in db.groups && db.groups[g].tenant != t
  {
  }

  lemma GroupRowsSame(db: Db, after: Db, t: TenantId, u: Id, m: Id, a: Id)
    requires Valid(db) && Valid(after) && LinksOutside(db, after, t) && Outsider(db, u, t)
    ensures GroupRow(after, u, m, a) <==> GroupRow(db, u, m, a)
    ensures GroupRow(db, u, m, a) ==> after.groupRoles[a] == db.groupRoles[a]
  {
    if GroupRow(after, u, m, a) || GroupRow(db, u, m, a) {
      MembershipsOutside(db, after, t, u, m);
      var g := db.groupMembers[m].left;
      assert after.groups[g] == db.groups[g] && KeepsFrom(db.groupRoles, after.groupRoles, g);
      assert a in db.groupRoles && after.groupRoles[a] == db.groupRoles[a];
      var r := db.groupRoles[a].right;
      assert r in db.roles && Reaches(db.roles[r], Some(db.groups[g].tenant));
      assert after.roles[r] == db.roles[r];
    }
  }

  lemma SourcesSame(db: Db, after: Db, t: TenantId, u: Id)
    requires Valid(db) && Valid(after) && LinksOutside(db, after, t) && Outsider(db, u, t)
    ensures ActiveRoleSources(after, u) == ActiveRoleSources(db, u)
  {
    forall i
      ensures DirectRow(after, u, i) <==> DirectRow(db, u, i)
      ensures DirectRow(db, u, i) ==> after.userRoles[i] == db.userRoles[i]
    {
      DirectRowsSame(db, after, t, u, i);
    }
    forall m, a
      ensures GroupRow(after, u, m, a) <==> GroupRow(db, u, m, a)
      ensures GroupRow(db, u, m, a) ==> after.groupRoles[a] == db.groupRoles[a]
    {
      GroupRowsSame(db, after, t, u, m, a);
    }
  }

  lemma SourceRoleOutside(db: Db, t: TenantId, u: Id, s: Source)
    requires Valid(db) && Outsider(db, u, t) && s in ActiveRoleSources(db, u)
    ensures s.role in db.roles && db.roles[s.role].tenant != Some(t)
  {
  }

  lemma GrantRowsSame(db: Db, after: Db, t: TenantId, u: Id, s: Source, i: Id)
    requires Valid(db) && SameOutside(db, after, t) && Outsider(db, u, t) && s in ActiveRoleSources(db, u)
    ensures GrantRow(after, s.role, i) <==> GrantRow(db, s.role, i)
    ensures GrantRow(db, s.role, i) ==> after.rolePermissions[i] == db.rolePermissions[i]
  {
    SourceRoleOutside(db, t, u, s);
    assert KeepsFrom(db.rolePermissions, after.rolePermissions, s.role);
  }

  lemma JoinsSame(db: Db, after: Db, t: TenantId, u: Id)
    requires Valid(db) && SameOutside(db, after, t) && Outsider(db, u, t)
    ensures JoinedRows(after, ActiveRoleSources(db, u)) == JoinedRows(db, ActiveRoleSources(db, u))
  {
    forall s, i | s in ActiveRoleSources(db, u)
      ensures GrantRow(after, s.role, i) <==> GrantRow(db, s.role, i)
      ensures GrantRow(db, s.role, i) ==> after.rolePermissions[i] == db.rolePermissions[i]
    {
      GrantRowsSame(db, after, t, u, s, i);
    }
  }

  lemma SameJoinsSameListing(db: Db, after: Db, sources: set<Source>)
    requires after.permissions == db.permissions && after.modules == db.modules
    requires JoinedRows(after, sources) == JoinedRows(db, sources)
    ensures EffectiveOf(after, sources) == EffectiveOf(db, sources)
  {
  }

  lemma ListingSame(db: Db, after: Db, t: TenantId, u: Id)
    requires Valid(db) && Valid(after) && SameOutside(db, after, t) && Outsider(db, u, t)
    ensures ListEffectivePermissions(after, u) == ListEffectivePermissions(db, u)
  {
    SourcesSame(db, after, t, u);
    JoinsSame(db, after, t, u);
    SameJoinsSameListing(db, after, ActiveRoleSources(db, u));
  }

  // ---------------------------------------------------------------- runs

  /** A role, group or user request that carries the scope t. */
  predicate Confined(request: Request, t: TenantId) {
    match request
    case ToRoles(_, scope) => scope == Some(t)
    case ToGroups(_, scope) => scope == Some(t)
    case ToUsers(_, scope) => scope == Some(t)
    case _ => false
  }

  lemma RequestStaysInside(db: Db, request: Request, t: TenantId)
    requires Valid(db) && Confined(request, t)
    ensures SameOutside(db, Handle(db, request).0, t)
  {
    match request
    case ToRoles(r, _) => RoleRequestStaysInside(db, r, t);
    case ToGroups(r, _) => GroupRequestStaysInside(db, r, t);
    case ToUsers(r, _) => UserRequestStaysInside(db, r, t);
    case _ =>
  }

  /**
   Over any run of requests that carry the scope t, every user outside t keeps the same row, the
   same role sources and the same effective permissions.
   */
  lemma {:induction false} ConfinedRunsStayInside(db: Db, requests: seq<Request>, t: TenantId, u: Id)
    requires Valid(db) && Outsider(db, u, t)
    requires forall i :: 0 <= i < |requests| ==> Confined(requests[i], t)
    ensures var after := Run(db, requests);
            && u in after.users && after.users[u] == db.users[u]
            && ActiveRoleSources(after, u) == ActiveRoleSources(db, u)
            && ListEffectivePermissions(after, u) == ListEffectivePermissions(db, u)
  {
    if requests != [] {
      var front := requests[..|requests| - 1];
      var last := requests[|requests| - 1];
      ConfinedRunsStayInside(db, front, t, u);
      RunKeepsValid(db, front);
      var mid := Run(db, front);
      HandleKeepsValid(mid, last);
      RequestStaysInside(mid, last, t);
      SourcesSame(mid, Handle(mid, last).0, t, u);
      ListingSame(mid, Handle(mid, last).0, t, u);
    }
  }
}
