/**
 The queries that say what a user may do: the rows of the active role sources, the permission
 codes a session carries, and the listing an administrator reads.
 */
module EffectiveAccess {
  import opened Options
  import opened Links
  import opened RbacModel
  import opened RbacInvariant

  // ---------------------------------------------------------------- the queries

  /** One row of the UNION ALL, named by the table rows it comes from, so that equal role ids stay apart. */
  datatype Source =
    | Direct(assignment: Id, role: Id)
    | ViaGroup(membership: Id, groupRole: Id, role: Id)

  predicate RoleActive(db: Db, r: Id) {
    RoleLive(db, r) && db.roles[r].status == ACTIVE
  }

  predicate GroupActive(db: Db, g: Id) {
    g in db.groups && !db.groups[g].isDeleted && db.groups[g].status == ACTIVE
  }

  predicate DirectRow(db: Db, u: Id, i: Id) {
    && i in db.userRoles && db.userRoles[i].left == u && !db.userRoles[i].isDeleted
    && RoleActive(db, db.userRoles[i].right)
  }

  predicate GroupRow(db: Db, u: Id, m: Id, a: Id) {
    && m in db.groupMembers && db.groupMembers[m].right == u && !db.groupMembers[m].isDeleted
    && GroupActive(db, db.groupMembers[m].left)
    && a in db.groupRoles && db.groupRoles[a].left == db.groupMembers[m].left && !db.groupRoles[a].isDeleted
    && RoleActive(db, db.groupRoles[a].right)
  }

  /** ACTIVE_ROLE_SOURCES_SQL */
  function ActiveRoleSources(db: Db, u: Id): set<Source> {
    (set i | i in db.userRoles && DirectRow(db, u, i) :: Direct(i, db.userRoles[i].right))
    + (set m, a | m in db.groupMembers && a in db.groupRoles && GroupRow(db, u, m, a)
         :: ViaGroup(m, a, db.groupRoles[a].right))
  }

  predicate GrantRow(db: Db, r: Id, i: Id) {
    && i in db.rolePermissions && db.rolePermissions[i].left == r && !db.rolePermissions[i].isDeleted
    && PermissionLive(db, db.rolePermissions[i].right)
  }

  /** `resolvePermissions` over given role sources. */
  function CodesOf(db: Db, sources: set<Source>): set<string> {
    set s, i | s in sources && i in db.rolePermissions && GrantRow(db, s.role, i)
      :: db.permissions[db.rolePermissions[i].right].permissionCode
  }

  function ResolvePermissions(db: Db, u: Id): set<string> {
    CodesOf(db, ActiveRoleSources(db, u))
  }

  /** A row of the second query before grouping: it joins the permission's module as well. */
  datatype JoinedRow = JoinedRow(source: Source, grant: Id, permissionId: Id)

  function JoinedRows(db: Db, sources: set<Source>): set<JoinedRow> {
    set s, i | s in sources && i in db.rolePermissions && GrantRow(db, s.role, i)
               && ModuleLive(db, db.permissions[db.rolePermissions[i].right].moduleId)
      :: JoinedRow(s, i, db.rolePermissions[i].right)
  }

  datatype Effective = Effective(
    permissionId: Id, permissionCode: string, moduleId: Id, moduleCode: string, operation: Operation,
    direct: bool, inherited: bool)

  /** One output row per group, with the two BOOL_OR columns. */
  function Grouped(db: Db, rows: set<JoinedRow>, p: Id): Effective
    requires p in db.permissions && db.permissions[p].moduleId in db.modules
  {
    var permission := db.permissions[p];
    Effective(p, permission.permissionCode, permission.moduleId, db.modules[permission.moduleId].moduleCode,
              permission.operation,
              exists row :: row in rows && row.permissionId == p && row.source.Direct?,
              exists row :: row in rows && row.permissionId == p && row.source.ViaGroup?)
  }

  /** `listEffectivePermissions` over given role sources. */
  function EffectiveOf(db: Db, sources: set<Source>): set<Effective> {
    var rows := JoinedRows(db, sources);
    set row | row in rows :: Grouped(db, rows, row.permissionId)
  }

  function ListEffectivePermissions(db: Db, u: Id): set<Effective> {
    EffectiveOf(db, ActiveRoleSources(db, u))
  }

  // ---------------------------------------------------------------- what access means

  predicate Confers(db: Db, r: Id, p: Id) {
    RoleActive(db, r) && Related(db.rolePermissions, r, p) && PermissionLive(db, p)
  }

  ghost predicate HasDirectly(db: Db, u: Id, p: Id) {
    exists r :: Related(db.userRoles, u, r) && Confers(db, r, p)
  }

  ghost predicate HasThroughGroup(db: Db, u: Id, p: Id) {
    exists g, r :: Related(db.groupMembers, g, u) && GroupActive(db, g) && Related(db.groupRoles, g, r)
                   && Confers(db, r, p)
  }

  /** A source row with a given role is exactly a live direct or group link to it. */
  lemma SourcesAreLinks(db: Db, u: Id, r: Id)
    ensures (exists s :: s in ActiveRoleSources(db, u) && s.Direct? && s.role == r)
       <==> Related(db.userRoles, u, r) && RoleActive(db, r)
    ensures (exists s :: s in ActiveRoleSources(db, u) && s.ViaGroup? && s.role == r)
       <==> RoleActive(db, r)
            && exists g :: Related(db.groupMembers, g, u) && GroupActive(db, g) && Related(db.groupRoles, g, r)
  {
    var sources := ActiveRoleSources(db, u);
    if Related(db.userRoles, u, r) && RoleActive(db, r) {
      var i :| i in db.userRoles && Joins(db.userRoles[i], u, r) && !db.userRoles[i].isDeleted;
      assert DirectRow(db, u, i);
      assert Direct(i, r) in sources;
    }
    if g :| RoleActive(db, r) && Related(db.groupMembers, g, u) && GroupActive(db, g) && Related(db.groupRoles, g, r) {
      var m :| m in db.groupMembers && Joins(db.groupMembers[m], g, u) && !db.groupMembers[m].isDeleted;
      var a :| a in db.groupRoles && Joins(db.groupRoles[a], g, r) && !db.groupRoles[a].isDeleted;
      assert GroupRow(db, u, m, a);
      assert ViaGroup(m, a, r) in sources;
    }
    if s :| s in sources && s.ViaGroup? && s.role == r {
      assert GroupRow(db, u, s.membership, s.groupRole);
      assert Related(db.groupMembers, db.groupMembers[s.membership].left, u);
      assert Related(db.groupRoles, db.groupMembers[s.membership].left, r);
    }
    if s :| s in sources && s.Direct? && s.role == r {
      assert DirectRow(db, u, s.assignment);
    }
  }

  lemma JoinedRowsAreGrants(db: Db, sources: set<Source>, s: Source, p: Id)
    requires GrantsSound(db.rolePermissions, db.permissions) && PermissionsHaveModules(db.modules, db.permissions)
    ensures (exists row :: row in JoinedRows(db, sources) && row.source == s && row.permissionId == p)
       <==> s in sources && Related(db.rolePermissions, s.role, p)
  {
    if s in sources && Related(db.rolePermissions, s.role, p) {
      var i :| i in db.rolePermissions && Joins(db.rolePermissions[i], s.role, p) && !db.rolePermissions[i].isDeleted;
      assert GrantRow(db, s.role, i);
      assert JoinedRow(s, i, p) in JoinedRows(db, sources);
    }
  }

  lemma DirectRowsOf(db: Db, u: Id, p: Id)
    requires Valid(db)
    ensures (exists row ::
               row in JoinedRows(db, ActiveRoleSources(db, u)) && row.permissionId == p && row.source.Direct?)
       <==> HasDirectly(db, u, p)
  {
    var sources := ActiveRoleSources(db, u);
    if row :| row in JoinedRows(db, sources) && row.permissionId == p && row.source.Direct? {
      JoinedRowsAreGrants(db, sources, row.source, p);
      SourcesAreLinks(db, u, row.source.role);
      assert Confers(db, row.source.role, p);
    }
    if r :| Related(db.userRoles, u, r) && Confers(db, r, p) {
      SourcesAreLinks(db, u, r);
      var s :| s in sources && s.Direct? && s.role == r;
      JoinedRowsAreGrants(db, sources, s, p);
    }
  }

  lemma GroupRowsOf(db: Db, u: Id, p: Id)
    requires Valid(db)
    ensures (exists row ::
               row in JoinedRows(db, ActiveRoleSources(db, u)) && row.permissionId == p && row.source.ViaGroup?)
       <==> HasThroughGroup(db, u, p)
  {
    var sources := ActiveRoleSources(db, u);
    if row :| row in JoinedRows(db, sources) && row.permissionId == p && row.source.ViaGroup? {
      JoinedRowsAreGrants(db, sources, row.source, p);
      SourcesAreLinks(db, u, row.source.role);
      assert Confers(db, row.source.role, p);
    }
    if g, r :| Related(db.groupMembers, g, u) && GroupActive(db, g) && Related(db.groupRoles, g, r)
               && Confers(db, r, p) {
      SourcesAreLinks(db, u, r);
      var s :| s in sources && s.ViaGroup? && s.role == r;
      JoinedRowsAreGrants(db, sources, s, p);
    }
  }

  /** The direct and inherited columns and the row itself say exactly how the user has the permission. */
  lemma ListingIsExact(db: Db, u: Id, p: Id)
    requires Valid(db)
    ensures (exists e :: e in ListEffectivePermissions(db, u) && e.permissionId == p)
       <==> HasDirectly(db, u, p) || HasThroughGroup(db, u, p)
    ensures forall e :: e in ListEffectivePermissions(db, u) && e.permissionId == p ==>
              && (e.direct <==> HasDirectly(db, u, p))
              && (e.inherited <==> HasThroughGroup(db, u, p))
              && p in db.permissions && e.permissionCode == db.permissions[p].permissionCode
              && e.operation == db.permissions[p].operation && e.moduleId == db.permissions[p].moduleId
              && e.moduleId in db.modules && !db.modules[e.moduleId].isDeleted
              && e.moduleCode == db.modules[e.moduleId].moduleCode
  {
    var sources := ActiveRoleSources(db, u);
    var rows := JoinedRows(db, sources);
    DirectRowsOf(db, u, p);
    GroupRowsOf(db, u, p);
    if row :| row in rows && row.permissionId == p {
      assert Grouped(db, rows, p) in ListEffectivePermissions(db, u);
    }
  }

  // ---------------------------------------------------------------- the two queries agree

  lemma JoinDropsNothing(db: Db, sources: set<Source>)
    requires PermissionsHaveModules(db.modules, db.permissions)
    ensures forall s, i :: s in sources && i in db.rolePermissions && GrantRow(db, s.role, i) ==>
              JoinedRow(s, i, db.rolePermissions[i].right) in JoinedRows(db, sources)
  {
  }

  predicate OncePerCode(listed: set<Effective>) {
    forall e, f :: e in listed && f in listed && e.permissionCode == f.permissionCode ==> e == f
  }

  lemma CodesAgree(db: Db, sources: set<Source>)
    requires PermissionsHaveModules(db.modules, db.permissions) && PermissionsDistinct(db.permissions)
    ensures (set e | e in EffectiveOf(db, sources) :: e.permissionCode) == CodesOf(db, sources)
    ensures OncePerCode(EffectiveOf(db, sources))
  {
    var rows := JoinedRows(db, sources);
    var listed := set e | e in EffectiveOf(db, sources) :: e.permissionCode;
    JoinDropsNothing(db, sources);
    forall code | code in CodesOf(db, sources)
      ensures code in listed
    {
      var s, i :| s in sources && i in db.rolePermissions && GrantRow(db, s.role, i)
                  && db.permissions[db.rolePermissions[i].right].permissionCode == code;
      assert Grouped(db, rows, db.rolePermissions[i].right) in EffectiveOf(db, sources);
    }
    forall code | code in listed
      ensures code in CodesOf(db, sources)
    {
      var row :| row in rows && db.permissions[row.permissionId].permissionCode == code;
      assert GrantRow(db, row.source.role, row.grant);
    }
  }

  /** In every state a run reaches, both queries return the same codes, and each code once. */
  lemma QueriesAgreeOnEveryRun(db: Db, requests: seq<Request>, u: Id)
    requires Valid(db)
    ensures var after := Run(db, requests);
            && (set e | e in ListEffectivePermissions(after, u) :: e.permissionCode) == ResolvePermissions(after, u)
            && OncePerCode(ListEffectivePermissions(after, u))
  {
    RunKeepsValid(db, requests);
    CodesAgree(Run(db, requests), ActiveRoleSources(Run(db, requests), u));
  }

  // ---------------------------------------------------------------- tenants

  /** In every state a run reaches, a user's role sources are global or of the user's tenant. */
  lemma SourcesStayInTenant(db: Db, requests: seq<Request>, u: Id, s: Source)
    requires Valid(db) && s in ActiveRoleSources(Run(db, requests), u)
    ensures var after := Run(db, requests);
            && u in after.users && s.role in after.roles
            && (after.roles[s.role].tenant.None? || after.roles[s.role].tenant == after.users[u].tenant)
  {
    RunKeepsValid(db, requests);
    var after := Run(db, requests);
    match s
    case Direct(i, _) => assert DirectRow(after, u, i);
    case ViaGroup(m, a, _) => assert GroupRow(after, u, m, a);
  }

  // ---------------------------------------------------------------- the role listing

  /** A row of `listRoles`; a direct row keeps its assignment id, a group row its group. */
  datatype ListedRole = DirectRole(assignment: Id, role: Id) | GroupRole(groupId: Id, role: Id)

  /** The rows of `listRoles`: direct roles of any status, group roles as the source query takes them. */
  function ListRoles(db: Db, u: Id): set<ListedRole> {
    (set i | i in LiveFrom(db.userRoles, u) && RoleLive(db, db.userRoles[i].right)
       :: DirectRole(i, db.userRoles[i].right))
    + (set m, a | m in db.groupMembers && a in db.groupRoles && GroupRow(db, u, m, a)
         :: GroupRole(db.groupMembers[m].left, db.groupRoles[a].right))
  }

  /** What the role listing shows of a source row. */
  function Shown(db: Db, s: Source): ListedRole
    requires s.ViaGroup? ==> s.membership in db.groupMembers
  {
    match s
    case Direct(i, r) => DirectRole(i, r)
    case ViaGroup(m, _, r) => GroupRole(db.groupMembers[m].left, r)
  }

  lemma SourceRow(db: Db, u: Id, s: Source)
    requires s in ActiveRoleSources(db, u)
    ensures s.Direct? ==> DirectRow(db, u, s.assignment) && s.role == db.userRoles[s.assignment].right
    ensures s.ViaGroup? ==> GroupRow(db, u, s.membership, s.groupRole) && s.role == db.groupRoles[s.groupRole].right
  {
  }

  predicate ListedActive(db: Db, u: Id, l: ListedRole) {
    l in ListRoles(db, u) && (l.GroupRole? || RoleActive(db, l.role))
  }

  lemma SourceIsListed(db: Db, u: Id, s: Source)
    requires s in ActiveRoleSources(db, u)
    ensures s.ViaGroup? ==> s.membership in db.groupMembers
    ensures ListedActive(db, u, Shown(db, s))
  {
    SourceRow(db, u, s);
    match s
    case Direct(i, r) =>
      assert i in LiveFrom(db.userRoles, u);
      assert Shown(db, s) == DirectRole(i, db.userRoles[i].right);
    case ViaGroup(m, a, r) =>
      assert Shown(db, s) == GroupRole(db.groupMembers[m].left, db.groupRoles[a].right);
  }

  lemma ListedHasSource(db: Db, u: Id, l: ListedRole) returns (s: Source)
    requires ListedActive(db, u, l)
    ensures s in ActiveRoleSources(db, u)
    ensures s.ViaGroup? ==> s.membership in db.groupMembers
    ensures Shown(db, s) == l
  {
    if l.DirectRole? {
      assert DirectRow(db, u, l.assignment);
      s := Direct(l.assignment, l.role);
    } else {
      var m, a :| m in db.groupMembers && a in db.groupRoles && GroupRow(db, u, m, a)
                  && l == GroupRole(db.groupMembers[m].left, db.groupRoles[a].right);
      s := ViaGroup(m, a, l.role);
    }
  }

  lemma ShownApart(db: Db, u: Id, s: Source, t: Source)
    requires UniquePairs(db.groupMembers) && UniquePairs(db.groupRoles)
    requires s in ActiveRoleSources(db, u) && t in ActiveRoleSources(db, u)
    ensures s.ViaGroup? ==> s.membership in db.groupMembers
    ensures t.ViaGroup? ==> t.membership in db.groupMembers
    ensures Shown(db, s) == Shown(db, t) ==> s == t
  {
  }

  /** The listing row of a source row; other sources have none. */
  predicate Shows(db: Db, u: Id, s: Source, l: ListedRole) {
    s in ActiveRoleSources(db, u) && (s.ViaGroup? ==> s.membership in db.groupMembers) && l == Shown(db, s)
  }

  /**
   Dropping the direct roles that are not ACTIVE, the listing holds exactly one row for each
   source row and nothing else.
   */
  lemma ListingShowsSources(db: Db, u: Id)
    requires Valid(db)
    ensures forall s :: s in ActiveRoleSources(db, u) ==> exists l :: ListedActive(db, u, l) && Shows(db, u, s, l)
    ensures forall l :: ListedActive(db, u, l) ==> exists s :: Shows(db, u, s, l)
    ensures forall s, t, l :: Shows(db, u, s, l) && Shows(db, u, t, l) ==> s == t
  {
    forall s | s in ActiveRoleSources(db, u)
      ensures exists l :: ListedActive(db, u, l) && Shows(db, u, s, l)
    {
      SourceIsListed(db, u, s);
      assert Shows(db, u, s, Shown(db, s));
    }
    forall l | ListedActive(db, u, l)
      ensures exists s :: Shows(db, u, s, l)
    {
      var s := ListedHasSource(db, u, l);
      assert Shows(db, u, s, l);
    }
    forall s, t, l | Shows(db, u, s, l) && Shows(db, u, t, l)
      ensures s == t
    {
      ShownApart(db, u, s, t);
    }
  }

  /** A direct row of any status is listed exactly for a live assignment of a role that is not deleted. */
  lemma ListedDirectly(db: Db, u: Id, i: Id, r: Id)
    ensures DirectRole(i, r) in ListRoles(db, u)
       <==> && i in db.userRoles && Joins(db.userRoles[i], u, r) && !db.userRoles[i].isDeleted
            && r in db.roles && !db.roles[r].isDeleted
  {
  }

  /** A group row is listed exactly for a live membership in an ACTIVE group that has the ACTIVE role. */
  lemma ListedThroughGroup(db: Db, u: Id, g: Id, r: Id)
    ensures GroupRole(g, r) in ListRoles(db, u)
       <==> && Related(db.groupMembers, g, u) && Related(db.groupRoles, g, r)
            && g in db.groups && !db.groups[g].isDeleted && db.groups[g].status == ACTIVE
            && r in db.roles && !db.roles[r].isDeleted && db.roles[r].status == ACTIVE
  {
    if GroupRole(g, r) in ListRoles(db, u) {
      var m, a :| m in db.groupMembers && a in db.groupRoles && GroupRow(db, u, m, a)
                  && db.groupMembers[m].left == g && db.groupRoles[a].right == r;
    }
    if Related(db.groupMembers, g, u) && Related(db.groupRoles, g, r) && GroupActive(db, g) && RoleActive(db, r) {
      var m :| m in db.groupMembers && Joins(db.groupMembers[m], g, u) && !db.groupMembers[m].isDeleted;
      var a :| a in db.groupRoles && Joins(db.groupRoles[a], g, r) && !db.groupRoles[a].isDeleted;
      assert GroupRow(db, u, m, a);
    }
  }
}
