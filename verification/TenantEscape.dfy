/**
 How callers of a tenant leave it, and the exact condition under which they cannot: for all
 runs they stay confined, and users outside are safe from them, if and only if no platform
 administrator's role is within the tenant's reach.
 */
module TenantEscape {
  import opened Options
  import opened Links
  import opened RbacModel
  import opened RbacInvariant
  import opened RequestFrames
  import opened EffectiveAccess
  import opened TenantIsolation
  import opened RoleCodes
  import opened RoleClaim
  import opened Confinement
  import opened AccessChanges

  // ---------------------------------------------------------------- the way out, taken

  ghost predicate Leads(sys: System, after: System, t: TenantId) {
    exists steps: seq<Step> :: RunSteps(sys, steps, t) == after
  }

  lemma LeadsNowhere(sys: System, t: TenantId)
    ensures Leads(sys, sys, t)
  {
    assert RunSteps(sys, [], t) == sys;
  }

  lemma LeadsOn(sys: System, mid: System, step: Step, t: TenantId)
    requires Leads(sys, mid, t)
    ensures Leads(sys, Act(mid, step, t), t)
  {
    var steps: seq<Step> :| RunSteps(sys, steps, t) == mid;
    assert (steps + [step])[..|steps|] == steps;
    assert RunSteps(sys, steps + [step], t) == Act(mid, step, t);
  }

  /** Rows of users are kept; new ones may come. */
  predicate KeepsUserRows(db: Db, after: Db) {
    forall u :: u in db.users ==> u in after.users && after.users[u] == db.users[u]
  }

  /** Signing in yields a token, and an administrator's exactly when such a code is held. */
  lemma SignInLeads(sys: System, u: Id, t: TenantId) returns (after: System, token: Token)
    requires Sound(sys) && OfTenant(sys.db, u, t)
    ensures Leads(sys, after, t) && Sound(after) && after.db == sys.db && token in after.tokens
    ensures token == Token(u, HoldsAdminCode(sys.db, u))
  {
    token := Token(u, HoldsAdminCode(sys.db, u));
    after := Act(sys, SignIn(u), t);
    LeadsNowhere(sys, t);
    LeadsOn(sys, sys, SignIn(u), t);
    StepKeepsSound(sys, SignIn(u), t);
  }

  lemma ActorArises(sys: System, t: TenantId) returns (after: System, u: Id)
    requires Sound(sys) && HasUsers(sys.db, t)
    ensures Leads(sys, after, t) && OfTenant(after.db, u, t) && Sound(after)
    ensures KeepsUserRows(sys.db, after.db)
    ensures after.db.roles == sys.db.roles && after.db.tenants == sys.db.tenants
  {
    LeadsNowhere(sys, t);
    if v :| v in sys.db.users && OfTenant(sys.db, v, t) {
      after, u := sys, v;
    } else {
      u := sys.db.nextId;
      after := Act(sys, Register(Some(t)), t);
      assert u !in sys.db.users;
      assert after.db == AddUser(sys.db, Some(t));
      LeadsOn(sys, sys, Register(Some(t)), t);
      StepKeepsSound(sys, Register(Some(t)), t);
    }
  }

  // ---------------------------------------------------------------- the calls that lead out

  /** An ACTIVE administrator's role that users of t may hold. */
  predicate ArmedRole(db: Db, t: TenantId, r: Id) {
    RoleActive(db, r) && db.roles[r].roleCode in PLATFORM_ADMIN_ROLES && RbacInvariant.Reaches(db.roles[r], Some(t))
  }

  /** One call, and what it comes to. */
  lemma AnyCallLeads(sys: System, token: Token, command: Command, t: TenantId) returns (after: System)
    requires token in sys.tokens && OfTenant(sys.db, token.user, t)
    ensures Leads(sys, after, t) && after == sys.(db := AfterCall(sys.db, token, command))
  {
    after := Act(sys, Call(token, command), t);
    LeadsNowhere(sys, t);
    LeadsOn(sys, sys, Call(token, command), t);
  }

  /** One call of a confined caller. */
  lemma CallLeads(sys: System, token: Token, command: Command, t: TenantId) returns (after: System)
    requires Sound(sys) && token in sys.tokens && OfTenant(sys.db, token.user, t) && !token.platformAdmin
    requires WellFormed(command) && !OnCatalog(command)
    ensures Leads(sys, after, t) && Sound(after) && after.tokens == sys.tokens
    ensures after.db == Handle(sys.db, ToRequest(sys.db, token.user, command, Some(t))).0
  {
    ScopedCall(sys.db, token, command, t);
    after := AnyCallLeads(sys, token, command, t);
    CallKeepsSound(sys.db, token, command);
    CallGrowsUsers(sys.db, token, command);
    GrowingKeepsTokens(sys, after.db);
  }

  lemma ActivationArms(db: Db, t: TenantId, r: Id)
    requires UsableAdminRole(db, t, r) && db.roles[r].status != ACTIVE
    ensures ArmedRole(HandleRole(db, UpdateRole(r, Some(ACTIVE)), Some(t)).0, t, r)
    ensures HandleRole(db, UpdateRole(r, Some(ACTIVE)), Some(t)).0.users == db.users
  {
    assert MutableRole(db, r, Some(t)) == Done;
    assert HandleRole(db, UpdateRole(r, Some(ACTIVE)), Some(t)).0
        == db.(roles := db.roles[r := db.roles[r].(status := ACTIVE)]);
  }

  lemma CreationArms(db: Db, t: TenantId, code: string)
    requires FreeAdminCode(db, t, code)
    ensures ArmedRole(HandleRole(db, CreateRole(None, code, None), Some(t)).0, t, db.nextId)
    ensures HandleRole(db, CreateRole(None, code, None), Some(t)).0.users == db.users
  {
  }

  lemma AdminCodesObeyPattern(code: string)
    requires code in PLATFORM_ADMIN_ROLES
    ensures MatchesCodePattern(code)
  {
  }

  lemma RoleIsArmed(sys: System, token: Token, t: TenantId) returns (after: System, r: Id)
    requires Sound(sys) && token in sys.tokens && OfTenant(sys.db, token.user, t) && !token.platformAdmin
    requires AdminWithinReach(sys.db, t)
    ensures Leads(sys, after, t) && Sound(after) && token in after.tokens && after.db.users == sys.db.users
    ensures ArmedRole(after.db, t, r)
  {
    if q :| q in sys.db.roles && UsableAdminRole(sys.db, t, q) {
      r := q;
      if sys.db.roles[q].status == ACTIVE {
        LeadsNowhere(sys, t);
        after := sys;
      } else {
        after := CallLeads(sys, token, ForRoles(UpdateRole(q, Some(ACTIVE))), t);
        ActivationArms(sys.db, t, q);
      }
    } else {
      var code :| code in PLATFORM_ADMIN_ROLES && FreeAdminCode(sys.db, t, code);
      r := sys.db.nextId;
      AdminCodesObeyPattern(code);
      after := CallLeads(sys, token, ForRoles(CreateRole(None, code, None)), t);
      CreationArms(sys.db, t, code);
    }
  }

  /** A confined caller may give any user of its tenant an administrator's role, itself included. */
  lemma AssignmentMakesAdmin(db: Db, u: Id, t: TenantId, r: Id)
    requires Valid(db) && OfTenant(db, u, t) && ArmedRole(db, t, r)
    ensures var after := HandleUser(db, AssignUserRole(u, r), Some(t)).0;
            HoldsCode(after, u, db.roles[r].roleCode) && after.users == db.users
  {
    var after := HandleUser(db, AssignUserRole(u, r), Some(t)).0;
    PutRelates(db.userRoles, u, r, db.nextId);
    assert Related(after.userRoles, u, r);
    assert RoleActive(after, r);
  }

  /** Two requests of a confined caller, and it holds ADMIN: no code is reserved. */
  lemma TwoRequestsMakeAdmin(db: Db, u: Id, t: TenantId)
    requires Valid(db) && OfTenant(db, u, t) && FreeAdminCode(db, t, "ADMIN")
    ensures var created := HandleRole(db, CreateRole(None, "ADMIN", None), Some(t)).0;
            HoldsCode(HandleUser(created, AssignUserRole(u, db.nextId), Some(t)).0, u, "ADMIN")
  {
    var created := HandleRole(db, CreateRole(None, "ADMIN", None), Some(t)).0;
    RoleKeepsValid(db, CreateRole(None, "ADMIN", None), Some(t));
    CreationArms(db, t, "ADMIN");
    RoleRowWritten(db, CreateRole(None, "ADMIN", None), Some(t));
    AssignmentMakesAdmin(created, u, t, db.nextId);
  }

  lemma {:induction false} RunsCompose(sys: System, a: seq<Step>, b: seq<Step>, t: TenantId)
    ensures RunSteps(sys, a + b, t) == RunSteps(RunSteps(sys, a, t), b, t)
  {
    if b == [] {
      assert a + b == a;
    } else {
      var front := b[..|b| - 1];
      RunsCompose(sys, a, front, t);
      assert (a + b)[..|a + b| - 1] == a + front;
    }
  }

  lemma LeadsThrough(sys: System, mid: System, after: System, t: TenantId)
    requires Leads(sys, mid, t) && Leads(mid, after, t)
    ensures Leads(sys, after, t)
  {
    var a: seq<Step> :| RunSteps(sys, a, t) == mid;
    var b: seq<Step> :| RunSteps(mid, b, t) == after;
    RunsCompose(sys, a, b, t);
  }

  lemma ConfinedCallerEscapes(sys: System, first: Token, t: TenantId) returns (after: System, token: Token)
    requires Sound(sys) && first in sys.tokens && OfTenant(sys.db, first.user, t) && !first.platformAdmin
    requires AdminWithinReach(sys.db, t)
    ensures Leads(sys, after, t) && after.db.users == sys.db.users
    ensures token in after.tokens && token.user == first.user && token.platformAdmin
  {
    var armed, r := RoleIsArmed(sys, first, t);
    var given := CallLeads(armed, first, GiveRole(first.user, r), t);
    AssignmentMakesAdmin(armed.db, first.user, t, r);
    assert HoldsAdminCode(given.db, first.user);
    after, token := SignInLeads(given, first.user, t);
    LeadsThrough(sys, armed, given, t);
    LeadsThrough(sys, given, after, t);
  }

  /** From a way out, steps of t's callers lead to a live user of t with an administrator's claim. */
  lemma EscapeLeads(sys: System, t: TenantId) returns (after: System, token: Token)
    requires Sound(sys) && EscapeOpen(sys.db, t)
    ensures Leads(sys, after, t) && KeepsUserRows(sys.db, after.db)
    ensures token in after.tokens && OfTenant(after.db, token.user, t) && token.platformAdmin
  {
    var mid, u := ActorArises(sys, t);
    SameRolesSameReach(sys.db, mid.db, t);
    var signed, first := SignInLeads(mid, u, t);
    LeadsThrough(sys, mid, signed, t);
    if first.platformAdmin {
      after, token := signed, first;
    } else {
      after, token := ConfinedCallerEscapes(signed, first, t);
      LeadsThrough(sys, signed, after, t);
    }
  }

  // ---------------------------------------------------------------- the exact conditions

  /**
   Callers of t stay confined in every run exactly when none of them is unconfined now and the
   tables leave no administrator's role within their reach.
   */
  lemma CallersStayConfinedIff(sys: System, t: TenantId)
    requires Sound(sys)
    ensures (forall steps: seq<Step> :: Confinement.Confined(RunSteps(sys, steps, t), t))
       <==> Confinement.Confined(sys, t) && !EscapeOpen(sys.db, t)
  {
    if Shut(sys, t) {
      forall steps: seq<Step>
        ensures Confinement.Confined(RunSteps(sys, steps, t), t)
      {
        RunKeepsShut(sys, steps, t);
      }
    } else {
      var after, token := sys, Token(0, false);
      if Confinement.Confined(sys, t) {
        after, token := EscapeLeads(sys, t);
      } else {
        LeadsNowhere(sys, t);
      }
      var steps: seq<Step> :| RunSteps(sys, steps, t) == after;
      assert !Confinement.Confined(RunSteps(sys, steps, t), t);
    }
  }

  /** An unconfined caller can delete any user of another tenant. */
  lemma AdminReachesOutside(sys: System, token: Token, t: TenantId, v: Id) returns (after: System)
    requires token in sys.tokens && OfTenant(sys.db, token.user, t) && token.platformAdmin
    requires Outsider(sys.db, v, t) && LiveUser(sys.db, v)
    ensures Leads(sys, after, t) && v in after.db.users && after.db.users[v].isDeleted
  {
    after := AnyCallLeads(sys, token, RemoveUser(v), t);
    UserDeletion(sys.db, v, token.user, None);
  }

  /**
   A live user outside t keeps its row and role sources in every run of t's callers exactly
   under the same condition.
   */
  lemma OutsidersAreSafeIff(sys: System, t: TenantId, v: Id)
    requires Sound(sys) && Outsider(sys.db, v, t) && LiveUser(sys.db, v)
    ensures (forall steps: seq<Step> :: Untouched(sys.db, RunSteps(sys, steps, t).db, v))
       <==> Confinement.Confined(sys, t) && !EscapeOpen(sys.db, t)
  {
    if Shut(sys, t) {
      forall steps: seq<Step>
        ensures Untouched(sys.db, RunSteps(sys, steps, t).db, v)
      {
        ShutRunsKeepOutsiders(sys, steps, t, v);
      }
    } else {
      var mid, token := sys, Token(v, false);
      if Confinement.Confined(sys, t) {
        mid, token := EscapeLeads(sys, t);
      } else {
        token :| token in sys.tokens && OfTenant(sys.db, token.user, t) && token.platformAdmin;
        LeadsNowhere(sys, t);
      }
      var after := AdminReachesOutside(mid, token, t, v);
      LeadsThrough(sys, mid, after, t);
      var steps: seq<Step> :| RunSteps(sys, steps, t) == after;
      assert !Untouched(sys.db, RunSteps(sys, steps, t).db, v);
    }
  }

  /**
   The module service asks for no scope: a caller of any tenant who deletes a module changes
   the permissions of exactly the users, of whatever tenant, who have one of that module.
   */
  lemma ModuleDeletionReachesOutsideIff(db: Db, token: Token, m: Id, v: Id)
    requires Valid(db) && LiveUser(db, token.user) && MutableModule(db, m) == Done
    ensures ListEffectivePermissions(AfterCall(db, token, ForModules(DeleteModule(m))), v)
              == ListEffectivePermissions(db, v)
       <==> forall e :: e in ListEffectivePermissions(db, v) ==> e.moduleId != m
  {
    ModuleDeleteTakesItsPermissions(db, m, v);
  }
}
