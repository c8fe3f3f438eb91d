/** The role claim of a session, from the tables to the platform-administrator check. */
module RoleClaim {
  import opened Options
  import opened Links
  import opened RbacModel
  import opened RbacInvariant
  import opened EffectiveAccess
  import opened RoleCodes

  /** What the query of `resolveRole` selects, before it is put in order. */
  function EffectiveRoleCodes(db: Db, u: Id): set<string> {
    set s | s in ActiveRoleSources(db, u) && s.role in db.roles :: db.roles[s.role].roleCode
  }

  /** Each effective code once, in whatever order the database collates them. */
  predicate Lists(codes: seq<string>, selected: set<string>) {
    && (forall i, j :: 0 <= i < j < |codes| ==> codes[i] != codes[j])
    && (set code | code in codes) == selected
  }

  predicate CodesObeyPattern(roles: map<Id, Role>) {
    forall r :: r in roles ==> MatchesCodePattern(roles[r].roleCode)
  }

  /** The user holds an ACTIVE role of that code, directly or through an ACTIVE group. */
  ghost predicate HoldsCode(db: Db, u: Id, code: string) {
    exists r :: RoleActive(db, r) && db.roles[r].roleCode == code
      && (Related(db.userRoles, u, r)
          || exists g :: Related(db.groupMembers, g, u) && GroupActive(db, g) && Related(db.groupRoles, g, r))
  }

  lemma SelectedIffHeld(db: Db, u: Id, code: string)
    ensures code in EffectiveRoleCodes(db, u) <==> HoldsCode(db, u, code)
  {
    var sources := ActiveRoleSources(db, u);
    if code in EffectiveRoleCodes(db, u) {
      var s :| s in sources && s.role in db.roles && db.roles[s.role].roleCode == code;
      SourceRow(db, u, s);
      SourcesAreLinks(db, u, s.role);
    }
    if HoldsCode(db, u, code) {
      var r :| RoleActive(db, r) && db.roles[r].roleCode == code
        && (Related(db.userRoles, u, r)
            || exists g :: Related(db.groupMembers, g, u) && GroupActive(db, g) && Related(db.groupRoles, g, r));
      SourcesAreLinks(db, u, r);
      var s :| s in sources && s.role == r;
    }
  }

  lemma SelectedObeyPattern(db: Db, u: Id)
    requires CodesObeyPattern(db.roles)
    ensures forall code :: code in EffectiveRoleCodes(db, u) ==> MatchesCodePattern(code)
  {
  }

  lemma SelectedEmptyIff(db: Db, u: Id)
    ensures EffectiveRoleCodes(db, u) == {} <==> ActiveRoleSources(db, u) == {}
  {
    if s :| s in ActiveRoleSources(db, u) {
      SourceRow(db, u, s);
      assert db.roles[s.role].roleCode in EffectiveRoleCodes(db, u);
    }
  }

  lemma ListedClaim(codes: seq<string>, selected: set<string>)
    requires Lists(codes, selected) && forall code :: code in selected ==> MatchesCodePattern(code)
    ensures RoleCodes.RoleCodes(ResolveRole(codes)) == codes
    ensures ResolveRole(codes).None? <==> selected == {}
    ensures IsPlatformAdmin(ResolveRole(codes)) <==> "ADMIN" in selected || "SUPER_ADMIN" in selected
  {
    forall i | 0 <= i < |codes|
      ensures codes[i] in selected
    {
    }
    ClaimRoundTrip(codes);
    if code :| code in selected {
      assert code in codes;
    }
  }

  /**
   Splitting the claim gives back the user's effective role codes; it is null exactly without
   any; and it makes the caller a platform administrator exactly when the user holds ADMIN or
   SUPER_ADMIN.
   */
  lemma ClaimTellsRoles(db: Db, u: Id, codes: seq<string>)
    requires CodesObeyPattern(db.roles) && Lists(codes, EffectiveRoleCodes(db, u))
    ensures RoleCodes.RoleCodes(ResolveRole(codes)) == codes
    ensures forall code :: code in RoleCodes.RoleCodes(ResolveRole(codes)) <==> HoldsCode(db, u, code)
    ensures ResolveRole(codes).None? <==> ActiveRoleSources(db, u) == {}
    ensures IsPlatformAdmin(ResolveRole(codes)) <==> HoldsCode(db, u, "ADMIN") || HoldsCode(db, u, "SUPER_ADMIN")
  {
    forall code
      ensures code in codes <==> HoldsCode(db, u, code)
    {
      assert code in codes <==> code in EffectiveRoleCodes(db, u);
      SelectedIffHeld(db, u, code);
    }
    SelectedObeyPattern(db, u);
    SelectedEmptyIff(db, u);
    ListedClaim(codes, EffectiveRoleCodes(db, u));
    SelectedIffHeld(db, u, "ADMIN");
    SelectedIffHeld(db, u, "SUPER_ADMIN");
  }

  ghost predicate HoldsAdminCode(db: Db, u: Id) {
    exists code :: code in PLATFORM_ADMIN_ROLES && HoldsCode(db, u, code)
  }

  lemma AdminListedIff(codes: seq<string>, selected: set<string>)
    requires Lists(codes, selected)
    ensures SomePlatformAdmin(codes) <==> exists code :: code in PLATFORM_ADMIN_ROLES && code in selected
  {
    if code :| code in PLATFORM_ADMIN_ROLES && code in selected {
      assert code in codes;
    }
  }

  lemma ListedObeyPattern(codes: seq<string>, selected: set<string>)
    requires Lists(codes, selected) && forall code :: code in selected ==> MatchesCodePattern(code)
    ensures forall i :: 0 <= i < |codes| ==> MatchesCodePattern(codes[i])
  {
    forall i | 0 <= i < |codes|
      ensures codes[i] in selected
    {
    }
  }

  /** The claim makes its bearer platform administrator exactly when the user holds such a code. */
  lemma ClaimIsAdminIff(db: Db, u: Id, codes: seq<string>)
    requires CodesObeyPattern(db.roles) && Lists(codes, EffectiveRoleCodes(db, u))
    ensures IsPlatformAdmin(ResolveRole(codes)) <==> HoldsAdminCode(db, u)
  {
    SelectedObeyPattern(db, u);
    ListedObeyPattern(codes, EffectiveRoleCodes(db, u));
    ClaimRoundTrip(codes);
    AdminListedIff(codes, EffectiveRoleCodes(db, u));
    forall code
      ensures code in EffectiveRoleCodes(db, u) <==> HoldsCode(db, u, code)
    {
      SelectedIffHeld(db, u, code);
    }
  }
}
