/** Batch changes of a role's permissions against the single ones they stand for. */
module Grants {
  import opened Options
  import opened Links
  import opened RbacModel
  import opened RbacInvariant

  // ---------------------------------------------------------------- granting

  /** How many leading ids name live permissions. */
  function LiveLead(db: Db, permissionIds: seq<Id>): (k: nat)
    ensures k <= |permissionIds|
    ensures forall i :: 0 <= i < k ==> PermissionLive(db, permissionIds[i])
    ensures k < |permissionIds| ==> !PermissionLive(db, permissionIds[k])
  {
    if permissionIds == [] || !PermissionLive(db, permissionIds[0]) then 0
    else 1 + LiveLead(db, permissionIds[1..])
  }

  function Elements(ids: seq<Id>): set<Id> {
    set i | i in ids
  }

  predicate SameButGrants(db: Db, after: Db) {
    after == db.(rolePermissions := after.rolePermissions, nextId := after.nextId)
  }

  predicate KeepsRows(before: Table, after: Table) {
    forall i :: i in before ==> i in after && Joins(after[i], before[i].left, before[i].right)
  }

  /**
   r is granted ids beside what it had, other roles keep theirs, rows stay the rows of their
   pairs, and only pairs without a row get one.
   */
  ghost predicate Grows(before: Table, after: Table, r: Id, ids: set<Id>) {
    && (forall q, p :: Related(after, q, p) <==> Related(before, q, p) || (q == r && p in ids))
    && (forall q, p :: HasRow(after, q, p) <==> HasRow(before, q, p) || (q == r && p in ids))
    && KeepsRows(before, after) && UniquePairs(after)
  }

  lemma PutGrows(t: Table, r: Id, p: Id, newId: Id)
    requires UniquePairs(t) && newId !in t
    ensures Grows(t, Put(t, r, p, newId), r, {p})
  {
    PutRelates(t, r, p, newId);
    var t' := Put(t, r, p, newId);
    assert KeepsRows(t, t');
    forall a, b
      ensures HasRow(t', a, b) <==> HasRow(t, a, b) || (a == r && b in {p})
    {
      if i :| i in t && Joins(t[i], a, b) {
        assert i in t' && Joins(t'[i], a, b);
      }
      if i :| i in t' && Joins(t'[i], a, b) && i !in t {
        assert a == r && b == p;
      }
    }
  }

  lemma GrowsTwice(t: Table, mid: Table, after: Table, r: Id, a: set<Id>, b: set<Id>)
    requires Grows(t, mid, r, a) && Grows(mid, after, r, b)
    ensures Grows(t, after, r, a + b)
  {
  }

  lemma GrantGrows(db: Db, r: Id, p: Id)
    requires Valid(db) && PermissionLive(db, p)
    ensures Grows(db.rolePermissions, Grant(db, r, p).rolePermissions, r, {p})
    ensures Valid(Grant(db, r, p))
  {
    PutGrows(db.rolePermissions, r, p, db.nextId);
    GrantKeepsValid(db, r, p);
  }

  lemma {:induction false} LiveLeadKept(db: Db, after: Db, ids: seq<Id>)
    requires after.permissions == db.permissions
    ensures LiveLead(after, ids) == LiveLead(db, ids)
  {
  }

  lemma {:induction false} GrantAllOutcome(db: Db, r: Id, permissionIds: seq<Id>)
    ensures var (after, outcome) := GrantAll(db, r, permissionIds);
            && SameButGrants(db, after)
            && outcome == if LiveLead(db, permissionIds) == |permissionIds| then Done else NotFound
    decreases permissionIds
  {
    if permissionIds != [] && PermissionLive(db, permissionIds[0]) {
      GrantAllOutcome(Grant(db, r, permissionIds[0]), r, permissionIds[1..]);
      LiveLeadKept(db, Grant(db, r, permissionIds[0]), permissionIds[1..]);
    }
  }

  lemma ElementsOfLead(ids: seq<Id>, k: nat)
    requires k < |ids|
    ensures Elements(ids[..k + 1]) == {ids[0]} + Elements(ids[1..][..k])
  {
  }

  lemma {:induction false} LeadingGrantsGrow(db: Db, r: Id, permissionIds: seq<Id>)
    requires Valid(db)
    ensures Grows(db.rolePermissions, GrantAll(db, r, permissionIds).0.rolePermissions, r,
                  Elements(permissionIds[..LiveLead(db, permissionIds)]))
    decreases permissionIds
  {
    if permissionIds != [] && PermissionLive(db, permissionIds[0]) {
      var p, rest := permissionIds[0], permissionIds[1..];
      var mid := Grant(db, r, p);
      var last := GrantAll(mid, r, rest).0;
      GrantGrows(db, r, p);
      LeadingGrantsGrow(mid, r, rest);
      LiveLeadKept(db, mid, rest);
      ElementsOfLead(permissionIds, LiveLead(db, rest));
      GrowsTwice(db.rolePermissions, mid.rolePermissions, last.rolePermissions, r, {p},
                 Elements(rest[..LiveLead(db, rest)]));
    }
  }

  /**
   A batch grant stops at the first id that names no live permission: the ids before it are
   granted, and it succeeds exactly when there is no such id.
   */
  lemma GrantAllGrows(db: Db, r: Id, permissionIds: seq<Id>)
    requires Valid(db)
    ensures var (after, outcome) := GrantAll(db, r, permissionIds);
            var k := LiveLead(db, permissionIds);
            && SameButGrants(db, after)
            && Grows(db.rolePermissions, after.rolePermissions, r, Elements(permissionIds[..k]))
            && outcome == if k == |permissionIds| then Done else NotFound
  {
    GrantAllOutcome(db, r, permissionIds);
    LeadingGrantsGrow(db, r, permissionIds);
  }

  // ---------------------------------------------------------------- single grants in any order

  /** Single requests one after the other, refused ones included. */
  ghost function Singles(db: Db, r: Id, order: seq<Id>, revoke: bool, scope: Option<TenantId>): Db
    decreases order
  {
    if order == [] then db
    else
      var request := if revoke then RevokePermission(r, order[0]) else GrantPermission(r, order[0]);
      Singles(HandleRole(db, request, scope).0, r, order[1..], revoke, scope)
  }

  lemma {:induction false} SinglesAreGrantAll(db: Db, r: Id, order: seq<Id>, scope: Option<TenantId>)
    requires MutableRole(db, r, scope) == Done && forall i :: 0 <= i < |order| ==> PermissionLive(db, order[i])
    ensures Singles(db, r, order, false, scope) == GrantAll(db, r, order).0
    decreases order
  {
    if order != [] {
      SinglesAreGrantAll(Grant(db, r, order[0]), r, order[1..], scope);
    }
  }

  lemma {:induction false} GrantAllIdle(db: Db, r: Id, ids: seq<Id>)
    requires UniquePairs(db.rolePermissions)
    requires forall i :: 0 <= i < |ids| ==> PermissionLive(db, ids[i]) && Related(db.rolePermissions, r, ids[i])
    ensures GrantAll(db, r, ids) == (db, Done)
    decreases ids
  {
    if ids != [] {
      PutAgain(db.rolePermissions, r, ids[0], db.nextId);
      assert Grant(db, r, ids[0]) == db;
      GrantAllIdle(db, r, ids[1..]);
    }
  }

  lemma LeadOfLive(db: Db, ids: seq<Id>)
    requires forall i :: 0 <= i < |ids| ==> PermissionLive(db, ids[i])
    ensures LiveLead(db, ids) == |ids|
  {
  }

  lemma SameRights(a: Table, b: Table, q: Id)
    requires forall p :: Related(a, q, p) <==> Related(b, q, p)
    ensures RightsOf(a, q) == RightsOf(b, q)
  {
    forall p
      ensures p in RightsOf(a, q) <==> p in RightsOf(b, q)
    {
      RightsAreRelated(a, q, p);
      RightsAreRelated(b, q, p);
    }
  }

  lemma GrowthsAlike(before: Table, a: Table, b: Table, r: Id, ids: set<Id>)
    requires Grows(before, a, r, ids) && Grows(before, b, r, ids)
    ensures forall q :: RightsOf(a, q) == RightsOf(b, q)
    ensures RightsOf(a, r) == RightsOf(before, r) + ids
  {
    forall q
      ensures RightsOf(a, q) == RightsOf(b, q)
    {
      SameRights(a, b, q);
    }
    forall p
      ensures p in RightsOf(a, r) <==> p in RightsOf(before, r) + ids
    {
      RightsAreRelated(a, r, p);
      RightsAreRelated(before, r, p);
    }
  }

  /**
   A successful batch grant leaves r with its old permissions and the ids, as single grants in
   any order and with any repetition do, inserting rows for the same pairs.
   */
  lemma BatchGrantIsUnion(db: Db, r: Id, ids: seq<Id>, order: seq<Id>, scope: Option<TenantId>)
    requires Valid(db) && Elements(order) == Elements(ids)
    requires HandleRole(db, BatchPermissions(r, ids, false), scope).1 == Done
    ensures var after := HandleRole(db, BatchPermissions(r, ids, false), scope).0;
            var singles := Singles(db, r, order, false, scope);
            && RightsOf(after.rolePermissions, r) == RightsOf(db.rolePermissions, r) + Elements(ids)
            && (forall q :: RightsOf(after.rolePermissions, q) == RightsOf(singles.rolePermissions, q))
            && Grows(db.rolePermissions, after.rolePermissions, r, Elements(ids))
            && Grows(db.rolePermissions, singles.rolePermissions, r, Elements(ids))
            && SameButGrants(db, after) && SameButGrants(db, singles)
  {
    var after := HandleRole(db, BatchPermissions(r, ids, false), scope).0;
    GrantAllGrows(db, r, ids);
    assert ids[..|ids|] == ids;
    forall i | 0 <= i < |order|
      ensures PermissionLive(db, order[i])
    {
      assert order[i] in Elements(ids);
    }
    LeadOfLive(db, order);
    GrantAllGrows(db, r, order);
    assert order[..|order|] == order;
    SinglesAreGrantAll(db, r, order, scope);
    GrowthsAlike(db.rolePermissions, after.rolePermissions, GrantAll(db, r, order).0.rolePermissions, r, Elements(ids));
  }

  /** The same batch grant again succeeds and changes nothing. */
  lemma BatchGrantIsIdempotent(db: Db, r: Id, ids: seq<Id>, scope: Option<TenantId>)
    requires Valid(db) && HandleRole(db, BatchPermissions(r, ids, false), scope).1 == Done
    ensures var after := HandleRole(db, BatchPermissions(r, ids, false), scope).0;
            HandleRole(after, BatchPermissions(r, ids, false), scope) == (after, Done)
  {
    GrantAllGrows(db, r, ids);
    assert ids[..|ids|] == ids;
    forall i | 0 <= i < |ids|
      ensures ids[i] in Elements(ids)
    {
    }
    GrantAllIdle(GrantAll(db, r, ids).0, r, ids);
  }

  // ---------------------------------------------------------------- revoking

  lemma RetireTwice(t: Table, l: Id, a: set<Id>, b: set<Id>)
    ensures Retire(Retire(t, LiveBetween(t, l, a)), LiveBetween(Retire(t, LiveBetween(t, l, a)), l, b))
         == Retire(t, LiveBetween(t, l, a + b))
  {
  }

  lemma RevokeSingle(db: Db, r: Id, p: Id, scope: Option<TenantId>)
    requires MutableRole(db, r, scope) == Done
    ensures HandleRole(db, RevokePermission(r, p), scope).0 == RevokeAmong(db, r, {p})
  {
  }

  lemma {:induction false} SinglesAreRevokeAmong(db: Db, r: Id, order: seq<Id>, scope: Option<TenantId>)
    requires MutableRole(db, r, scope) == Done
    ensures Singles(db, r, order, true, scope) == RevokeAmong(db, r, Elements(order))
    decreases order
  {
    if order == [] {
      assert RevokeAmong(db, r, {}) == db;
    } else {
      var mid := RevokeAmong(db, r, {order[0]});
      RevokeSingle(db, r, order[0], scope);
      SinglesAreRevokeAmong(mid, r, order[1..], scope);
      RetireTwice(db.rolePermissions, r, {order[0]}, Elements(order[1..]));
      assert {order[0]} + Elements(order[1..]) == Elements(order);
    }
  }

  /**
   A batch revoke leaves r with its old permissions less the ids and every other role with its
   own; single revokes in any order, where absent ones are refused, reach the same tables, and
   a second batch changes nothing.
   */
  lemma BatchRevokeIsDifference(db: Db, r: Id, ids: seq<Id>, order: seq<Id>, scope: Option<TenantId>)
    requires MutableRole(db, r, scope) == Done && Elements(order) == Elements(ids)
    ensures var (after, outcome) := HandleRole(db, BatchPermissions(r, ids, true), scope);
            && outcome == Done
            && RightsOf(after.rolePermissions, r) == RightsOf(db.rolePermissions, r) - Elements(ids)
            && (forall q :: q != r ==> RightsOf(after.rolePermissions, q) == RightsOf(db.rolePermissions, q))
            && after == Singles(db, r, order, true, scope)
            && HandleRole(after, BatchPermissions(r, ids, true), scope) == (after, Done)
  {
    var t := db.rolePermissions;
    var t' := RevokeAmong(db, r, Elements(ids)).rolePermissions;
    SinglesAreRevokeAmong(db, r, order, scope);
    RetireTwice(t, r, Elements(ids), Elements(ids));
    assert Elements(ids) + Elements(ids) == Elements(ids);
    RetireBetweenRelates(t, r, Elements(ids));
    forall q | q != r
      ensures RightsOf(t', q) == RightsOf(t, q)
    {
      SameRights(t', t, q);
    }
    forall p
      ensures p in RightsOf(t', r) <==> p in RightsOf(t, r) - Elements(ids)
    {
      RightsAreRelated(t, r, p);
      RightsAreRelated(t', r, p);
    }
  }
}
