/**
 Branches of a tenant: one live headquarters, a limit on live branches, and branch codes
 that stay taken after a branch is deleted.
 */
module Branches {
  import opened Options

  type TenantId = nat
  type BranchId = nat

  datatype Status = ACTIVE | INACTIVE

  datatype Tenant = Tenant(maxBranches: Option<int>, isDeleted: bool)

  datatype Branch = Branch(
    tenantId: TenantId, branchCode: string, isHeadquarters: bool, status: Status, isDeleted: bool)

  datatype Db = Db(tenants: map<TenantId, Tenant>, branches: map<BranchId, Branch>)

  /** A request body; the code is already trimmed and upper-cased. */
  datatype BranchRequest = BranchRequest(
    tenantId: TenantId, branchCode: string, isHeadquarters: Option<bool>, status: Option<Status>)

  datatype Outcome = Done | BadRequest | Forbidden | NotFound | Conflict

  // ---------------------------------------------------------------- what the queries select

  /** `findBranch` */
  predicate Visible(db: Db, id: BranchId, scope: Option<TenantId>) {
    id in db.branches && !db.branches[id].isDeleted
    && (scope.Some? ==> db.branches[id].tenantId == scope.value)
  }

  predicate CodeTaken(db: Db, tenant: TenantId, code: string) {
    exists b :: b in db.branches && db.branches[b].tenantId == tenant && db.branches[b].branchCode == code
  }

  function LiveOf(db: Db, tenant: TenantId): set<BranchId> {
    set b | b in db.branches && db.branches[b].tenantId == tenant && !db.branches[b].isDeleted
  }

  function LiveHeadquartersOf(db: Db, tenant: TenantId): set<BranchId> {
    set b | b in LiveOf(db, tenant) && db.branches[b].isHeadquarters
  }

  predicate LimitReached(db: Db, tenant: TenantId)
    requires tenant in db.tenants
  {
    db.tenants[tenant].maxBranches.Some? && |LiveOf(db, tenant)| >= db.tenants[tenant].maxBranches.value
  }

  // ---------------------------------------------------------------- the requests

  datatype Request =
    | Create(request: BranchRequest, scope: Option<TenantId>, newId: BranchId)
    | Update(id: BranchId, request: BranchRequest, scope: Option<TenantId>)
    | UpdateStatus(id: BranchId, status: Status, scope: Option<TenantId>)
    | Delete(id: BranchId, scope: Option<TenantId>)
    | CreateTenant(tenant: TenantId)
    | DeleteTenant(tenant: TenantId)

  function CreateOutcome(db: Db, request: BranchRequest, scope: Option<TenantId>): Outcome {
    var t := request.tenantId;
    if scope.Some? && scope.value != t then Forbidden
    else if t !in db.tenants || db.tenants[t].isDeleted then NotFound
    else if CodeTaken(db, t, request.branchCode) || LimitReached(db, t) then Conflict
    else if GetOr(request.isHeadquarters, false) && LiveHeadquartersOf(db, t) != {} then Conflict
    else Done
  }

  function UpdateOutcome(db: Db, id: BranchId, request: BranchRequest, scope: Option<TenantId>): Outcome {
    if !Visible(db, id, scope) then NotFound
    else
      var branch := db.branches[id];
      if request.tenantId != branch.tenantId then BadRequest
      else if GetOr(request.isHeadquarters, false) && !branch.isHeadquarters
              && LiveHeadquartersOf(db, branch.tenantId) - {id} != {} then Conflict
      else Done
  }

  function DeleteOutcome(db: Db, id: BranchId, scope: Option<TenantId>): Outcome {
    if !Visible(db, id, scope) then NotFound
    else if db.branches[id].isHeadquarters && LiveOf(db, db.branches[id].tenantId) - {id} != {} then Conflict
    else Done
  }

  function Handle(db: Db, r: Request): (Db, Outcome) {
    match r
    case Create(request, scope, newId) =>
      var outcome := if newId in db.branches then Conflict else CreateOutcome(db, request, scope);
      var row := Branch(request.tenantId, request.branchCode, GetOr(request.isHeadquarters, false), ACTIVE, false);
      (if outcome.Done? then db.(branches := db.branches[newId := row]) else db, outcome)
    case Update(id, request, scope) =>
      var outcome := UpdateOutcome(db, id, request, scope);
      if outcome.Done? then
        var row := db.branches[id].(isHeadquarters := GetOr(request.isHeadquarters, false),
                                    status := GetOr(request.status, db.branches[id].status));
        (db.(branches := db.branches[id := row]), Done)
      else (db, outcome)
    case UpdateStatus(id, status, scope) =>
      if Visible(db, id, scope)
      then (db.(branches := db.branches[id := db.branches[id].(status := status)]), Done)
      else (db, NotFound)
    case Delete(id, scope) =>
      var outcome := DeleteOutcome(db, id, scope);
      if outcome.Done? then (db.(branches := db.branches[id := db.branches[id].(isDeleted := true)]), Done)
      else (db, outcome)
    case CreateTenant(tenant) =>
      if tenant in db.tenants then (db, Conflict)
      else (db.(tenants := db.tenants[tenant := Tenant(Some(10), false)]), Done)
    case DeleteTenant(tenant) =>
      if tenant in db.tenants
      then (db.(tenants := db.tenants[tenant := db.tenants[tenant].(isDeleted := true)]), Done)
      else (db, NotFound)
  }

  function Run(db: Db, requests: seq<Request>): Db {
    if requests == [] then db
    else Handle(Run(db, requests[..|requests| - 1]), requests[|requests| - 1]).0
  }

  // ---------------------------------------------------------------- what the requests do

  /** A live branch the caller may see. */
  predicate Seen(db: Db, id: BranchId, scope: Option<TenantId>) {
    && id in db.branches && !db.branches[id].isDeleted
    && (scope.None? || db.branches[id].tenantId == scope.value)
  }

  predicate CodeUsed(db: Db, tenant: TenantId, code: string) {
    exists b :: b in db.branches && db.branches[b].tenantId == tenant && db.branches[b].branchCode == code
  }

  predicate HasRoom(db: Db, tenant: TenantId)
    requires tenant in db.tenants
  {
    match db.tenants[tenant].maxBranches
    case None => true
    case Some(limit) =>
      |set b | b in db.branches && db.branches[b].tenantId == tenant && !db.branches[b].isDeleted| < limit
  }

  /** A live headquarters of the tenant other than `except`. */
  predicate OtherHeadquarters(db: Db, tenant: TenantId, except: Option<BranchId>) {
    exists b :: b in db.branches && Some(b) != except && db.branches[b].tenantId == tenant
      && !db.branches[b].isDeleted && db.branches[b].isHeadquarters
  }

  predicate OtherLiveBranch(db: Db, tenant: TenantId, except: BranchId) {
    exists b :: b in db.branches && b != except && db.branches[b].tenantId == tenant && !db.branches[b].isDeleted
  }

  predicate CreateEffect(before: Db, after: Db, outcome: Outcome, request: BranchRequest, scope: Option<TenantId>,
                         newId: BranchId)
  {
    var t := request.tenantId;
    var allowed := scope.None? || scope.value == t;
    var known := t in before.tenants && !before.tenants[t].isDeleted;
    var fits := known && !CodeUsed(before, t, request.branchCode) && HasRoom(before, t)
                && (request.isHeadquarters == Some(true) ==> !OtherHeadquarters(before, t, None));
    && (outcome == Forbidden <==> !allowed)
    && (outcome == NotFound <==> allowed && !known)
    && (outcome == Conflict <==> allowed && known && !fits)
    && (outcome == Done <==> allowed && fits)
    && (outcome == Done ==>
          && newId in after.branches && after == before.(branches := before.branches[newId := after.branches[newId]])
          && after.branches[newId].tenantId == t && after.branches[newId].branchCode == request.branchCode
          && after.branches[newId].isHeadquarters == (request.isHeadquarters == Some(true))
          && after.branches[newId].status == ACTIVE && !after.branches[newId].isDeleted)
    && (outcome != Done ==> after == before)
  }

  /** The code and the tenant stay; the headquarters flag is the request's, and so is a status it gives. */
  predicate UpdateEffect(before: Db, after: Db, outcome: Outcome, id: BranchId, request: BranchRequest,
                         scope: Option<TenantId>)
  {
    var seen := Seen(before, id, scope);
    var here := seen && before.branches[id].tenantId == request.tenantId;
    var clash := here && request.isHeadquarters == Some(true) && !before.branches[id].isHeadquarters
                 && OtherHeadquarters(before, request.tenantId, Some(id));
    && (outcome == NotFound <==> !seen) && (outcome == BadRequest <==> seen && !here)
    && (outcome == Conflict <==> clash) && (outcome == Done <==> here && !clash)
    && (outcome == Done ==>
          && id in after.branches && after == before.(branches := before.branches[id := after.branches[id]])
          && after.branches[id] == before.branches[id].(isHeadquarters := after.branches[id].isHeadquarters,
                                                        status := after.branches[id].status)
          && after.branches[id].isHeadquarters == (request.isHeadquarters == Some(true))
          && after.branches[id].status == match request.status
                                          case Some(status) => status
                                          case None => before.branches[id].status)
    && (outcome != Done ==> after == before)
  }

  predicate UpdateStatusEffect(before: Db, after: Db, outcome: Outcome, id: BranchId, status: Status,
                               scope: Option<TenantId>)
  {
    && (outcome == Done <==> Seen(before, id, scope)) && (outcome == NotFound <==> !Seen(before, id, scope))
    && after == if outcome == Done && id in before.branches
                then before.(branches := before.branches[id := before.branches[id].(status := status)]) else before
  }

  predicate DeleteEffect(before: Db, after: Db, outcome: Outcome, id: BranchId, scope: Option<TenantId>) {
    var seen := Seen(before, id, scope);
    var last := seen && (before.branches[id].isHeadquarters ==>
                           !OtherLiveBranch(before, before.branches[id].tenantId, id));
    && (outcome == NotFound <==> !seen) && (outcome == Conflict <==> seen && !last) && (outcome == Done <==> last)
    && after == if outcome == Done && id in before.branches
                then before.(branches := before.branches[id := before.branches[id].(isDeleted := true)]) else before
  }

  lemma RoomIff(db: Db, tenant: TenantId)
    requires tenant in db.tenants
    ensures HasRoom(db, tenant) <==> !LimitReached(db, tenant)
  {
    assert LiveOf(db, tenant)
        == set b | b in db.branches && db.branches[b].tenantId == tenant && !db.branches[b].isDeleted;
  }

  lemma HeadquartersIff(db: Db, tenant: TenantId, except: Option<BranchId>)
    ensures OtherHeadquarters(db, tenant, except)
       <==> LiveHeadquartersOf(db, tenant) - (if except.Some? then {except.value} else {}) != {}
  {
    if b :| b in db.branches && Some(b) != except && db.branches[b].tenantId == tenant
            && !db.branches[b].isDeleted && db.branches[b].isHeadquarters {
      assert b in LiveHeadquartersOf(db, tenant) - (if except.Some? then {except.value} else {});
    }
  }

  lemma CreateMeans(db: Db, request: BranchRequest, scope: Option<TenantId>, newId: BranchId)
    requires newId !in db.branches
    ensures var (after, outcome) := Handle(db, Create(request, scope, newId));
            CreateEffect(db, after, outcome, request, scope, newId)
  {
    HeadquartersIff(db, request.tenantId, None);
    assert LiveHeadquartersOf(db, request.tenantId) - {} == LiveHeadquartersOf(db, request.tenantId);
    if request.tenantId in db.tenants {
      RoomIff(db, request.tenantId);
    }
    assert CodeUsed(db, request.tenantId, request.branchCode) <==> CodeTaken(db, request.tenantId, request.branchCode);
  }

  lemma UpdateMeans(db: Db, id: BranchId, request: BranchRequest, scope: Option<TenantId>)
    ensures var (after, outcome) := Handle(db, Update(id, request, scope));
            UpdateEffect(db, after, outcome, id, request, scope)
  {
    HeadquartersIff(db, request.tenantId, Some(id));
  }

  lemma UpdateStatusMeans(db: Db, id: BranchId, status: Status, scope: Option<TenantId>)
    ensures var (after, outcome) := Handle(db, UpdateStatus(id, status, scope));
            UpdateStatusEffect(db, after, outcome, id, status, scope)
  {
  }

  lemma DeleteMeans(db: Db, id: BranchId, scope: Option<TenantId>)
    ensures var (after, outcome) := Handle(db, Delete(id, scope));
            DeleteEffect(db, after, outcome, id, scope)
  {
    if Seen(db, id, scope) {
      var t := db.branches[id].tenantId;
      if b :| b in db.branches && b != id && db.branches[b].tenantId == t && !db.branches[b].isDeleted {
        assert b in LiveOf(db, t) - {id};
      }
    }
  }

  // ---------------------------------------------------------------- the service

  class BranchesService {
    var tenants: map<TenantId, Tenant>
    var branches: map<BranchId, Branch>

    ghost function State(): Db
      reads this
    {
      Db(tenants, branches)
    }

    /** `newId` is the primary key the database draws: one no row has. */
    method Create(request: BranchRequest, scope: Option<TenantId>, newId: BranchId) returns (outcome: Outcome)
      requires newId !in branches
      modifies this
      ensures (State(), outcome) == Handle(old(State()), Request.Create(request, scope, newId))
      ensures CreateEffect(old(State()), State(), outcome, request, scope, newId)
    {
      CreateMeans(State(), request, scope, newId);
      if scope.Some? && scope.value != request.tenantId {
        return Forbidden;
      }
      var tenantId := if scope.Some? then scope.value else request.tenantId;
      if tenantId !in tenants || tenants[tenantId].isDeleted {
        return NotFound;
      }
      if exists b :: b in branches && branches[b].tenantId == tenantId && branches[b].branchCode == request.branchCode {
        return Conflict;
      }
      var live := set b | b in branches && branches[b].tenantId == tenantId && !branches[b].isDeleted;
      assert live == LiveOf(State(), tenantId);
      if tenants[tenantId].maxBranches.Some? && |live| >= tenants[tenantId].maxBranches.value {
        return Conflict;
      }
      if GetOr(request.isHeadquarters, false) {
        var headquarters := set b | b in live && branches[b].isHeadquarters;
        assert headquarters == LiveHeadquartersOf(State(), tenantId);
        if |headquarters| > 0 {
          return Conflict;
        }
      }
      var branch := Branch(tenantId, request.branchCode, GetOr(request.isHeadquarters, false), ACTIVE, false);
      branches := branches[newId := branch];
      return Done;
    }

    method Update(id: BranchId, request: BranchRequest, scope: Option<TenantId>) returns (outcome: Outcome)
      modifies this
      ensures (State(), outcome) == Handle(old(State()), Request.Update(id, request, scope))
      ensures UpdateEffect(old(State()), State(), outcome, id, request, scope)
    {
      UpdateMeans(State(), id, request, scope);
      if !Visible(Db(tenants, branches), id, scope) {
        return NotFound;
      }
      var branch := branches[id];
      if request.tenantId != branch.tenantId {
        return BadRequest;
      }
      if GetOr(request.isHeadquarters, false) && !branch.isHeadquarters {
        var others := set b | b in branches && branches[b].tenantId == branch.tenantId
                              && branches[b].isHeadquarters && !branches[b].isDeleted && b != id;
        assert others == LiveHeadquartersOf(State(), branch.tenantId) - {id};
        if |others| > 0 {
          return Conflict;
        }
      }
      branch := branch.(isHeadquarters := GetOr(request.isHeadquarters, false),
                        status := GetOr(request.status, branch.status));
      branches := branches[id := branch];
      return Done;
    }

    method UpdateStatus(id: BranchId, status: Status, scope: Option<TenantId>) returns (outcome: Outcome)
      modifies this
      ensures (State(), outcome) == Handle(old(State()), Request.UpdateStatus(id, status, scope))
      ensures UpdateStatusEffect(old(State()), State(), outcome, id, status, scope)
    {
      UpdateStatusMeans(State(), id, status, scope);
      if !Visible(Db(tenants, branches), id, scope) {
        return NotFound;
      }
      branches := branches[id := branches[id].(status := status)];
      return Done;
    }

    method Delete(id: BranchId, scope: Option<TenantId>) returns (outcome: Outcome)
      modifies this
      ensures (State(), outcome) == Handle(old(State()), Request.Delete(id, scope))
      ensures DeleteEffect(old(State()), State(), outcome, id, scope)
    {
      DeleteMeans(State(), id, scope);
      if !Visible(Db(tenants, branches), id, scope) {
        return NotFound;
      }
      var branch := branches[id];
      if branch.isHeadquarters {
        var others := set b | b in branches && branches[b].tenantId == branch.tenantId
                              && b != id && !branches[b].isDeleted;
        assert others == LiveOf(State(), branch.tenantId) - {id};
        if |others| > 0 {
          return Conflict;
        }
      }
      branches := branches[id := branch.(isDeleted := true)];
      return Done;
    }
  }

  // ---------------------------------------------------------------- the invariant

  predicate OneHeadquarters(db: Db) {
    forall a, b :: a in db.branches && b in db.branches && a != b
                   && db.branches[a].tenantId == db.branches[b].tenantId
                   && !db.branches[a].isDeleted && !db.branches[b].isDeleted
                   ==> !(db.branches[a].isHeadquarters && db.branches[b].isHeadquarters)
  }

  predicate CodesUnique(db: Db) {
    forall a, b :: a in db.branches && b in db.branches && a != b
                   && db.branches[a].tenantId == db.branches[b].tenantId
                   ==> db.branches[a].branchCode != db.branches[b].branchCode
  }

  predicate WithinLimits(db: Db) {
    forall t :: t in db.tenants && db.tenants[t].maxBranches.Some?
                ==> |LiveOf(db, t)| <= db.tenants[t].maxBranches.value
  }

  predicate TenantsExist(db: Db) {
    forall b :: b in db.branches ==> db.branches[b].tenantId in db.tenants
  }

  predicate Valid(db: Db) {
    OneHeadquarters(db) && CodesUnique(db) && WithinLimits(db) && TenantsExist(db)
  }

  lemma {:induction false} SubsetCardinality<T>(a: set<T>, b: set<T>)
    requires a <= b
    ensures |a| <= |b|
  {
    if a != {} {
      var x :| x in a;
      SubsetCardinality(a - {x}, b - {x});
    }
  }

  /** Live branches only shrink: no limit can be passed. */
  lemma LimitsSurviveShrinking(before: Db, after: Db)
    requires WithinLimits(before) && after.tenants.Keys == before.tenants.Keys
    requires forall t :: t in after.tenants ==> after.tenants[t].maxBranches == before.tenants[t].maxBranches
    requires forall t :: t in after.tenants ==> LiveOf(after, t) <= LiveOf(before, t)
    ensures WithinLimits(after)
  {
    forall t | t in after.tenants
      ensures |LiveOf(after, t)| <= |LiveOf(before, t)|
    {
      SubsetCardinality(LiveOf(after, t), LiveOf(before, t));
    }
  }

  /** The live branches after one row is written. */
  lemma LiveAfterPut(db: Db, after: Db, id: BranchId, row: Branch, t: TenantId)
    requires after.branches == db.branches[id := row]
    ensures LiveOf(after, t) == LiveOf(db, t) - {id} + if row.tenantId == t && !row.isDeleted then {id} else {}
  {
  }

  lemma CreateKeepsLimits(db: Db, newId: BranchId, row: Branch)
    requires WithinLimits(db) && newId !in db.branches && !row.isDeleted
    requires row.tenantId in db.tenants && !LimitReached(db, row.tenantId)
    ensures WithinLimits(db.(branches := db.branches[newId := row]))
  {
    var after := db.(branches := db.branches[newId := row]);
    forall t | t in after.tenants && after.tenants[t].maxBranches.Some?
      ensures |LiveOf(after, t)| <= after.tenants[t].maxBranches.value
    {
      LiveAfterPut(db, after, newId, row, t);
      assert newId !in LiveOf(db, t);
      assert LiveOf(db, t) - {newId} == LiveOf(db, t);
    }
  }

  lemma CreateTenantKeepsLimits(db: Db, tenant: TenantId)
    requires WithinLimits(db) && TenantsExist(db) && tenant !in db.tenants
    ensures WithinLimits(Handle(db, CreateTenant(tenant)).0)
  {
  }

  lemma HandleKeepsLimits(db: Db, r: Request)
    requires Valid(db)
    ensures WithinLimits(Handle(db, r).0)
  {
    var after := Handle(db, r).0;
    match r
    case Create(request, scope, newId) =>
      if after != db {
        CreateKeepsLimits(db, newId, after.branches[newId]);
      }
    case CreateTenant(tenant) =>
      if tenant !in db.tenants {
        CreateTenantKeepsLimits(db, tenant);
      }
    case _ =>
      LimitsSurviveShrinking(db, after);
  }

  /** Writing one row: it may be live headquarters, and carry its code, only if no other row is or does. */
  lemma PutKeepsRows(db: Db, id: BranchId, row: Branch)
    requires OneHeadquarters(db) && CodesUnique(db)
    requires row.isHeadquarters && !row.isDeleted ==> LiveHeadquartersOf(db, row.tenantId) <= {id}
    requires forall b :: b in db.branches && b != id && db.branches[b].tenantId == row.tenantId
                         ==> db.branches[b].branchCode != row.branchCode
    ensures OneHeadquarters(db.(branches := db.branches[id := row]))
    ensures CodesUnique(db.(branches := db.branches[id := row]))
  {
    forall b | b in LiveOf(db, row.tenantId) && db.branches[b].isHeadquarters
      ensures b in LiveHeadquartersOf(db, row.tenantId)
    {
    }
  }

  lemma SoleHeadquarters(db: Db, id: BranchId)
    requires OneHeadquarters(db) && id in db.branches
    requires db.branches[id].isHeadquarters && !db.branches[id].isDeleted
    ensures LiveHeadquartersOf(db, db.branches[id].tenantId) == {id}
  {
  }

  lemma HandleKeepsRows(db: Db, r: Request)
    requires Valid(db)
    ensures OneHeadquarters(Handle(db, r).0) && CodesUnique(Handle(db, r).0) && TenantsExist(Handle(db, r).0)
  {
    var after := Handle(db, r).0;
    if r.CreateTenant? || r.DeleteTenant? {
    } else if after != db {
      var id := if r.Create? then r.newId else r.id;
      var row := after.branches[id];
      if !r.Create? && db.branches[id].isHeadquarters && !db.branches[id].isDeleted {
        SoleHeadquarters(db, id);
      }
      PutKeepsRows(db, id, row);
    }
  }

  /** Every sequence of requests, accepted or refused, leads from a valid state to a valid one. */
  lemma {:induction false} RunKeepsValid(db: Db, requests: seq<Request>)
    requires Valid(db)
    ensures Valid(Run(db, requests))
  {
    if requests != [] {
      var before := Run(db, requests[..|requests| - 1]);
      RunKeepsValid(db, requests[..|requests| - 1]);
      HandleKeepsLimits(before, requests[|requests| - 1]);
      HandleKeepsRows(before, requests[|requests| - 1]);
    }
  }

  /** Deleting the headquarters succeeds only as the last branch, and leaves none. */
  lemma HeadquartersGoesLast(db: Db, id: BranchId, scope: Option<TenantId>)
    requires Valid(db) && Visible(db, id, scope) && db.branches[id].isHeadquarters
    ensures Handle(db, Delete(id, scope)).1.Done? <==> LiveOf(db, db.branches[id].tenantId) == {id}
    ensures Handle(db, Delete(id, scope)).1.Done? ==>
              LiveOf(Handle(db, Delete(id, scope)).0, db.branches[id].tenantId) == {}
  {
    var t := db.branches[id].tenantId;
    assert id in LiveOf(db, t);
    if LiveOf(db, t) - {id} == {} {
      assert LiveOf(db, t) == {id};
      assert DeleteOutcome(db, id, scope).Done?;
      var after := db.(branches := db.branches[id := db.branches[id].(isDeleted := true)]);
      assert Handle(db, Delete(id, scope)).0 == after;
      LiveAfterPut(db, after, id, db.branches[id].(isDeleted := true), t);
    }
  }

  /** A deleted branch keeps its code: it can never be created again, in any later state. */
  lemma {:induction false} CodesStayTaken(db: Db, requests: seq<Request>, tenant: TenantId, code: string)
    requires CodeTaken(db, tenant, code)
    ensures CodeTaken(Run(db, requests), tenant, code)
  {
    if requests != [] {
      var before := Run(db, requests[..|requests| - 1]);
      CodesStayTaken(db, requests[..|requests| - 1], tenant, code);
      var b :| b in before.branches && before.branches[b].tenantId == tenant && before.branches[b].branchCode == code;
      var after := Run(db, requests);
      assert b in after.branches && after.branches[b].tenantId == tenant && after.branches[b].branchCode == code;
    }
  }
}
