/** The bulk status update against the single one it stands for. */
module BulkStatus {
  import opened Options
  import opened AuthModel

  /** Single updates, one after the other; refused ones leave everything as it is. */
  function Fold(db: Db, order: seq<UserId>, status: UserStatus, scope: Option<TenantId>): Db {
    if order == [] then db
    else HandleUpdateStatus(Fold(db, order[..|order| - 1], status, scope), order[|order| - 1], status, scope).0
  }

  lemma SingleIsSet(db: Db, u: UserId, status: UserStatus, scope: Option<TenantId>)
    requires Visible(db, u, scope)
    ensures HandleUpdateStatus(db, u, status, scope).0 == SetStatusOf(db, {u}, status)
  {
  }

  lemma RevokeTwice(sessions: map<SessionId, Session>, a: set<UserId>, b: set<UserId>)
    ensures RevokeSessionsOf(RevokeSessionsOf(sessions, a), b) == RevokeSessionsOf(sessions, a + b)
  {
  }

  function SetUsers(users: map<UserId, User>, targets: set<UserId>, status: UserStatus): map<UserId, User> {
    map u | u in users :: if u in targets then WithStatus(users[u], status) else users[u]
  }

  lemma SetUsersTwice(users: map<UserId, User>, a: set<UserId>, b: set<UserId>, status: UserStatus)
    ensures SetUsers(SetUsers(users, a, status), b, status) == SetUsers(users, a + b, status)
  {
  }

  lemma SetIsSetUsers(db: Db, targets: set<UserId>, status: UserStatus)
    ensures SetStatusOf(db, targets, status) == db.(
              users := SetUsers(db.users, targets, status),
              sessions := if Revoking(status) then RevokeSessionsOf(db.sessions, targets) else db.sessions)
  {
  }

  lemma SetTwice(db: Db, a: set<UserId>, b: set<UserId>, status: UserStatus)
    ensures SetStatusOf(SetStatusOf(db, a, status), b, status) == SetStatusOf(db, a + b, status)
  {
    SetUsersTwice(db.users, a, b, status);
    RevokeTwice(db.sessions, a, b);
    SetIsSetUsers(db, a, status);
    SetIsSetUsers(SetStatusOf(db, a, status), b, status);
    SetIsSetUsers(db, a + b, status);
  }

  lemma SetNothing(db: Db, status: UserStatus)
    ensures SetStatusOf(db, {}, status) == db
  {
    assert SetUsers(db.users, {}, status) == db.users;
    assert RevokeSessionsOf(db.sessions, {}) == db.sessions;
    SetIsSetUsers(db, {}, status);
  }

  lemma VisibleUnchanged(db: Db, targets: set<UserId>, status: UserStatus, u: UserId, scope: Option<TenantId>)
    ensures Visible(SetStatusOf(db, targets, status), u, scope) <==> Visible(db, u, scope)
  {
  }

  /** Any list of single updates has the effect of one bulk update over its live in-scope ids. */
  lemma {:induction false} FoldIsSet(db: Db, order: seq<UserId>, status: UserStatus, scope: Option<TenantId>)
    ensures Fold(db, order, status, scope) == SetStatusOf(db, Targets(db, order, scope), status)
  {
    if order == [] {
      assert Targets(db, order, scope) == {};
      SetNothing(db, status);
    } else {
      var front, u := order[..|order| - 1], order[|order| - 1];
      var done := Targets(db, front, scope);
      FoldIsSet(db, front, status, scope);
      VisibleUnchanged(db, done, status, u, scope);
      assert order == front + [u];
      if Visible(db, u, scope) {
        SingleIsSet(SetStatusOf(db, done, status), u, status, scope);
        SetTwice(db, done, {u}, status);
        assert Targets(db, order, scope) == done + {u};
      } else {
        assert Targets(db, order, scope) == done;
      }
    }
  }

  /**
   The bulk update leaves the tables as single updates over the same live in-scope ids would,
   in any order and however often an id is repeated.
   */
  lemma BulkRefinesSingles(db: Db, ids: seq<UserId>, order: seq<UserId>, status: UserStatus, scope: Option<TenantId>)
    requires Targets(db, order, scope) == Targets(db, ids, scope)
    ensures HandleBulkUpdateStatus(db, ids, status, scope).0 == Fold(db, order, status, scope)
  {
    FoldIsSet(db, order, status, scope);
  }

  lemma {:induction false} DistinctCount(order: seq<UserId>, elements: set<UserId>)
    requires forall i, j :: 0 <= i < j < |order| ==> order[i] != order[j]
    requires forall u :: u in order <==> u in elements
    ensures |elements| == |order|
  {
    if order != [] {
      var front, last := order[..|order| - 1], order[|order| - 1];
      assert order == front + [last];
      assert last !in front;
      DistinctCount(front, elements - {last});
    } else {
      assert elements == {};
    }
  }

  /** It returns the number of distinct live in-scope ids and touches nobody else. */
  lemma BulkTouchesTargetsOnly(db: Db, ids: seq<UserId>, order: seq<UserId>, status: UserStatus,
                               scope: Option<TenantId>, v: UserId)
    requires forall u :: u in order <==> u in ids && Visible(db, u, scope)
    requires forall i, j :: 0 <= i < j < |order| ==> order[i] != order[j]
    requires v !in order
    ensures var (after, outcome) := HandleBulkUpdateStatus(db, ids, status, scope);
            && outcome == Affected(|order|)
            && (v in after.users <==> v in db.users)
            && (v in db.users ==> after.users[v] == db.users[v])
            && after.sessions.Keys == db.sessions.Keys
            && forall s :: s in db.sessions && db.sessions[s].user == v ==> after.sessions[s] == db.sessions[s]
  {
    DistinctCount(order, Targets(db, ids, scope));
  }
}
