/**
 The account lockout as a timed protocol: how often a password can be tried against one
 account, whatever other requests are made in between.
 */
module Lockout {
  import opened Options
  import opened AuthModel

  // ---------------------------------------------------------------- the lock and the counter

  /** `accountLockedUntil` is null exactly while fewer than five failures are counted. */
  predicate LockMatchesCounter(user: User) {
    user.accountLockedUntil.None? <==> user.failedLoginAttempts < 5
  }

  predicate LocksMatchCounters(db: Db) {
    forall u :: u in db.users ==> LockMatchesCounter(db.users[u])
  }

  /** A login request that gets past the lock gate of account u. */
  ghost predicate Evaluated(db: Db, r: Request, u: UserId) {
    r.Login? && FindByUsername(db, r.username) == Some(u) && !Locked(db.users[u], r.gate)
  }

  /** A success, or an administrator setting the status to ACTIVE. */
  ghost predicate Clears(db: Db, r: Request, u: UserId) {
    || (Evaluated(db, r, u) && Permitted(db.users[u], r.password))
    || (r.UpdateStatus? && r.user == u && r.status == ACTIVE && Visible(db, u, r.scope))
    || (r.BulkUpdateStatus? && r.status == ACTIVE && u in Targets(db, r.ids, r.scope))
  }

  predicate SameLockout(before: User, after: User) {
    after.failedLoginAttempts == before.failedLoginAttempts && after.accountLockedUntil == before.accountLockedUntil
  }

  predicate NoLockout(user: User) {
    user.failedLoginAttempts == 0 && user.accountLockedUntil == None
  }

  lemma LoginEffect(db: Db, r: Request, u: UserId)
    requires r.Login? && u in db.users && FreshIds(db, r)
    ensures u in Handle(db, r).0.users
    ensures Clears(db, r, u) ==> NoLockout(Handle(db, r).0.users[u])
    ensures !Clears(db, r, u) && Evaluated(db, r, u) ==> Handle(db, r).0.users[u] == AfterFailure(db.users[u], r.stamp)
    ensures !Evaluated(db, r, u) ==> Handle(db, r).0.users[u] == db.users[u]
  {
  }

  lemma StatusEffect(db: Db, r: Request, u: UserId)
    requires r.UpdateStatus? || r.BulkUpdateStatus?
    requires u in db.users
    ensures u in Handle(db, r).0.users
    ensures if Clears(db, r, u) then NoLockout(Handle(db, r).0.users[u])
            else SameLockout(db.users[u], Handle(db, r).0.users[u])
  {
  }

  lemma OtherEffect(db: Db, r: Request, u: UserId)
    requires !r.Login? && !r.UpdateStatus? && !r.BulkUpdateStatus?
    requires u in db.users && FreshIds(db, r)
    ensures u in Handle(db, r).0.users && SameLockout(db.users[u], Handle(db, r).0.users[u])
  {
  }

  /** Apart from logins to the account and clearing requests, nothing touches its lockout. */
  lemma LockoutEffect(db: Db, r: Request, u: UserId)
    requires u in db.users && FreshIds(db, r)
    ensures u in Handle(db, r).0.users
    ensures if Clears(db, r, u) then NoLockout(Handle(db, r).0.users[u])
            else if Evaluated(db, r, u) then Handle(db, r).0.users[u] == AfterFailure(db.users[u], r.stamp)
            else SameLockout(db.users[u], Handle(db, r).0.users[u])
  {
    if r.Login? {
      LoginEffect(db, r, u);
    } else if r.UpdateStatus? || r.BulkUpdateStatus? {
      StatusEffect(db, r, u);
    } else {
      OtherEffect(db, r, u);
    }
  }

  lemma NewUserIsUnlocked(db: Db, r: Request, u: UserId)
    requires u !in db.users && u in Handle(db, r).0.users
    ensures LockMatchesCounter(Handle(db, r).0.users[u])
  {
  }

  /** Every request keeps lock and counter in step, for every account. */
  lemma {:induction false} RunKeepsLocks(db: Db, requests: seq<Request>)
    requires LocksMatchCounters(db) && PossibleRun(db, requests)
    ensures LocksMatchCounters(Run(db, requests))
  {
    if requests != [] {
      var before, r := Run(db, requests[..|requests| - 1]), requests[|requests| - 1];
      RunKeepsLocks(db, requests[..|requests| - 1]);
      forall u | u in Handle(before, r).0.users
        ensures LockMatchesCounter(Handle(before, r).0.users[u])
      {
        if u in before.users {
          assert LockMatchesCounter(before.users[u]);
          LockoutEffect(before, r, u);
        } else {
          NewUserIsUnlocked(before, r, u);
        }
      }
    }
  }

  // ---------------------------------------------------------------- attempts over a run

  /** Clock readings of login requests do not run backwards. */
  predicate ClockRuns(requests: seq<Request>) {
    && (forall i :: 0 <= i < |requests| && requests[i].Login? ==> requests[i].gate <= requests[i].stamp)
    && (forall i, j :: 0 <= i < j < |requests| && requests[i].Login? && requests[j].Login?
                       ==> requests[i].stamp <= requests[j].gate)
  }

  ghost predicate NeverCleared(db: Db, requests: seq<Request>, u: UserId) {
    forall i :: 0 <= i < |requests| ==> !Clears(Run(db, requests[..i]), requests[i], u)
  }

  /** The evaluated attempts on u: how many, the clock at the first and the last, the last stamp. */
  datatype Attempts = Attempts(count: nat, first: int, last: int, stamp: int)

  ghost function NextAttempts(before: Db, r: Request, u: UserId, a: Attempts): Attempts {
    if Evaluated(before, r, u) then Attempts(a.count + 1, if a.count == 0 then r.gate else a.first, r.gate, r.stamp)
    else a
  }

  ghost function AttemptsOn(db: Db, requests: seq<Request>, u: UserId): Attempts {
    if requests == [] then Attempts(0, 0, 0, 0)
    else
      var front, r := requests[..|requests| - 1], requests[|requests| - 1];
      NextAttempts(Run(db, front), r, u, AttemptsOn(db, front, u))
  }

  /** What the row of u holds after a run without a clearing request, and when. */
  predicate Paced(user: User, a: Attempts) {
    && user.failedLoginAttempts == a.count
    && user.accountLockedUntil == (if a.count < MAX_FAILED_ATTEMPTS then None else Some(a.stamp + LOCKOUT_DURATION_MS))
    && a.first <= a.last <= a.stamp
    && (a.count > MAX_FAILED_ATTEMPTS ==>
          a.last - a.first >= (a.count - MAX_FAILED_ATTEMPTS) * LOCKOUT_DURATION_MS)
  }

  predicate StampFrom(requests: seq<Request>, a: Attempts) {
    a.count > 0 ==> exists i :: 0 <= i < |requests| && requests[i].Login? && requests[i].stamp == a.stamp
  }

  lemma PacedStep(db: Db, r: Request, u: UserId, a: Attempts)
    requires u in db.users && FreshIds(db, r) && Paced(db.users[u], a)
    requires Evaluated(db, r, u) && !Clears(db, r, u)
    requires r.gate <= r.stamp && (a.count > 0 ==> a.stamp <= r.gate)
    ensures u in Handle(db, r).0.users
    ensures Paced(Handle(db, r).0.users[u],
                  Attempts(a.count + 1, if a.count == 0 then r.gate else a.first, r.gate, r.stamp))
  {
  }

  /** The account is on pace with the attempts made on it, whose last stamp is that of a request. */
  predicate OnPace(after: Db, requests: seq<Request>, u: UserId, a: Attempts) {
    u in after.users && Paced(after.users[u], a) && StampFrom(requests, a)
  }

  lemma StampSnoc(front: seq<Request>, r: Request, a: Attempts)
    ensures StampFrom(front, a) ==> StampFrom(front + [r], a)
    ensures r.Login? && r.stamp == a.stamp ==> StampFrom(front + [r], a)
  {
    var all := front + [r];
    assert all[|front|] == r;
    if a.count > 0 && StampFrom(front, a) {
      var i :| 0 <= i < |front| && front[i].Login? && front[i].stamp == a.stamp;
      assert all[i] == front[i];
    }
  }

  lemma PacedSnoc(before: Db, front: seq<Request>, r: Request, u: UserId, a: Attempts)
    requires OnPace(before, front, u, a) && FreshIds(before, r) && !Clears(before, r, u) && ClockRuns(front + [r])
    ensures OnPace(Handle(before, r).0, front + [r], u, NextAttempts(before, r, u, a))
  {
    StampSnoc(front, r, a);
    StampSnoc(front, r, NextAttempts(before, r, u, a));
    if Evaluated(before, r, u) {
      assert (front + [r])[|front|] == r;
      if a.count > 0 {
        var i :| 0 <= i < |front| && front[i].Login? && front[i].stamp == a.stamp;
        assert (front + [r])[i] == front[i];
      }
      PacedStep(before, r, u, a);
    } else {
      LockoutEffect(before, r, u);
    }
  }

  lemma ClockRunsPrefix(requests: seq<Request>)
    requires requests != [] && ClockRuns(requests)
    ensures ClockRuns(requests[..|requests| - 1])
  {
  }

  lemma NeverClearedPrefix(db: Db, requests: seq<Request>, u: UserId)
    requires requests != [] && NeverCleared(db, requests, u)
    ensures NeverCleared(db, requests[..|requests| - 1], u)
    ensures !Clears(Run(db, requests[..|requests| - 1]), requests[|requests| - 1], u)
  {
    var front := requests[..|requests| - 1];
    forall i | 0 <= i < |front|
      ensures !Clears(Run(db, front[..i]), front[i], u)
    {
      assert front[..i] == requests[..i];
    }
  }

  lemma PossiblePrefix(db: Db, requests: seq<Request>)
    requires requests != [] && PossibleRun(db, requests)
    ensures var front, r := requests[..|requests| - 1], requests[|requests| - 1];
            && PossibleRun(db, front) && FreshIds(Run(db, front), r)
            && Run(db, requests) == Handle(Run(db, front), r).0
  {
  }

  lemma {:induction false} RunIsPaced(db: Db, requests: seq<Request>, u: UserId)
    requires u in db.users && db.users[u].failedLoginAttempts == 0 && db.users[u].accountLockedUntil == None
    requires PossibleRun(db, requests) && NeverCleared(db, requests, u) && ClockRuns(requests)
    ensures OnPace(Run(db, requests), requests, u, AttemptsOn(db, requests, u))
  {
    if requests != [] {
      var front, r := requests[..|requests| - 1], requests[|requests| - 1];
      NeverClearedPrefix(db, requests, u);
      ClockRunsPrefix(requests);
      PossiblePrefix(db, requests);
      RunIsPaced(db, front, u);
      assert requests == front + [r];
      PacedSnoc(Run(db, front), front, r, u, AttemptsOn(db, front, u));
      assert AttemptsOn(db, requests, u) == NextAttempts(Run(db, front), r, u, AttemptsOn(db, front, u));
    }
  }

  lemma PacedCount(user: User, a: Attempts)
    requires Paced(user, a)
    ensures WithinBound(a)
  {
  }

  /**
   From a cleared account, over any run of requests without a clearing one, at most
   5 + floor(D / 30 minutes) attempts are evaluated, D being the time between the first and the last.
   */
  lemma AttemptsAreBounded(db: Db, requests: seq<Request>, u: UserId)
    requires u in db.users && db.users[u].failedLoginAttempts == 0 && db.users[u].accountLockedUntil == None
    requires PossibleRun(db, requests) && NeverCleared(db, requests, u) && ClockRuns(requests)
    ensures WithinBound(AttemptsOn(db, requests, u))
  {
    RunIsPaced(db, requests, u);
    PacedCount(Run(db, requests).users[u], AttemptsOn(db, requests, u));
  }

  predicate WithinBound(a: Attempts) {
    a.count <= 5 + (a.last - a.first) / 1_800_000
  }

  // ---------------------------------------------------------------- the bound is attained

  /** Five failures at once, then one whenever the lock has just run out. */
  function TimeOf(n: nat): nat {
    if n <= MAX_FAILED_ATTEMPTS then 0 else (n - MAX_FAILED_ATTEMPTS) * LOCKOUT_DURATION_MS
  }

  function Persistent(username: string, password: string, n: nat, sid: SessionId): seq<Request> {
    if n == 0 then []
    else Persistent(username, password, n - 1, sid) + [Login(username, password, false, TimeOf(n), TimeOf(n), sid)]
  }

  /** The database after n such failures. */
  function Tried(db: Db, u: UserId, n: nat): Db
    requires u in db.users
  {
    db.(users := db.users[u := db.users[u].(
      failedLoginAttempts := n,
      accountLockedUntil := if n < MAX_FAILED_ATTEMPTS then None else Some(TimeOf(n) + LOCKOUT_DURATION_MS))])
  }

  /** Account u has no failures counted, and is the one a login under its name finds. */
  predicate Untouched(db: Db, u: UserId) {
    && u in db.users && !db.users[u].isDeleted
    && db.users[u].failedLoginAttempts == 0 && db.users[u].accountLockedUntil == None
    && forall v :: v in db.users && v != u && !db.users[v].isDeleted ==> db.users[v].username != db.users[u].username
  }

  lemma TriedStep(db: Db, u: UserId, password: string, n: nat, sid: SessionId)
    requires Untouched(db, u) && db.users[u].password != password
    ensures var r := Login(db.users[u].username, password, false, TimeOf(n + 1), TimeOf(n + 1), sid);
            Evaluated(Tried(db, u, n), r, u) && Handle(Tried(db, u, n), r).0 == Tried(db, u, n + 1)
  {
    var before, name := Tried(db, u, n), db.users[u].username;
    assert LiveUserNamed(before, u, name);
    assert FindByUsername(before, name) == Some(u);
    var after := HandleLogin(before, name, password, false, TimeOf(n + 1), TimeOf(n + 1), sid).0;
    assert after.users == before.users[u := AfterFailure(before.users[u], TimeOf(n + 1))];
    assert AfterFailure(before.users[u], TimeOf(n + 1)) == Tried(db, u, n + 1).users[u];
    assert after.users == Tried(db, u, n + 1).users;
  }

  lemma RunSnoc(db: Db, front: seq<Request>, r: Request, u: UserId)
    requires PossibleRun(db, front) && FreshIds(Run(db, front), r)
    ensures PossibleRun(db, front + [r])
    ensures Run(db, front + [r]) == Handle(Run(db, front), r).0
    ensures Evaluated(Run(db, front), r, u) ==>
              var a := AttemptsOn(db, front, u);
              AttemptsOn(db, front + [r], u)
              == Attempts(a.count + 1, if a.count == 0 then r.gate else a.first, r.gate, r.stamp)
  {
  }

  ghost predicate Reached(db: Db, requests: seq<Request>, u: UserId, n: nat)
    requires u in db.users
  {
    && PossibleRun(db, requests)
    && Run(db, requests) == Tried(db, u, n)
    && AttemptsOn(db, requests, u) == Attempts(n, 0, TimeOf(n), TimeOf(n))
  }

  lemma ReachedStep(db: Db, front: seq<Request>, u: UserId, password: string, n: nat, sid: SessionId)
    requires Untouched(db, u) && db.users[u].password != password && sid !in db.sessions
    requires Reached(db, front, u, n)
    ensures var next := Login(db.users[u].username, password, false, TimeOf(n + 1), TimeOf(n + 1), sid);
            Reached(db, front + [next], u, n + 1)
  {
    TriedStep(db, u, password, n, sid);
    RunSnoc(db, front, Login(db.users[u].username, password, false, TimeOf(n + 1), TimeOf(n + 1), sid), u);
  }

  lemma NothingTried(db: Db, u: UserId)
    requires Untouched(db, u)
    ensures Reached(db, [], u, 0)
  {
    assert Tried(db, u, 0).users == db.users;
  }

  lemma {:induction false} PersistentRun(db: Db, u: UserId, password: string, n: nat, sid: SessionId)
    requires Untouched(db, u) && db.users[u].password != password && sid !in db.sessions
    ensures Reached(db, Persistent(db.users[u].username, password, n, sid), u, n)
  {
    if n == 0 {
      NothingTried(db, u);
    } else {
      var name := db.users[u].username;
      var front := Persistent(name, password, n - 1, sid);
      PersistentRun(db, u, password, n - 1, sid);
      ReachedStep(db, front, u, password, n - 1, sid);
      assert Persistent(name, password, n, sid)
          == front + [Login(name, password, false, TimeOf(n), TimeOf(n), sid)];
    }
  }

  lemma TimeMeasures(n: nat)
    requires n >= MAX_FAILED_ATTEMPTS
    ensures TimeOf(n) / LOCKOUT_DURATION_MS == n - MAX_FAILED_ATTEMPTS
  {
  }

  lemma {:induction false} PersistentShape(username: string, password: string, n: nat, sid: SessionId)
    ensures var p := Persistent(username, password, n, sid);
            && |p| == n
            && (forall i :: 0 <= i < n ==> p[i] == Login(username, password, false, TimeOf(i + 1), TimeOf(i + 1), sid))
            && (forall i :: 0 <= i < n ==> p[..i] == Persistent(username, password, i, sid))
  {
    if n > 0 {
      PersistentShape(username, password, n - 1, sid);
      var p, front := Persistent(username, password, n, sid), Persistent(username, password, n - 1, sid);
      forall i | 0 <= i < n
        ensures p[..i] == Persistent(username, password, i, sid)
      {
        assert p[..i] == front[..i];
        assert i == n - 1 ==> front[..i] == front;
      }
    }
  }

  lemma PersistentClockRuns(username: string, password: string, n: nat, sid: SessionId)
    ensures ClockRuns(Persistent(username, password, n, sid))
  {
    PersistentShape(username, password, n, sid);
  }

  lemma PersistentNeverCleared(db: Db, u: UserId, password: string, n: nat, sid: SessionId)
    requires Untouched(db, u) && db.users[u].password != password && sid !in db.sessions
    ensures NeverCleared(db, Persistent(db.users[u].username, password, n, sid), u)
  {
    var p := Persistent(db.users[u].username, password, n, sid);
    PersistentShape(db.users[u].username, password, n, sid);
    forall i | 0 <= i < |p|
      ensures !Clears(Run(db, p[..i]), p[i], u)
    {
      PersistentRun(db, u, password, i, sid);
      assert Run(db, p[..i]) == Tried(db, u, i);
    }
  }

  /**
   The bound is exact: for every number of attempts from five on there is a possible run with a
   forward clock and without a clearing request that makes them, and meets it.
   */
  lemma BoundIsAttained(db: Db, u: UserId, password: string, n: nat, sid: SessionId)
    requires Untouched(db, u) && db.users[u].password != password && sid !in db.sessions
    requires n >= 5
    ensures var p := Persistent(db.users[u].username, password, n, sid);
            var a := AttemptsOn(db, p, u);
            && PossibleRun(db, p) && ClockRuns(p) && NeverCleared(db, p, u)
            && a.count == n == 5 + (a.last - a.first) / 1_800_000
  {
    PersistentRun(db, u, password, n, sid);
    PersistentClockRuns(db.users[u].username, password, n, sid);
    PersistentNeverCleared(db, u, password, n, sid);
    TimeMeasures(n);
  }
}
