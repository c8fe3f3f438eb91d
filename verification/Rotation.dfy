/**
 Refresh-token rotation under interleaving.  A refresh reads its session row, revokes it with a
 conditional update, and inserts a successor row; other refreshes, sign-ins, logouts,
 terminations and revoke-alls take their own steps in between, and any request may die.
 */
module Rotation {
  import opened Options
  import opened AuthModel

  type RequestId = nat

  /** A request between two of its steps. */
  datatype InFlight =
    | SigningIn(user: UserId, rememberMe: bool)
    | RowRead(sid: SessionId, user: UserId, rememberMe: bool)
    | RowRotated(sid: SessionId, user: UserId, rememberMe: bool)
    | Closing(sid: SessionId)

  /**
   The tables, the requests in flight, and what is recorded about rows: the row a successor
   replaced, and the order of insertion.
   */
  datatype System = System(
    db: Db, inFlight: map<RequestId, InFlight>, parent: map<SessionId, SessionId>,
    born: map<SessionId, nat>, clock: nat)

  // ---------------------------------------------------------------- the atomic steps

  datatype Step =
    | StartSignIn(w: RequestId, user: UserId, rememberMe: bool)
    | InsertSignIn(w: RequestId, now: int, sid: SessionId)
    | ReadRow(w: RequestId, token: Token, now: int)
    | RotateRow(w: RequestId)
    | InsertSuccessor(w: RequestId, now: int, sid: SessionId)
    | LogoutRead(w: RequestId, token: Token)
    | TerminateRead(w: RequestId, session: SessionId)
    | SaveClosed(w: RequestId)
    | RevokeAllOf(users: set<UserId>)
    | ChangeUser(u: UserId, row: User)
    | AddUser(u: UserId, row: User)
    | Die(w: RequestId)

  function Leave(sys: System, w: RequestId): System {
    sys.(inFlight := sys.inFlight - {w})
  }

  /** The insert at the end of `buildSession`. */
  function Insert(sys: System, u: UserId, rememberMe: bool, now: int, sid: SessionId): System
    requires u in sys.db.users
  {
    sys.(db := BuildSession(sys.db, u, rememberMe, now, sid).0,
         born := sys.born[sid := sys.clock], clock := sys.clock + 1)
  }

  /** A step whose condition does not hold is not taken. */
  predicate Enabled(sys: System, step: Step) {
    match step
    case StartSignIn(w, user, _) => w !in sys.inFlight && user in sys.db.users
    case InsertSignIn(w, _, sid) =>
      w in sys.inFlight && sys.inFlight[w].SigningIn? && sid !in sys.db.sessions && sys.inFlight[w].user in sys.db.users
    case ReadRow(w, token, now) => w !in sys.inFlight && RefreshAccepted(sys.db, token, token.sid, now)
    case RotateRow(w) => w in sys.inFlight && sys.inFlight[w].RowRead? && sys.inFlight[w].sid in sys.db.sessions
    case InsertSuccessor(w, _, sid) =>
      && w in sys.inFlight && sys.inFlight[w].RowRotated? && sid !in sys.db.sessions
      && sys.inFlight[w].user in sys.db.users
    case LogoutRead(w, token) => w !in sys.inFlight && LogoutRow(sys.db, token, token.sid)
    case TerminateRead(w, session) => w !in sys.inFlight && session in sys.db.sessions
    case SaveClosed(w) => w in sys.inFlight && sys.inFlight[w].Closing? && sys.inFlight[w].sid in sys.db.sessions
    case RevokeAllOf(_) => true
    case ChangeUser(u, row) => u in sys.db.users && row.username == sys.db.users[u].username
    case AddUser(u, _) => u !in sys.db.users
    case Die(w) => w in sys.inFlight
  }

  function Apply(sys: System, step: Step): System {
    if !Enabled(sys, step) then sys
    else
      match step
      case StartSignIn(w, user, rememberMe) => sys.(inFlight := sys.inFlight[w := SigningIn(user, rememberMe)])
      case InsertSignIn(w, now, sid) =>
        Leave(Insert(sys, sys.inFlight[w].user, sys.inFlight[w].rememberMe, now, sid), w)
      case ReadRow(w, token, now) =>
        sys.(inFlight := sys.inFlight[w := RowRead(token.sid, sys.db.sessions[token.sid].user, token.rememberMe)])
      case RotateRow(w) =>
        var f := sys.inFlight[w];
        var row := sys.db.sessions[f.sid];
        if !row.isRevoked && row.isActive then
          sys.(db := CloseSession(sys.db, f.sid),
               inFlight := sys.inFlight[w := RowRotated(f.sid, f.user, f.rememberMe)])
        else Leave(sys, w)
      case InsertSuccessor(w, now, sid) =>
        var f := sys.inFlight[w];
        Leave(Insert(sys, f.user, f.rememberMe, now, sid).(parent := sys.parent[sid := f.sid]), w)
      case LogoutRead(w, token) => sys.(inFlight := sys.inFlight[w := Closing(token.sid)])
      case TerminateRead(w, session) => sys.(inFlight := sys.inFlight[w := Closing(session)])
      case SaveClosed(w) => Leave(sys.(db := CloseSession(sys.db, sys.inFlight[w].sid)), w)
      case RevokeAllOf(users) => sys.(db := RevokeAll(sys.db, users))
      case ChangeUser(u, row) => sys.(db := sys.db.(users := sys.db.users[u := row]))
      case AddUser(u, row) => sys.(db := sys.db.(users := sys.db.users[u := row]))
      case Die(w) => Leave(sys, w)
  }

  function RunSteps(sys: System, steps: seq<Step>): System {
    if steps == [] then sys
    else Apply(RunSteps(sys, steps[..|steps| - 1]), steps[|steps| - 1])
  }

  predicate Initial(sys: System) {
    sys.db.sessions == map[] && sys.inFlight == map[] && sys.parent == map[] && sys.born == map[]
  }

  // ---------------------------------------------------------------- the invariant

  predicate RowsSound(db: Db, born: map<SessionId, nat>, clock: nat) {
    born.Keys == db.sessions.Keys
    && forall s :: s in db.sessions ==>
         && db.sessions[s].user in db.users
         && db.sessions[s].isActive == !db.sessions[s].isRevoked
         && db.sessions[s].tokenHash.Refresh? && db.sessions[s].tokenHash.sid == s
         && born[s] < clock
  }

  predicate SameHolder(a: Session, b: Session) {
    && a.user == b.user && a.tokenHash.Refresh? && b.tokenHash.Refresh?
    && a.tokenHash.rememberMe == b.tokenHash.rememberMe
  }

  /** A successor is younger, of the same user and flag, and the row it replaced is revoked. */
  predicate Succeeds(db: Db, born: map<SessionId, nat>, spent: SessionId, next: SessionId) {
    && next in db.sessions && spent in db.sessions && next in born && spent in born
    && born[spent] < born[next] && db.sessions[spent].isRevoked
    && SameHolder(db.sessions[next], db.sessions[spent])
  }

  predicate ParentsSound(db: Db, born: map<SessionId, nat>, parent: map<SessionId, SessionId>) {
    forall c :: c in parent ==> Succeeds(db, born, parent[c], c)
  }

  predicate OneSuccessor(parent: map<SessionId, SessionId>) {
    forall a, b :: a in parent && b in parent && a != b ==> parent[a] != parent[b]
  }

  predicate FlightSound(db: Db, f: InFlight) {
    match f
    case SigningIn(user, _) => user in db.users
    case Closing(sid) => sid in db.sessions
    case RowRead(sid, user, rememberMe) => Holds(db, sid, user, rememberMe)
    case RowRotated(sid, user, rememberMe) =>
      Holds(db, sid, user, rememberMe) && db.sessions[sid].isRevoked && user in db.users
  }

  predicate Holds(db: Db, sid: SessionId, user: UserId, rememberMe: bool) {
    && sid in db.sessions && db.sessions[sid].user == user
    && db.sessions[sid].tokenHash.Refresh? && db.sessions[sid].tokenHash.rememberMe == rememberMe
  }

  predicate FlightsSound(db: Db, inFlight: map<RequestId, InFlight>) {
    forall w :: w in inFlight ==> FlightSound(db, inFlight[w])
  }

  /** A rotated row has no successor yet, and only one request is about to give it one. */
  predicate RotationsExclusive(inFlight: map<RequestId, InFlight>, parent: map<SessionId, SessionId>) {
    && (forall w, c :: w in inFlight && inFlight[w].RowRotated? && c in parent ==> parent[c] != inFlight[w].sid)
    && (forall v, w :: v in inFlight && w in inFlight && v != w && inFlight[v].RowRotated? && inFlight[w].RowRotated?
                       ==> inFlight[v].sid != inFlight[w].sid)
  }

  predicate Sound(sys: System) {
    && RowsSound(sys.db, sys.born, sys.clock) && ParentsSound(sys.db, sys.born, sys.parent)
    && OneSuccessor(sys.parent) && FlightsSound(sys.db, sys.inFlight)
    && RotationsExclusive(sys.inFlight, sys.parent)
  }

  /** Rows are only ever closed, users never disappear. */
  predicate Shrinks(before: Db, after: Db) {
    && after.sessions.Keys == before.sessions.Keys && before.users.Keys <= after.users.Keys
    && forall s :: s in before.sessions ==>
         after.sessions[s] == before.sessions[s] || after.sessions[s] == Closed(before.sessions[s])
  }

  lemma ShrinkingKeepsSound(sys: System, after: Db)
    requires Sound(sys) && Shrinks(sys.db, after)
    ensures Sound(sys.(db := after))
  {
    forall w | w in sys.inFlight
      ensures FlightSound(after, sys.inFlight[w])
    {
      assert FlightSound(sys.db, sys.inFlight[w]);
    }
    forall c | c in sys.parent
      ensures Succeeds(after, sys.born, sys.parent[c], c)
    {
      assert Succeeds(sys.db, sys.born, sys.parent[c], c);
    }
  }

  lemma LeavingKeepsSound(sys: System, w: RequestId)
    requires Sound(sys)
    ensures Sound(Leave(sys, w))
  {
  }

  lemma EnteringKeepsSound(sys: System, w: RequestId, f: InFlight)
    requires Sound(sys) && FlightSound(sys.db, f)
    requires f.RowRotated? ==>
               && (forall c :: c in sys.parent ==> sys.parent[c] != f.sid)
               && (forall v :: v in sys.inFlight && sys.inFlight[v].RowRotated? ==> sys.inFlight[v].sid != f.sid)
    ensures Sound(sys.(inFlight := sys.inFlight[w := f]))
  {
  }

  /** Only an unrevoked row is rotated, so no successor and no other rotation exists. */
  lemma RotatingKeepsSound(sys: System, w: RequestId)
    requires Sound(sys) && Enabled(sys, RotateRow(w))
    ensures Sound(Apply(sys, RotateRow(w)))
  {
    var f := sys.inFlight[w];
    var row := sys.db.sessions[f.sid];
    if !row.isRevoked && row.isActive {
      assert FlightSound(sys.db, f);
      forall c | c in sys.parent
        ensures sys.parent[c] != f.sid
      {
        assert Succeeds(sys.db, sys.born, sys.parent[c], c);
      }
      forall v | v in sys.inFlight && sys.inFlight[v].RowRotated?
        ensures sys.inFlight[v].sid != f.sid
      {
        assert FlightSound(sys.db, sys.inFlight[v]);
      }
      var closed := sys.(db := CloseSession(sys.db, f.sid));
      ShrinkingKeepsSound(sys, closed.db);
      EnteringKeepsSound(closed, w, RowRotated(f.sid, f.user, f.rememberMe));
    } else {
      LeavingKeepsSound(sys, w);
    }
  }

  lemma InsertingKeepsSound(sys: System, u: UserId, rememberMe: bool, now: int, sid: SessionId)
    requires Sound(sys) && u in sys.db.users && sid !in sys.db.sessions
    ensures Sound(Insert(sys, u, rememberMe, now, sid))
  {
    var sys' := Insert(sys, u, rememberMe, now, sid);
    forall w | w in sys.inFlight
      ensures FlightSound(sys'.db, sys.inFlight[w])
    {
      assert FlightSound(sys.db, sys.inFlight[w]);
    }
    forall c | c in sys.parent
      ensures Succeeds(sys'.db, sys'.born, sys.parent[c], c)
    {
      assert Succeeds(sys.db, sys.born, sys.parent[c], c);
    }
  }

  /** A new row is recorded as the successor of a revoked row that has none and gets none otherwise. */
  lemma LinkingKeepsSound(sys: System, spent: SessionId, sid: SessionId)
    requires Sound(sys) && sid !in sys.parent && Succeeds(sys.db, sys.born, spent, sid)
    requires forall c :: c in sys.parent ==> sys.parent[c] != spent
    requires forall v :: v in sys.inFlight && sys.inFlight[v].RowRotated? ==> sys.inFlight[v].sid != spent
    ensures Sound(sys.(parent := sys.parent[sid := spent]))
  {
  }

  lemma InsertingSuccessorKeepsSound(sys: System, w: RequestId, now: int, sid: SessionId)
    requires Sound(sys) && Enabled(sys, InsertSuccessor(w, now, sid))
    ensures Sound(Apply(sys, InsertSuccessor(w, now, sid)))
  {
    var f := sys.inFlight[w];
    assert FlightSound(sys.db, f);
    InsertingKeepsSound(sys, f.user, f.rememberMe, now, sid);
    var inserted := Insert(sys, f.user, f.rememberMe, now, sid);
    LeavingKeepsSound(inserted, w);
    assert sid !in sys.parent by {
      assert sid in sys.parent ==> Succeeds(sys.db, sys.born, sys.parent[sid], sid);
    }
    LinkingKeepsSound(Leave(inserted, w), f.sid, sid);
  }

  lemma StepKeepsSound(sys: System, step: Step)
    requires Sound(sys)
    ensures Sound(Apply(sys, step))
  {
    if Enabled(sys, step) {
      match step
      case StartSignIn(w, user, rememberMe) => EnteringKeepsSound(sys, w, SigningIn(user, rememberMe));
      case InsertSignIn(w, now, sid) =>
        InsertingKeepsSound(sys, sys.inFlight[w].user, sys.inFlight[w].rememberMe, now, sid);
        LeavingKeepsSound(Insert(sys, sys.inFlight[w].user, sys.inFlight[w].rememberMe, now, sid), w);
      case ReadRow(w, token, now) =>
        EnteringKeepsSound(sys, w, RowRead(token.sid, sys.db.sessions[token.sid].user, token.rememberMe));
      case RotateRow(w) => RotatingKeepsSound(sys, w);
      case InsertSuccessor(w, now, sid) => InsertingSuccessorKeepsSound(sys, w, now, sid);
      case LogoutRead(w, token) => EnteringKeepsSound(sys, w, Closing(token.sid));
      case TerminateRead(w, session) => EnteringKeepsSound(sys, w, Closing(session));
      case SaveClosed(w) =>
        ShrinkingKeepsSound(sys, CloseSession(sys.db, sys.inFlight[w].sid));
        LeavingKeepsSound(sys.(db := CloseSession(sys.db, sys.inFlight[w].sid)), w);
      case RevokeAllOf(users) => ShrinkingKeepsSound(sys, RevokeAll(sys.db, users));
      case ChangeUser(u, row) => ShrinkingKeepsSound(sys, sys.db.(users := sys.db.users[u := row]));
      case AddUser(u, row) => ShrinkingKeepsSound(sys, sys.db.(users := sys.db.users[u := row]));
      case Die(w) => LeavingKeepsSound(sys, w);
    }
  }

  lemma {:induction false} RunKeepsSound(sys: System, steps: seq<Step>)
    requires Initial(sys)
    ensures Sound(RunSteps(sys, steps))
  {
    if steps != [] {
      RunKeepsSound(sys, steps[..|steps| - 1]);
      StepKeepsSound(RunSteps(sys, steps[..|steps| - 1]), steps[|steps| - 1]);
    }
  }

  // ---------------------------------------------------------------- lineages

  predicate Linked(sys: System) {
    forall c :: c in sys.parent ==>
      c in sys.born && sys.parent[c] in sys.born && sys.born[sys.parent[c]] < sys.born[c]
  }

  function Age(sys: System, s: SessionId): nat {
    if s in sys.born then sys.born[s] else 0
  }

  /** The rows from the one a sign-in inserted down to s. */
  function Lineage(sys: System, s: SessionId): (line: seq<SessionId>)
    requires Linked(sys)
    ensures line != [] && line[|line| - 1] == s
    ensures line[0] !in sys.parent
    decreases Age(sys, s)
  {
    if s in sys.parent then Lineage(sys, sys.parent[s]) + [s] else [s]
  }

  function Root(sys: System, s: SessionId): SessionId
    requires Linked(sys)
  {
    Lineage(sys, s)[0]
  }

  /** Of two rows from one sign-in, the shorter lineage is a prefix of the longer one. */
  lemma {:induction false} LineagesComparable(sys: System, a: SessionId, b: SessionId)
    requires Linked(sys) && OneSuccessor(sys.parent)
    requires Root(sys, a) == Root(sys, b) && |Lineage(sys, a)| <= |Lineage(sys, b)|
    ensures Lineage(sys, a) <= Lineage(sys, b)
    decreases |Lineage(sys, b)|
  {
    if |Lineage(sys, a)| < |Lineage(sys, b)| {
      assert Lineage(sys, b) == Lineage(sys, sys.parent[b]) + [b];
      assert Root(sys, sys.parent[b]) == Root(sys, b);
      LineagesComparable(sys, a, sys.parent[b]);
    } else if a in sys.parent {
      var p, q := sys.parent[a], sys.parent[b];
      assert Lineage(sys, a) == Lineage(sys, p) + [a] && Lineage(sys, b) == Lineage(sys, q) + [b];
      assert Root(sys, p) == Root(sys, a) && Root(sys, q) == Root(sys, b);
      LineagesComparable(sys, p, q);
      assert p == q;
    }
  }

  /** A row above the last one of a lineage has been replaced, hence revoked. */
  lemma {:induction false} AncestorsRevoked(sys: System, s: SessionId, i: nat)
    requires Sound(sys) && Linked(sys) && i < |Lineage(sys, s)| - 1
    ensures Lineage(sys, s)[i] in sys.db.sessions && sys.db.sessions[Lineage(sys, s)[i]].isRevoked
    decreases Age(sys, s)
  {
    var p := sys.parent[s];
    assert Lineage(sys, s) == Lineage(sys, p) + [s];
    if i < |Lineage(sys, p)| - 1 {
      AncestorsRevoked(sys, p, i);
    }
  }

  lemma {:induction false} RootShares(sys: System, s: SessionId)
    requires Sound(sys) && Linked(sys) && s in sys.db.sessions
    ensures var r := Root(sys, s);
            r in sys.db.sessions && SameHolder(sys.db.sessions[r], sys.db.sessions[s])
    decreases Age(sys, s)
  {
    if s in sys.parent {
      RootShares(sys, sys.parent[s]);
      assert Root(sys, s) == Root(sys, sys.parent[s]);
    }
  }

  lemma OlderIsRevoked(sys: System, a: SessionId, b: SessionId)
    requires Sound(sys) && Linked(sys) && a in sys.db.sessions && b in sys.db.sessions
    requires Root(sys, a) == Root(sys, b) && |Lineage(sys, a)| <= |Lineage(sys, b)|
    ensures Lineage(sys, a) <= Lineage(sys, b)
    ensures a != b ==> sys.db.sessions[a].isRevoked
  {
    LineagesComparable(sys, a, b);
    var i := |Lineage(sys, a)| - 1;
    assert Lineage(sys, b)[i] == Lineage(sys, a)[i] == a;
    if i < |Lineage(sys, b)| - 1 {
      AncestorsRevoked(sys, b, i);
    }
  }

  /**
   After any interleaving: no row has two successors; the rows that descend from one sign-in
   form an unforked chain with at most one unrevoked row; and each keeps that sign-in's user
   and rememberMe flag.
   */
  lemma RotationSafety(sys: System, steps: seq<Step>, a: SessionId, b: SessionId)
    requires Initial(sys)
    ensures var after := RunSteps(sys, steps);
            && Linked(after) && OneSuccessor(after.parent)
            && (a in after.db.sessions && b in after.db.sessions && Root(after, a) == Root(after, b) ==>
                  && (Lineage(after, a) <= Lineage(after, b) || Lineage(after, b) <= Lineage(after, a))
                  && (a != b ==> after.db.sessions[a].isRevoked || after.db.sessions[b].isRevoked)
                  && SameHolder(after.db.sessions[a], after.db.sessions[b]))
  {
    var after := RunSteps(sys, steps);
    RunKeepsSound(sys, steps);
    if a in after.db.sessions && b in after.db.sessions && Root(after, a) == Root(after, b) {
      RootShares(after, a);
      RootShares(after, b);
      if |Lineage(after, a)| <= |Lineage(after, b)| {
        OlderIsRevoked(after, a, b);
      } else {
        OlderIsRevoked(after, b, a);
      }
    }
  }

  // ---------------------------------------------------------------- steps and whole requests

  /** A refresh that nothing interrupts is the whole request: read, rotate, insert. */
  lemma RefreshIsThreeSteps(sys: System, w: RequestId, token: Token, now: int, sid: SessionId)
    requires w !in sys.inFlight && sid !in sys.db.sessions && token.sid in sys.db.sessions
    requires RefreshAccepted(sys.db, token, token.sid, now)
    ensures var read := Apply(sys, ReadRow(w, token, now));
            var rotated := Apply(read, RotateRow(w));
            var done := Apply(rotated, InsertSuccessor(w, now, sid));
            && done.db == HandleRefresh(sys.db, Some(token), now, sid).0 && done.inFlight == sys.inFlight
            && done.parent == sys.parent[sid := token.sid]
  {
    var owner := sys.db.sessions[token.sid].user;
    var read := Apply(sys, ReadRow(w, token, now));
    assert read == sys.(inFlight := sys.inFlight[w := RowRead(token.sid, owner, token.rememberMe)]);
    var rotated := Apply(read, RotateRow(w));
    assert rotated == sys.(db := CloseSession(sys.db, token.sid),
                           inFlight := read.inFlight[w := RowRotated(token.sid, owner, token.rememberMe)]);
    assert rotated.inFlight - {w} == sys.inFlight;
  }

  /** A refresh that is refused reads no row to go on with. */
  lemma RefusedRefreshStops(sys: System, w: RequestId, token: Token, now: int)
    requires w !in sys.inFlight && !RefreshAccepted(sys.db, token, token.sid, now)
    ensures Apply(sys, ReadRow(w, token, now)) == sys
  {
  }

  lemma SignInIsTwoSteps(sys: System, w: RequestId, u: UserId, rememberMe: bool, now: int, sid: SessionId)
    requires w !in sys.inFlight && sid !in sys.db.sessions && u in sys.db.users
    ensures var done := Apply(Apply(sys, StartSignIn(w, u, rememberMe)), InsertSignIn(w, now, sid));
            done.db == BuildSession(sys.db, u, rememberMe, now, sid).0 && done.inFlight == sys.inFlight
  {
    assert sys.inFlight[w := SigningIn(u, rememberMe)] - {w} == sys.inFlight;
  }

  /** So is a login: the unlocked row is saved, then the session inserted. */
  lemma LoginIsThreeSteps(sys: System, w: RequestId, username: string, password: string, rememberMe: bool,
                          gate: int, stamp: int, sid: SessionId) returns (u: UserId)
    requires w !in sys.inFlight && sid !in sys.db.sessions
    requires HandleLogin(sys.db, username, password, rememberMe, gate, stamp, sid).1.Issued?
    ensures u in sys.db.users
    ensures var saved := Apply(sys, ChangeUser(u, Unlocked(sys.db.users[u])));
            var done := Apply(Apply(saved, StartSignIn(w, u, rememberMe)), InsertSignIn(w, stamp, sid));
            && done.db == HandleLogin(sys.db, username, password, rememberMe, gate, stamp, sid).0
            && done.inFlight == sys.inFlight
  {
    u := FindByUsername(sys.db, username).value;
    var saved := Apply(sys, ChangeUser(u, Unlocked(sys.db.users[u])));
    assert saved == sys.(db := sys.db.(users := sys.db.users[u := Unlocked(sys.db.users[u])]));
    SignInIsTwoSteps(saved, w, u, rememberMe, stamp, sid);
  }

  /** So are logout and the termination of one session. */
  lemma LogoutIsTwoSteps(sys: System, w: RequestId, token: Token)
    requires w !in sys.inFlight && LogoutRow(sys.db, token, token.sid)
    ensures var done := Apply(Apply(sys, LogoutRead(w, token)), SaveClosed(w));
            done.db == HandleLogout(sys.db, Some(token)).0 && done.inFlight == sys.inFlight
  {
    assert sys.inFlight[w := Closing(token.sid)] - {w} == sys.inFlight;
  }

  lemma TerminationIsTwoSteps(sys: System, w: RequestId, session: SessionId, scope: Option<TenantId>)
    requires w !in sys.inFlight && HandleTerminateSession(sys.db, session, scope).1 == Done
    ensures var done := Apply(Apply(sys, TerminateRead(w, session)), SaveClosed(w));
            done.db == HandleTerminateSession(sys.db, session, scope).0 && done.inFlight == sys.inFlight
  {
    assert sys.inFlight[w := Closing(session)] - {w} == sys.inFlight;
  }

  /** And revoke-all is one statement. */
  lemma TerminateAllIsOneStep(sys: System, u: UserId, scope: Option<TenantId>)
    requires HandleTerminateAll(sys.db, u, scope).1.Affected?
    ensures Apply(sys, RevokeAllOf({u})) == sys.(db := HandleTerminateAll(sys.db, u, scope).0)
  {
  }

  // ---------------------------------------------------------------- what revoke-all cuts off

  /** A request past the point where revoke-all could stop it from inserting a row for u. */
  predicate Committed(sys: System, u: UserId) {
    exists w :: w in sys.inFlight && (sys.inFlight[w].SigningIn? || sys.inFlight[w].RowRotated?)
                && sys.inFlight[w].user == u
  }

  predicate AllRevoked(sys: System, u: UserId) {
    forall s :: s in sys.db.sessions && sys.db.sessions[s].user == u ==> sys.db.sessions[s].isRevoked
  }

  predicate NoSignInOf(steps: seq<Step>, u: UserId) {
    forall i :: 0 <= i < |steps| && steps[i].StartSignIn? ==> steps[i].user != u
  }

  lemma StepKeepsCutOff(sys: System, step: Step, u: UserId)
    requires Sound(sys) && AllRevoked(sys, u) && !Committed(sys, u)
    requires step.StartSignIn? ==> step.user != u
    ensures AllRevoked(Apply(sys, step), u) && !Committed(Apply(sys, step), u)
  {
    if step.RotateRow? && Enabled(sys, step) {
      assert FlightSound(sys.db, sys.inFlight[step.w]);
    }
  }

  lemma {:induction false} RunKeepsCutOff(sys: System, steps: seq<Step>, u: UserId)
    requires Sound(sys) && AllRevoked(sys, u) && !Committed(sys, u) && NoSignInOf(steps, u)
    ensures Sound(RunSteps(sys, steps)) && AllRevoked(RunSteps(sys, steps), u) && !Committed(RunSteps(sys, steps), u)
  {
    if steps != [] {
      var front := steps[..|steps| - 1];
      RunKeepsCutOff(sys, front, u);
      StepKeepsSound(RunSteps(sys, front), steps[|steps| - 1]);
      StepKeepsCutOff(RunSteps(sys, front), steps[|steps| - 1], u);
    }
  }

  lemma {:induction false} UnusedIdAbove(ids: set<SessionId>) returns (bound: nat)
    ensures forall s :: s in ids ==> s < bound
  {
    if ids == {} {
      bound := 0;
    } else {
      var s :| s in ids;
      var rest := UnusedIdAbove(ids - {s});
      bound := if s < rest then rest else s + 1;
      forall x | x in ids
        ensures x < bound
      {
        assert x == s || x in ids - {s};
      }
    }
  }

  lemma UnusedId(ids: set<SessionId>) returns (sid: SessionId)
    ensures sid !in ids
  {
    sid := UnusedIdAbove(ids);
  }

  /** A committed request completes by one insert, and its row is not revoked. */
  lemma LateInsert(sys: System, u: UserId)
    requires Sound(sys) && Committed(sys, u)
    ensures exists steps: seq<Step> :: NoSignInOf(steps, u) && !AllRevoked(RunSteps(sys, steps), u)
  {
    var w :| w in sys.inFlight && (sys.inFlight[w].SigningIn? || sys.inFlight[w].RowRotated?)
             && sys.inFlight[w].user == u;
    assert FlightSound(sys.db, sys.inFlight[w]);
    var sid := UnusedId(sys.db.sessions.Keys);
    var step := if sys.inFlight[w].SigningIn? then InsertSignIn(w, 0, sid) else InsertSuccessor(w, 0, sid);
    assert [step][..0] == [] && RunSteps(sys, [step]) == Apply(sys, step);
    assert sid in Apply(sys, step).db.sessions;
    assert NoSignInOf([step], u);
  }

  /**
   Revoke-all ends every session of u for good, short of a new sign-in, exactly when no sign-in
   of u and no refresh of u past its conditional update is in flight at that moment.
   */
  lemma RevokeAllIsFinalIff(sys: System, u: UserId)
    requires Sound(sys)
    ensures var revoked := Apply(sys, RevokeAllOf({u}));
            (forall steps: seq<Step> :: NoSignInOf(steps, u) ==> AllRevoked(RunSteps(revoked, steps), u))
            <==> !Committed(sys, u)
  {
    var revoked := Apply(sys, RevokeAllOf({u}));
    StepKeepsSound(sys, RevokeAllOf({u}));
    assert AllRevoked(revoked, u);
    assert Committed(revoked, u) <==> Committed(sys, u);
    if Committed(sys, u) {
      LateInsert(revoked, u);
    } else {
      forall steps: seq<Step> | NoSignInOf(steps, u)
        ensures AllRevoked(RunSteps(revoked, steps), u)
      {
        RunKeepsCutOff(revoked, steps, u);
      }
    }
  }
}
