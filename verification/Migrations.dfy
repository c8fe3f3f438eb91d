/**
 The schema migration runner of the database set-up script: which files are migrations, in
 which order they run, and what a history of complete and interrupted runs leaves behind.
 */
module Migrations {
  import opened Options

  // ---------------------------------------------------------------- collecting the files

  datatype SqlFile = SqlFile(fileName: string, relative: string, script: string)

  datatype Migration = Migration(version: nat, relative: string, script: string)

  predicate IsDigit(c: char) {
    '0' <= c <= '9'
  }

  /** Number(...) of the leading digits. */
  function LeadingNumber(s: string, soFar: nat): nat {
    if s == "" || !IsDigit(s[0]) then soFar
    else LeadingNumber(s[1..], 10 * soFar + (s[0] as int - '0' as int))
  }

  /** The number `/^V(\d+)/i` captures; leading zeros do not matter. */
  function FlywayVersion(fileName: string): Option<nat> {
    if |fileName| > 1 && (fileName[0] == 'V' || fileName[0] == 'v') && IsDigit(fileName[1])
    then Some(LeadingNumber(fileName[1..], 0))
    else None
  }

  /** Decimal notation. */
  function Decimal(n: nat): (digits: string)
    ensures digits != "" && forall i :: 0 <= i < |digits| ==> IsDigit(digits[i])
  {
    var last := ['0' + (n % 10) as char];
    if n < 10 then last else Decimal(n / 10) + last
  }

  lemma {:induction false} LeadingNumberAppends(digits: string, rest: string, soFar: nat)
    requires forall i :: 0 <= i < |digits| ==> IsDigit(digits[i])
    ensures LeadingNumber(digits + rest, soFar) == LeadingNumber(rest, LeadingNumber(digits, soFar))
  {
    if digits == "" {
      assert digits + rest == rest;
    } else {
      assert (digits + rest)[1..] == digits[1..] + rest;
      LeadingNumberAppends(digits[1..], rest, 10 * soFar + (digits[0] as int - '0' as int));
    }
  }

  lemma {:induction false} DecimalReadsBack(n: nat)
    ensures LeadingNumber(Decimal(n), 0) == n
  {
    if n >= 10 {
      DecimalReadsBack(n / 10);
      LeadingNumberAppends(Decimal(n / 10), ['0' + (n % 10) as char], 0);
    }
  }

  lemma {:induction false} ZerosDoNotMatter(zeros: string, rest: string)
    requires forall i :: 0 <= i < |zeros| ==> zeros[i] == '0'
    ensures LeadingNumber(zeros + rest, 0) == LeadingNumber(rest, 0)
  {
    if zeros == "" {
      assert zeros + rest == rest;
    } else {
      assert (zeros + rest)[1..] == zeros[1..] + rest;
      ZerosDoNotMatter(zeros[1..], rest);
    }
  }

  /** The version of a file name is the number in its digits; a name without V and a digit has none. */
  lemma VersionIsDecimal(v: char, zeros: string, n: nat, rest: string)
    requires v == 'V' || v == 'v'
    requires forall i :: 0 <= i < |zeros| ==> zeros[i] == '0'
    requires rest != "" ==> !IsDigit(rest[0])
    ensures FlywayVersion([v] + zeros + Decimal(n) + rest) == Some(n)
  {
    var digits := zeros + (Decimal(n) + rest);
    var name := [v] + zeros + Decimal(n) + rest;
    assert name == [v] + digits && name[1..] == digits;
    assert zeros != "" ==> digits[0] == zeros[0];
    assert zeros == "" ==> digits[0] == Decimal(n)[0];
    ZerosDoNotMatter(zeros, Decimal(n) + rest);
    LeadingNumberAppends(Decimal(n), rest, 0);
    DecimalReadsBack(n);
  }

  lemma NoVersionIff(fileName: string)
    ensures FlywayVersion(fileName).None?
       <==> !(exists v: char, d: char, rest: string ::
                v in "Vv" && '0' <= d <= '9' && fileName == [v, d] + rest)
  {
    if FlywayVersion(fileName).Some? {
      assert fileName == [fileName[0], fileName[1]] + fileName[2..];
    }
  }

  function Versioned(files: seq<SqlFile>): seq<Migration> {
    if files == [] then []
    else
      var version := FlywayVersion(files[0].fileName);
      (if version.Some? then [Migration(version.value, files[0].relative, files[0].script)] else [])
        + Versioned(files[1..])
  }

  /** Stable insertion: behind the migrations of the same version. */
  function Insert(m: Migration, sorted: seq<Migration>): seq<Migration> {
    if sorted == [] || m.version < sorted[0].version then [m] + sorted
    else [sorted[0]] + Insert(m, sorted[1..])
  }

  function SortByVersion(ms: seq<Migration>): seq<Migration> {
    if ms == [] then [] else Insert(ms[|ms| - 1], SortByVersion(ms[..|ms| - 1]))
  }

  function CollectMigrations(files: seq<SqlFile>): seq<Migration> {
    SortByVersion(Versioned(files))
  }

  predicate StrictlyAscending(ms: seq<Migration>) {
    forall i, j :: 0 <= i < j < |ms| ==> ms[i].version < ms[j].version
  }

  predicate DistinctVersions(ms: seq<Migration>) {
    forall i, j :: 0 <= i < j < |ms| ==> ms[i].version != ms[j].version
  }

  predicate SameElements<T(==)>(xs: seq<T>, ys: seq<T>) {
    (forall x :: x in xs ==> x in ys) && (forall y :: y in ys ==> y in xs)
  }

  lemma {:induction false} InsertContents(m: Migration, sorted: seq<Migration>, x: Migration)
    ensures x in Insert(m, sorted) <==> x == m || x in sorted
  {
    if sorted != [] && m.version >= sorted[0].version {
      InsertContents(m, sorted[1..], x);
      assert sorted == [sorted[0]] + sorted[1..];
    }
  }

  lemma {:induction false} InsertAscends(m: Migration, sorted: seq<Migration>)
    requires StrictlyAscending(sorted)
    requires forall i :: 0 <= i < |sorted| ==> sorted[i].version != m.version
    ensures StrictlyAscending(Insert(m, sorted))
    ensures Insert(m, sorted)[0] == m || (sorted != [] && Insert(m, sorted)[0] == sorted[0])
  {
    if sorted != [] && m.version >= sorted[0].version {
      InsertAscends(m, sorted[1..]);
    }
  }

  lemma {:induction false} SortSorts(ms: seq<Migration>)
    requires DistinctVersions(ms)
    ensures StrictlyAscending(SortByVersion(ms))
    ensures SameElements(SortByVersion(ms), ms)
  {
    if ms != [] {
      var front, last := ms[..|ms| - 1], ms[|ms| - 1];
      var sorted := SortByVersion(front);
      SortSorts(front);
      forall i | 0 <= i < |sorted|
        ensures sorted[i].version != last.version
      {
        assert sorted[i] in front;
      }
      InsertAscends(last, sorted);
      assert ms == front + [last];
      forall x
        ensures x in Insert(last, sorted) <==> x in ms
      {
        InsertContents(last, sorted, x);
      }
    }
  }

  lemma AscendingTails(xs: seq<Migration>, ys: seq<Migration>)
    requires StrictlyAscending(xs) && StrictlyAscending(ys) && SameElements(xs, ys)
    requires xs != [] && ys != [] && xs[0] == ys[0]
    ensures SameElements(xs[1..], ys[1..])
  {
    forall x
      ensures x in xs[1..] <==> x in xs && x != xs[0]
      ensures x in ys[1..] <==> x in ys && x != ys[0]
    {
      assert xs == [xs[0]] + xs[1..] && ys == [ys[0]] + ys[1..];
    }
  }

  /** Two strictly ascending lists of the same migrations are the same list. */
  lemma {:induction false} AscendingUnique(xs: seq<Migration>, ys: seq<Migration>)
    requires StrictlyAscending(xs) && StrictlyAscending(ys) && SameElements(xs, ys)
    ensures xs == ys
  {
    assert xs != [] ==> xs[0] in xs;
    assert ys != [] ==> ys[0] in ys;
    if xs != [] {
      assert xs[0] in ys && ys[0] in xs;
      assert xs[0] == ys[0];
      AscendingTails(xs, ys);
      AscendingUnique(xs[1..], ys[1..]);
    }
  }

  /** A file of the directory with a version is collected as it is, and nothing else is. */
  predicate ComesFrom(m: Migration, file: SqlFile) {
    FlywayVersion(file.fileName) == Some(m.version) && m.relative == file.relative && m.script == file.script
  }

  lemma {:induction false} VersionedTells(files: seq<SqlFile>, m: Migration)
    ensures m in Versioned(files) <==> exists i :: 0 <= i < |files| && ComesFrom(m, files[i])
  {
    if files != [] {
      VersionedTells(files[1..], m);
      if i :| 0 <= i < |files| && ComesFrom(m, files[i]) {
        assert i > 0 ==> files[1..][i - 1] == files[i];
      }
      if m in Versioned(files[1..]) {
        var i :| 0 <= i < |files[1..]| && ComesFrom(m, files[1..][i]);
        assert ComesFrom(m, files[i + 1]);
      }
    }
  }

  lemma CollectedTells(files: seq<SqlFile>, m: Migration)
    requires DistinctVersions(Versioned(files))
    ensures m in CollectMigrations(files) <==> exists i :: 0 <= i < |files| && ComesFrom(m, files[i])
  {
    SortSorts(Versioned(files));
    VersionedTells(files, m);
  }

  /** With distinct versions, the directory order of the files plays no part. */
  lemma CollectIgnoresListingOrder(f: seq<SqlFile>, g: seq<SqlFile>)
    requires SameElements(f, g) && DistinctVersions(Versioned(f)) && DistinctVersions(Versioned(g))
    ensures CollectMigrations(f) == CollectMigrations(g)
    ensures StrictlyAscending(CollectMigrations(f))
  {
    SortSorts(Versioned(f));
    SortSorts(Versioned(g));
    forall m
      ensures m in Versioned(f) <==> m in Versioned(g)
    {
      VersionedTells(f, m);
      VersionedTells(g, m);
      if i :| 0 <= i < |f| && ComesFrom(m, f[i]) {
        assert f[i] in g;
      }
      if i :| 0 <= i < |g| && ComesFrom(m, g[i]) {
        assert g[i] in f;
      }
    }
    AscendingUnique(CollectMigrations(f), CollectMigrations(g));
  }

  // ---------------------------------------------------------------- running them

  datatype HistoryRow = HistoryRow(installedRank: int, version: Option<nat>, script: string, success: bool)

  /** The history table, and the schema as the log of the scripts that built it. */
  datatype Db = Db(history: seq<HistoryRow>, schema: seq<string>)

  function AppliedVersions(history: seq<HistoryRow>): set<nat> {
    set i | 0 <= i < |history| && history[i].success && history[i].version.Some? :: history[i].version.value
  }

  /** COALESCE(MAX(installed_rank), 0) */
  function MaxRank(history: seq<HistoryRow>): int {
    if history == [] then 0
    else if |history| == 1 then history[0].installedRank
    else
      var m := MaxRank(history[..|history| - 1]);
      if history[|history| - 1].installedRank > m then history[|history| - 1].installedRank else m
  }

  /** Execute the script, then record it under the next rank. */
  function Apply(db: Db, m: Migration): Db {
    Db(db.history + [HistoryRow(MaxRank(db.history) + 1, Some(m.version), m.relative, true)],
       db.schema + [m.script])
  }

  /** The loop over the migrations; the process is stopped once `budget` of them were applied. */
  function RunFrom(db: Db, applied: set<nat>, ms: seq<Migration>, budget: nat): (Db, bool)
    decreases |ms|
  {
    if ms == [] then (db, true)
    else if ms[0].version in applied then RunFrom(db, applied, ms[1..], budget)
    else if budget == 0 then (db, false)
    else RunFrom(Apply(db, ms[0]), applied, ms[1..], budget - 1)
  }

  /** One run: the database after it, and whether it got to its end. */
  function Run(db: Db, ms: seq<Migration>, budget: nat): (Db, bool) {
    RunFrom(db, AppliedVersions(db.history), ms, budget)
  }

  datatype Outcome = NoMigrations | Stopped(ran: nat) | Finished(ran: nat)

  class Database {
    var history: seq<HistoryRow>
    var schema: seq<string>

    ghost function State(): Db
      reads this
    {
      Db(history, schema)
    }

    /** `migrate`, stopped between two migrations when the budget is used up. */
    method Migrate(ms: seq<Migration>, budget: nat) returns (outcome: Outcome)
      modifies this
      ensures ms == [] ==> outcome.NoMigrations? && State() == old(State())
      ensures ms != [] ==>
        && State() == Run(old(State()), ms, budget).0
        && (outcome.Finished? <==> Run(old(State()), ms, budget).1)
        && !outcome.NoMigrations?
        && outcome.ran == |history| - |old(history)| <= budget
    {
      var applied := AppliedVersions(history);
      if ms == [] {
        return NoMigrations;
      }
      var ran := 0;
      var i := 0;
      while i < |ms|
        invariant 0 <= i <= |ms| && ran <= budget
        invariant ran == |history| - |old(history)|
        invariant RunFrom(State(), applied, ms[i..], budget - ran) == Run(old(State()), ms, budget)
      {
        var m := ms[i];
        i := i + 1;
        if m.version in applied {
          continue;
        }
        if ran == budget {
          return Stopped(ran);
        }
        schema := schema + [m.script];
        var next := MaxRank(history) + 1;
        history := history + [HistoryRow(next, Some(m.version), m.relative, true)];
        ran := ran + 1;
      }
      return Finished(ran);
    }
  }

  // ---------------------------------------------------------------- histories of runs

  const EMPTY: Db := Db([], [])

  /** The database that the first k migrations leave, each applied once, in order. */
  function Prefix(ms: seq<Migration>, k: nat): Db
    requires k <= |ms|
  {
    Db(seq(k, i requires 0 <= i < k => HistoryRow(i + 1, Some(ms[i].version), ms[i].relative, true)),
       seq(k, i requires 0 <= i < k => ms[i].script))
  }

  function Min(a: nat, b: nat): nat {
    if a <= b then a else b
  }

  lemma {:induction false} MaxRankOfPrefix(ms: seq<Migration>, k: nat)
    requires k <= |ms|
    ensures MaxRank(Prefix(ms, k).history) == k
  {
    if k > 1 {
      MaxRankOfPrefix(ms, k - 1);
      assert Prefix(ms, k).history[..k - 1] == Prefix(ms, k - 1).history;
    }
  }

  lemma ApplyExtendsPrefix(ms: seq<Migration>, k: nat)
    requires k < |ms|
    ensures Apply(Prefix(ms, k), ms[k]) == Prefix(ms, k + 1)
  {
    MaxRankOfPrefix(ms, k);
  }

  lemma AppliedOfPrefix(ms: seq<Migration>, k: nat, i: nat)
    requires k <= |ms| && i < |ms| && DistinctVersions(ms)
    ensures ms[i].version in AppliedVersions(Prefix(ms, k).history) <==> i < k
  {
    var history := Prefix(ms, k).history;
    if i < k {
      assert history[i].version == Some(ms[i].version);
    }
  }

  /** What is not applied yet is applied in order, as far as the budget goes. */
  lemma {:induction false} RunExtends(ms: seq<Migration>, applied: set<nat>, k: nat, budget: nat)
    requires k <= |ms| && forall i :: k <= i < |ms| ==> ms[i].version !in applied
    ensures RunFrom(Prefix(ms, k), applied, ms[k..], budget)
         == (Prefix(ms, Min(k + budget, |ms|)), k + budget >= |ms|)
    decreases |ms| - k
  {
    if k < |ms| {
      assert ms[k..][1..] == ms[k + 1..];
      if budget > 0 {
        ApplyExtendsPrefix(ms, k);
        RunExtends(ms, applied, k + 1, budget - 1);
      }
    }
  }

  /** What is applied already is skipped. */
  lemma {:induction false} RunSkips(ms: seq<Migration>, applied: set<nat>, i: nat, k: nat, db: Db, budget: nat)
    requires i <= k <= |ms| && forall j :: i <= j < k ==> ms[j].version in applied
    ensures RunFrom(db, applied, ms[i..], budget) == RunFrom(db, applied, ms[k..], budget)
    decreases k - i
  {
    if i < k {
      assert ms[i..][1..] == ms[i + 1..];
      RunSkips(ms, applied, i + 1, k, db, budget);
    }
  }

  lemma RunExtendsPrefix(ms: seq<Migration>, k: nat, budget: nat)
    requires k <= |ms| && DistinctVersions(ms)
    ensures Run(Prefix(ms, k), ms, budget) == (Prefix(ms, Min(k + budget, |ms|)), k + budget >= |ms|)
  {
    var applied := AppliedVersions(Prefix(ms, k).history);
    forall i | 0 <= i < |ms|
      ensures ms[i].version in applied <==> i < k
    {
      AppliedOfPrefix(ms, k, i);
    }
    assert ms[0..] == ms;
    RunSkips(ms, applied, 0, k, Prefix(ms, k), budget);
    RunExtends(ms, applied, k, budget);
  }

  /** Any number of runs, one after the other, each with its own stopping point. */
  function Runs(db: Db, ms: seq<Migration>, budgets: seq<nat>): Db {
    if budgets == [] then db
    else Run(Runs(db, ms, budgets[..|budgets| - 1]), ms, budgets[|budgets| - 1]).0
  }

  function Sum(budgets: seq<nat>): nat {
    if budgets == [] then 0 else Sum(budgets[..|budgets| - 1]) + budgets[|budgets| - 1]
  }

  /** However runs are cut, the database is the ascending prefix their work adds up to. */
  lemma {:induction false} RunsReachPrefix(ms: seq<Migration>, budgets: seq<nat>)
    requires DistinctVersions(ms)
    ensures Runs(EMPTY, ms, budgets) == Prefix(ms, Min(Sum(budgets), |ms|))
  {
    if budgets == [] {
      assert Prefix(ms, 0) == EMPTY;
    } else {
      var before := budgets[..|budgets| - 1];
      RunsReachPrefix(ms, before);
      RunExtendsPrefix(ms, Min(Sum(before), |ms|), budgets[|budgets| - 1]);
    }
  }

  predicate RecordedOnce(history: seq<HistoryRow>) {
    forall i, j :: 0 <= i < j < |history| ==> history[i].version != history[j].version
  }

  predicate RanksIncrease(history: seq<HistoryRow>) {
    forall i, j :: 0 <= i < j < |history| ==> history[i].installedRank < history[j].installedRank
  }

  /**
   After any sequence of runs over one set of migrations with distinct versions: no version
   is recorded twice, ranks increase, a run that finishes leaves what one uninterrupted
   ascending run leaves, and running again changes nothing.
   */
  lemma InterruptedRunsConverge(ms: seq<Migration>, budgets: seq<nat>, budget: nat)
    requires DistinctVersions(ms)
    ensures RecordedOnce(Runs(EMPTY, ms, budgets).history)
    ensures RanksIncrease(Runs(EMPTY, ms, budgets).history)
    ensures Run(Runs(EMPTY, ms, budgets), ms, budget).1 ==>
              var done := Run(Runs(EMPTY, ms, budgets), ms, budget).0;
              && done == Run(EMPTY, ms, |ms|).0 == Prefix(ms, |ms|)
              && forall again: nat :: Run(done, ms, again) == (done, true)
  {
    var k := Min(Sum(budgets), |ms|);
    RunsReachPrefix(ms, budgets);
    RunExtendsPrefix(ms, k, budget);
    assert Prefix(ms, 0) == EMPTY;
    RunExtendsPrefix(ms, 0, |ms|);
    forall again: nat
      ensures Run(Prefix(ms, |ms|), ms, again) == (Prefix(ms, |ms|), true)
    {
      RunExtendsPrefix(ms, |ms|, again);
    }
  }

  lemma AscendingAreDistinct(ms: seq<Migration>)
    requires StrictlyAscending(ms)
    ensures DistinctVersions(ms)
  {
  }

  /**
   The same for the files of the migration directory: whatever runs were cut before, a run that
   finishes leaves their scripts executed once each in ascending order of version.
   */
  lemma CollectedRunsConverge(files: seq<SqlFile>, budgets: seq<nat>, budget: nat)
    requires DistinctVersions(Versioned(files))
    ensures var ms := CollectMigrations(files);
            var before := Runs(EMPTY, ms, budgets);
            var (done, finished) := Run(before, ms, budget);
            && StrictlyAscending(ms) && SameElements(ms, Versioned(files))
            && RecordedOnce(before.history) && RanksIncrease(before.history)
            && (finished ==>
                  && done.schema == seq(|ms|, i requires 0 <= i < |ms| => ms[i].script)
                  && |done.history| == |ms|
                  && (forall i :: 0 <= i < |ms| ==> done.history[i].version == Some(ms[i].version))
                  && forall again: nat :: Run(done, ms, again) == (done, true))
  {
    var ms := CollectMigrations(files);
    SortSorts(Versioned(files));
    AscendingAreDistinct(ms);
    InterruptedRunsConverge(ms, budgets, budget);
  }

  /** A run on an empty database records every file: `applied` is read once, before the loop. */
  lemma {:induction false} FreshRunRecordsAll(db: Db, ms: seq<Migration>)
    decreases |ms|
    ensures var after := RunFrom(db, {}, ms, |ms|).0.history;
            && |after| == |db.history| + |ms|
            && after[..|db.history|] == db.history
            && forall i :: 0 <= i < |ms| ==> after[|db.history| + i].version == Some(ms[i].version)
  {
    if ms != [] {
      var next := Apply(db, ms[0]);
      FreshRunRecordsAll(next, ms[1..]);
      var after := RunFrom(db, {}, ms, |ms|).0.history;
      assert after[..|next.history|] == next.history;
      assert next.history[..|db.history|] == db.history;
      assert after[|db.history|] == next.history[|db.history|];
      forall i | 0 < i < |ms|
        ensures after[|db.history| + i].version == Some(ms[i].version)
      {
        assert ms[i] == ms[1..][i - 1];
        assert after[|next.history| + (i - 1)].version == Some(ms[1..][i - 1].version);
      }
    }
  }

  /** Recording each version once is therefore exactly a matter of distinct file versions. */
  lemma RecordedOnceIffDistinct(ms: seq<Migration>)
    ensures RecordedOnce(Run(EMPTY, ms, |ms|).0.history) <==> DistinctVersions(ms)
  {
    FreshRunRecordsAll(EMPTY, ms);
    var after := Run(EMPTY, ms, |ms|).0.history;
    assert AppliedVersions(EMPTY.history) == {};
    forall i | 0 <= i < |ms|
      ensures after[i].version == Some(ms[i].version)
    {
      assert after[|EMPTY.history| + i].version == Some(ms[i].version);
    }
    if RecordedOnce(after) {
      forall i, j | 0 <= i < j < |ms|
        ensures ms[i].version != ms[j].version
      {
        assert after[i].version != after[j].version;
      }
    }
  }

  /** A process that dies after a script and before its history row. */
  function CutInside(db: Db, m: Migration): Db {
    db.(schema := db.schema + [m.script])
  }

  /** The schema plays no part in a run, which appends the same scripts to any. */
  lemma {:induction false} RunFromIgnoresSchema(db: Db, extra: Db, applied: set<nat>, ms: seq<Migration>, budget: nat)
    requires db.history == extra.history
    ensures RunFrom(extra, applied, ms, budget).1 == RunFrom(db, applied, ms, budget).1
    ensures RunFrom(extra, applied, ms, budget).0.history == RunFrom(db, applied, ms, budget).0.history
    ensures db.schema <= RunFrom(db, applied, ms, budget).0.schema
    ensures RunFrom(extra, applied, ms, budget).0.schema
         == extra.schema + RunFrom(db, applied, ms, budget).0.schema[|db.schema|..]
    decreases |ms|
  {
    if ms != [] {
      if ms[0].version in applied {
        RunFromIgnoresSchema(db, extra, applied, ms[1..], budget);
      } else if budget > 0 {
        var next := Apply(db, ms[0]);
        RunFromIgnoresSchema(next, Apply(extra, ms[0]), applied, ms[1..], budget - 1);
        var schema := RunFrom(next, applied, ms[1..], budget - 1).0.schema;
        assert schema[|db.schema|..] == [ms[0].script] + schema[|next.schema|..];
      }
    }
  }

  lemma ScriptsAround(ms: seq<Migration>, k: nat)
    requires k < |ms|
    ensures var scripts := Prefix(ms, |ms|).schema;
            && |scripts| == |ms| && scripts[k] == ms[k].script && scripts[..k] == Prefix(ms, k).schema
            && scripts[..k + 1] == Prefix(ms, k).schema + [ms[k].script]
  {
  }

  /**
   Convergence needs the cut to fall between migrations: after one inside migration k, the next
   run executes that script a second time, right after the first, and the rest once.
   */
  lemma CutInsideRunsScriptTwice(ms: seq<Migration>, k: nat)
    requires k < |ms| && DistinctVersions(ms)
    ensures var done := Run(CutInside(Prefix(ms, k), ms[k]), ms, |ms|).0;
            var scripts := Prefix(ms, |ms|).schema;
            && done.history == Prefix(ms, |ms|).history
            && done.schema == scripts[..k + 1] + [ms[k].script] + scripts[k + 1..]
  {
    var db := Prefix(ms, k);
    var scripts := Prefix(ms, |ms|).schema;
    var done := Run(CutInside(db, ms[k]), ms, |ms|).0;
    RunExtendsPrefix(ms, k, |ms|);
    RunFromIgnoresSchema(db, CutInside(db, ms[k]), AppliedVersions(db.history), ms, |ms|);
    ScriptsAround(ms, k);
    assert done.schema == (db.schema + [ms[k].script]) + scripts[k..];
    assert scripts[k..] == [ms[k].script] + scripts[k + 1..];
  }
}
