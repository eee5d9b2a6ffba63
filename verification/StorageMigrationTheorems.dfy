/** What holds over any sequence of starts, each cut or failing anywhere. */
module StorageMigrationTheorems {
  import opened Common
  import opened StableSorting
  import opened StorageMigration

  // ---- Which migrations a start applies ----

  lemma {:induction false} NoneDuplicated(versions: seq<int>)
    ensures Duplicated(versions) == [] <==> forall i, j :: 0 <= i < j < |versions| ==> versions[i] != versions[j]
  {
    if versions != [] {
      var last := |versions| - 1;
      NoneDuplicated(versions[..last]);
      assert versions == versions[..last] + [versions[last]];
    }
  }

  lemma {:induction false} NoneOutOfRange(versions: seq<int>, current: int)
    ensures OutOfRange(versions, current) == [] <==> forall v :: v in versions ==> BASELINE_STORAGE_VERSION < v <= current
  {
    if versions != [] {
      NoneOutOfRange(versions[1..], current);
      assert OutOfRange(versions, current) == [] <==>
        BASELINE_STORAGE_VERSION < versions[0] <= current && OutOfRange(versions[1..], current) == [];
      assert versions == [versions[0]] + versions[1..];
      assert versions[0] in versions;
      assert forall v :: v in versions[1..] ==> v in versions;
    }
  }

  lemma {:induction false} NoneMissing(versions: seq<int>, from: int, current: int)
    ensures Missing(versions, from, current) == [] <==> forall v :: from <= v <= current ==> v in versions
    decreases current - from
  {
    if from <= current { NoneMissing(versions, from + 1, current); }
  }

  ghost predicate DistinctVersions(migrations: seq<Migration>) {
    forall i, j :: 0 <= i < j < |migrations| ==> migrations[i].version != migrations[j].version
  }

  lemma {:induction false} NewerHolds(migrations: seq<Migration>, stored: int, m: Migration)
    ensures m in Newer(migrations, stored) <==> m in migrations && m.version > stored
  {
    if migrations != [] {
      NewerHolds(migrations[1..], stored, m);
      assert migrations == [migrations[0]] + migrations[1..];
    }
  }

  const ByVersion := (m: Migration) => m.version

  lemma {:induction false} NewerStaysDistinct(migrations: seq<Migration>, stored: int)
    requires DistinctVersions(migrations)
    ensures DistinctVersions(Newer(migrations, stored))
  {
    if migrations != [] {
      var rest := Newer(migrations[1..], stored);
      NewerStaysDistinct(migrations[1..], stored);
      forall j | 0 <= j < |rest| ensures rest[j].version != migrations[0].version {
        NewerHolds(migrations[1..], stored, rest[j]);
      }
    }
  }

  lemma {:induction false} DistinctAreAlone(s: seq<Migration>, k: int)
    requires DistinctVersions(s)
    ensures |WithKey(s, ByVersion, k)| <= 1
  {
    if s != [] {
      DistinctAreAlone(s[1..], k);
      if s[0].version == k { OthersLackKey(s[1..], k); }
    }
  }

  lemma {:induction false} OthersLackKey(s: seq<Migration>, k: int)
    requires forall m :: m in s ==> m.version != k
    ensures WithKey(s, ByVersion, k) == []
  {
    if s != [] { OthersLackKey(s[1..], k); }
  }

  lemma {:induction false} TwinsShareKey(s: seq<Migration>, i: nat, j: nat, k: int)
    requires i < j < |s| && s[i].version == k && s[j].version == k
    ensures |WithKey(s, ByVersion, k)| >= 2
  {
    if i > 0 { TwinsShareKey(s[1..], i - 1, j - 1, k); } else { OneHasKey(s[1..], j - 1, k); }
  }

  lemma {:induction false} OneHasKey(s: seq<Migration>, i: nat, k: int)
    requires i < |s| && s[i].version == k
    ensures |WithKey(s, ByVersion, k)| >= 1
  {
    if i > 0 { OneHasKey(s[1..], i - 1, k); }
  }

  /** Migrations in steps of one, from version `from` to `current`. */
  ghost predicate Chain(todo: seq<Migration>, from: int, current: int) {
    |todo| == current - from + 1 && forall i :: 0 <= i < |todo| ==> todo[i].version == from + i
  }

  ghost predicate HasVersion(todo: seq<Migration>, v: int) {
    exists i :: 0 <= i < |todo| && todo[i].version == v
  }

  lemma {:induction false} StrictCoverIsChain(todo: seq<Migration>, from: int, current: int)
    requires from <= current + 1
    requires forall i, j :: 0 <= i < j < |todo| ==> todo[i].version < todo[j].version
    requires forall i :: 0 <= i < |todo| ==> from <= todo[i].version <= current
    requires forall v :: from <= v <= current ==> HasVersion(todo, v)
    ensures Chain(todo, from, current)
  {
    assert from <= current ==> HasVersion(todo, from);
    if todo != [] {
      var first :| 0 <= first < |todo| && todo[first].version == from;
      assert todo[0].version == from;
      var rest := todo[1..];
      forall v | from + 1 <= v <= current ensures HasVersion(rest, v) {
        assert HasVersion(todo, v);
        var i :| 0 <= i < |todo| && todo[i].version == v;
        assert rest[i - 1].version == v;
      }
      StrictCoverIsChain(rest, from + 1, current);
      forall i | 0 <= i < |todo| ensures todo[i].version == from + i {
        if i > 0 { assert rest[i - 1].version == from + 1 + (i - 1); }
      }
    }
  }

  lemma PendingAreDeclared(migrations: seq<Migration>, stored: int, m: Migration)
    ensures m in PendingMigrations(migrations, stored) <==> m in migrations && m.version > stored
  {
    SortSorts(Newer(migrations, stored), ByVersion);
    NewerHolds(migrations, stored, m);
    assert m in multiset(PendingMigrations(migrations, stored)) <==> m in multiset(Newer(migrations, stored));
  }

  lemma PendingIncrease(migrations: seq<Migration>, stored: int, i: nat, j: nat)
    requires DistinctVersions(migrations) && i < j < |PendingMigrations(migrations, stored)|
    ensures PendingMigrations(migrations, stored)[i].version < PendingMigrations(migrations, stored)[j].version
  {
    var newer, todo := Newer(migrations, stored), PendingMigrations(migrations, stored);
    SortSorts(newer, ByVersion);
    assert ByVersion(todo[i]) <= ByVersion(todo[j]);
    if todo[i].version == todo[j].version {
      NewerStaysDistinct(migrations, stored);
      DistinctAreAlone(newer, todo[i].version);
      SortIsStable(newer, ByVersion, todo[i].version);
      TwinsShareKey(todo, i, j, todo[i].version);
    }
  }

  /** For any declared list, in any order, that passes the checks: a start applies
      exactly the versions after the stored one up to the current one, once each,
      in increasing order. */
  lemma PendingAreTheMissingVersions(build: Build, db: Db)
    requires Incompatible(build, db).None?
    ensures Chain(PendingMigrations(build.migrations, db.Version()), db.Version() + 1, build.current)
    ensures forall m :: m in PendingMigrations(build.migrations, db.Version()) ==> m in build.migrations
  {
    var versions, stored := Versions(build.migrations), db.Version();
    var todo := PendingMigrations(build.migrations, stored);
    NoneDuplicated(versions);
    NoneOutOfRange(versions, build.current);
    NoneMissing(versions, stored + 1, build.current);
    assert DistinctVersions(build.migrations) by {
      forall i, j | 0 <= i < j < |versions| ensures build.migrations[i].version != build.migrations[j].version {
        assert versions[i] != versions[j];
      }
    }
    forall m ensures m in todo <==> m in build.migrations && m.version > stored { PendingAreDeclared(build.migrations, stored, m); }
    forall i, j | 0 <= i < j < |todo| ensures todo[i].version < todo[j].version { PendingIncrease(build.migrations, stored, i, j); }
    forall i | 0 <= i < |todo| ensures stored + 1 <= todo[i].version <= build.current {
      assert todo[i] in build.migrations;
      var j :| 0 <= j < |build.migrations| && build.migrations[j] == todo[i];
      assert versions[j] == todo[i].version && versions[j] in versions;
    }
    forall v | stored + 1 <= v <= build.current ensures HasVersion(todo, v) {
      assert v in versions;
      var j :| 0 <= j < |versions| && versions[j] == v;
      assert build.migrations[j] in todo;
    }
    StrictCoverIsChain(todo, stored + 1, build.current);
  }

  // ---- Rollback ----

  /** The tables outside `managed` that were in `t` are in `u` as they were. */
  ghost predicate UnmanagedKept(t: Tables, u: Tables, managed: seq<string>) {
    forall name :: name in t && name !in managed ==> At(u, name) == Some(t[name])
  }

  /** Whatever a migration did to the tables, a complete rollback brings back every
      backed-up table and removes every created one; all is as it was exactly when
      the migration left the old tables outside the backup alone. */
  lemma RollbackIsExactIff(t: Tables, u: Tables, managed: seq<string>)
    ensures var r := Restored(u, BackupOf(t, managed));
            && (forall name :: name in managed && name in t ==> At(r, name) == Some(t[name]))
            && (forall name :: name in r ==> name in t)
            && (r == t <==> UnmanagedKept(t, u, managed))
  {
    var b := BackupOf(t, managed);
    var r := Restored(u, b);
    if UnmanagedKept(t, u, managed) {
      forall name ensures name in r <==> name in t {
        assert name in t && name !in managed ==> At(u, name) == Some(t[name]);
      }
      forall name | name in t ensures r[name] == t[name] {
        assert name !in managed ==> At(u, name) == Some(t[name]);
      }
      assert r == t;
    } else {
      var name :| name in t && name !in managed && At(u, name) != Some(t[name]);
      assert At(r, name) != At(t, name);
    }
  }

  // ---- One start ----

  /** Every migration of this version, in every build, is the same one. */
  ghost predicate Declares(build: Build, family: int -> Migration) {
    forall m :: m in build.migrations ==> m == family(m.version)
  }

  /** A pending mark is for the version after the stored one, and a recorded
      rollback failure always comes with one. */
  ghost predicate MarksOk(db: Db) {
    && (db.Pending().Some? ==> db.Pending().value == db.Version() + 1)
    && (db.Record().rollbackFailure != [] ==> db.Pending().Some?)
  }

  lemma {:induction false} ApplyKeepsMarks(managed: seq<string>, current: int, todo: seq<Migration>, db: Db, end: RunEnd, db': Db)
    requires MarksOk(db) && db.Record().rollbackFailure == [] && Chain(todo, db.Version() + 1, current)
    requires MayApply(managed, current, todo, db, end, db')
    ensures MarksOk(db') && db.Version() <= db'.Version() <= current
    decreases |todo|
  {
    if todo != [] && !(end.Halted? && !end.at.Applied? && StepMayEnd(todo[0], managed, db, end.at, db')) {
      var mid :| StepMayEnd(todo[0], managed, db, Applied, mid) && MayApply(managed, current, todo[1..], mid, end, db');
      ApplyKeepsMarks(managed, current, todo[1..], mid, end, db');
    }
  }

  lemma RunKeepsMarks(build: Build, db: Db, end: RunEnd, db': Db)
    requires MarksOk(db) && MayRun(build, db, end, db')
    ensures MarksOk(db') && db.Version() <= db'.Version()
  {
    if Incompatible(build, db).None? && !(end.Faulted? && db' == db) {
      PendingAreTheMissingVersions(build, db);
      ApplyKeepsMarks(build.tables, build.current, PendingMigrations(build.migrations, db.Version()), db, end, db');
    }
  }

  /** With a rollback failure on record no start writes anything or succeeds. */
  lemma RollbackFailureRefuses(build: Build, db: Db, end: RunEnd, db': Db)
    requires db.Pending().Some? && db.Record().rollbackFailure != []
    requires MayRun(build, db, end, db')
    ensures db' == db && (end.Refused? || end.Faulted?)
  {}

  ghost function Ideal(family: int -> Migration, t: Tables, version: int): Tables
    requires version >= BASELINE_STORAGE_VERSION
    decreases version
  {
    if version == BASELINE_STORAGE_VERSION then t
    else family(version).Finished(Ideal(family, t, version - 1))
  }

  /** The tables are exactly those of the stored version. */
  ghost predicate IsIdeal(family: int -> Migration, t: Tables, db: Db) {
    db.Version() >= BASELINE_STORAGE_VERSION && db.tables == Ideal(family, t, db.Version())
  }

  ghost predicate Unmarked(db: Db) { db.Pending().None? }

  lemma {:induction false} AppliedIsIdeal(family: int -> Migration, t: Tables, build: Build,
        todo: seq<Migration>, db: Db, db': Db)
    requires Declares(build, family)
    requires Chain(todo, db.Version() + 1, build.current) && forall m :: m in todo ==> m in build.migrations
    requires IsIdeal(family, t, db) && MayApply(build.tables, build.current, todo, db, Migrated, db')
    ensures IsIdeal(family, t, db')
    decreases |todo|
  {
    if todo != [] {
      var mid :| StepMayEnd(todo[0], build.tables, db, Applied, mid) && MayApply(build.tables, build.current, todo[1..], mid, Migrated, db');
      assert todo[0] == family(db.Version() + 1);
      AppliedIsIdeal(family, t, build, todo[1..], mid, db');
    }
  }

  /** A start without a fault from exact tables ends with exactly the tables of the
      build's version. */
  lemma UninterruptedReachesIdeal(family: int -> Migration, t: Tables, build: Build, db: Db, db': Db)
    requires Declares(build, family) && IsIdeal(family, t, db) && MayRun(build, db, Migrated, db')
    ensures build.current >= BASELINE_STORAGE_VERSION && db'.tables == Ideal(family, t, build.current)
  {
    PendingAreTheMissingVersions(build, db);
    AppliedIsIdeal(family, t, build, PendingMigrations(build.migrations, db.Version()), db, db');
    MigratedReachesCurrent(build, db, db');
  }

  lemma {:induction false} FoundIsDeclared(migrations: seq<Migration>, version: int)
    requires Find(migrations, version).Some?
    ensures Find(migrations, version).value in migrations && Find(migrations, version).value.version == version
  {
    if migrations[0].version != version { FoundIsDeclared(migrations[1..], version); }
  }

  lemma {:induction false} FoundByVersion(migrations: seq<Migration>, version: int, i: nat)
    requires i < |migrations| && migrations[i].version == version
    ensures Find(migrations, version).Some?
  {
    if migrations[0].version != version { FoundByVersion(migrations[1..], version, i - 1); }
  }

  /** Whether a build may start on this storage, by its declarations alone. */
  ghost predicate MayStart(build: Build, db: Db) {
    && db.Version() <= build.current
    && DistinctVersions(build.migrations)
    && (forall m :: m in build.migrations ==> BASELINE_STORAGE_VERSION < m.version <= build.current)
    && (forall v :: db.Version() + 1 <= v <= build.current ==> IsDeclared(build, v))
    && (db.Pending().Some? ==> db.Record().rollbackFailure == [] && IsResumable(build, db.Pending().value))
  }

  ghost predicate IsDeclared(build: Build, v: int) {
    exists i :: 0 <= i < |build.migrations| && build.migrations[i].version == v
  }

  ghost predicate IsResumable(build: Build, v: int) {
    exists i :: 0 <= i < |build.migrations| && build.migrations[i].version == v && build.migrations[i].resumable
  }

  /** A start is refused exactly when it may not start. */
  lemma RefusesUnlessMayStart(build: Build, db: Db)
    ensures Incompatible(build, db).None? <==> MayStart(build, db)
  {
    hide Duplicated, OutOfRange, Missing, Find, IsDeclared, IsResumable, Versions, DistinctVersions;
    ChecksByVersion(build, db.Version() + 1);
    if db.Pending().Some? && DistinctVersions(build.migrations) { ResumableIsFound(build, db.Pending().value); }
  }

  lemma ChecksByVersion(build: Build, from: int)
    ensures var versions := Versions(build.migrations);
            && (Duplicated(versions) == [] <==> DistinctVersions(build.migrations))
            && (OutOfRange(versions, build.current) == [] <==>
                  forall m :: m in build.migrations ==> BASELINE_STORAGE_VERSION < m.version <= build.current)
            && (Missing(versions, from, build.current) == [] <==> forall v :: from <= v <= build.current ==> IsDeclared(build, v))
  {
    hide Duplicated, OutOfRange, Missing, IsDeclared;
    var versions := Versions(build.migrations);
    NoneDuplicated(versions);
    NoneOutOfRange(versions, build.current);
    NoneMissing(versions, from, build.current);
    assert forall i :: 0 <= i < |versions| ==> versions[i] == build.migrations[i].version;
    assert forall m :: m in build.migrations ==> m.version in versions by {
      forall m | m in build.migrations ensures m.version in versions {
        var i :| 0 <= i < |build.migrations| && build.migrations[i] == m;
        assert versions[i] == m.version;
      }
    }
    forall v ensures v in versions <==> IsDeclared(build, v) { DeclaredIsVersion(build, v); }
  }

  lemma DeclaredIsVersion(build: Build, v: int)
    ensures v in Versions(build.migrations) <==> IsDeclared(build, v)
  {
    var versions := Versions(build.migrations);
    if i :| 0 <= i < |build.migrations| && build.migrations[i].version == v { assert versions[i] == v; }
  }

  lemma ResumableIsFound(build: Build, v: int)
    requires DistinctVersions(build.migrations)
    ensures var m := Find(build.migrations, v); IsResumable(build, v) <==> m.Some? && m.value.resumable
  {
    if i :| 0 <= i < |build.migrations| && build.migrations[i].version == v && build.migrations[i].resumable {
      FoundByVersion(build.migrations, v, i);
      FoundIsDeclared(build.migrations, v);
    } else if Find(build.migrations, v).Some? {
      FoundIsDeclared(build.migrations, v);
    }
  }

  lemma {:induction false} AppliedToTheEnd(managed: seq<string>, current: int, todo: seq<Migration>, db: Db, db': Db)
    requires MayApply(managed, current, todo, db, Migrated, db')
    ensures db'.Version() == current && Unmarked(db')
    decreases |todo|
  {
    if todo != [] {
      var mid :| StepMayEnd(todo[0], managed, db, Applied, mid) && MayApply(managed, current, todo[1..], mid, Migrated, db');
      AppliedToTheEnd(managed, current, todo[1..], mid, db');
    }
  }

  lemma MigratedReachesCurrent(build: Build, db: Db, db': Db)
    requires MayRun(build, db, Migrated, db')
    ensures db'.Version() == build.current && Unmarked(db')
  {
    AppliedToTheEnd(build.tables, build.current, PendingMigrations(build.migrations, db.Version()), db, db');
  }

  /** A start with one migration left can succeed, and then has its finished tables. */
  lemma LastStepFinishes(m: Migration, managed: seq<string>, db: Db)
    ensures exists db' :: MayApply(managed, m.version, [m], db, Migrated, db')
    ensures forall db' :: MayApply(managed, m.version, [m], db, Migrated, db') ==> db'.tables == m.Finished(db.tables)
  {
    var mid := db.MarkPending(m.version).(tables := m.Finished(db.tables)).SaveVersion(m.version);
    assert EndsStep(m, managed, db, |m.script(db.tables)|, Applied, mid);
    assert MayApply(managed, m.version, [m][1..], mid, Migrated, mid.SaveVersion(m.version));
    assert MayApply(managed, m.version, [m], db, Migrated, mid.SaveVersion(m.version));
    forall db' | MayApply(managed, m.version, [m], db, Migrated, db') ensures db'.tables == m.Finished(db.tables) {
      var mid' :| StepMayEnd(m, managed, db, Applied, mid') && MayApply(managed, m.version, [m][1..], mid', Migrated, db');
    }
  }

  // ---- Any sequence of starts ----

  /** Storage that was never migrated: no schema record, or a baseline one. */
  ghost predicate IsBaseline(db: Db) {
    db.Record() == Schema(BASELINE_STORAGE_VERSION, None, [])
  }

  /** Starts of any builds, one after the other, each ending in any way. */
  ghost predicate IsHistory(builds: seq<Build>, dbs: seq<Db>, ends: seq<RunEnd>) {
    && |dbs| == |builds| + 1 == |ends| + 1
    && IsBaseline(dbs[0])
    && forall i :: 0 <= i < |builds| ==> MayRun(builds[i], dbs[i], ends[i], dbs[i + 1])
  }

  lemma {:induction false} MarksStayOk(builds: seq<Build>, dbs: seq<Db>, ends: seq<RunEnd>, i: nat)
    requires IsHistory(builds, dbs, ends) && i < |dbs|
    ensures MarksOk(dbs[i]) && dbs[i].Version() >= BASELINE_STORAGE_VERSION
  {
    if i > 0 {
      MarksStayOk(builds, dbs, ends, i - 1);
      RunKeepsMarks(builds[i - 1], dbs[i - 1], ends[i - 1], dbs[i]);
    }
  }

  /** Once a rollback failure is recorded, every later start, of any build, refuses
      without writing. */
  lemma {:induction false} RollbackFailureIsFinal(builds: seq<Build>, dbs: seq<Db>, ends: seq<RunEnd>, i: nat, j: nat)
    requires IsHistory(builds, dbs, ends) && i <= j < |dbs| && dbs[i].Record().rollbackFailure != []
    ensures dbs[j] == dbs[i] && forall l :: i <= l < j ==> ends[l].Refused? || ends[l].Faulted?
  {
    MarksStayOk(builds, dbs, ends, i);
    if i < j {
      RollbackFailureIsFinal(builds, dbs, ends, i, j - 1);
      RollbackFailureRefuses(builds[j - 1], dbs[j - 1], ends[j - 1], dbs[j]);
    }
  }

  /** What the schema record says after a step, however it ended. */
  lemma StepRecords(m: Migration, managed: seq<string>, db: Db, end: StepEnd, db': Db)
    requires StepMayEnd(m, managed, db, end, db') && db.Record().rollbackFailure == []
    ensures db'.Record() == match end
              case Untouched => db.Record()
              case Applied => Schema(m.version, None, [])
              case RolledBack => Schema(db.Version(), None, [])
              case RollbackFailed(failures) => Schema(db.Version(), Some(m.version), failures)
              case _ => Schema(db.Version(), Some(m.version), [])
    ensures end.RollbackFailed? ==> end.failures != []
  {}

  lemma {:induction false} FailedRollbackIsRecorded(managed: seq<string>, current: int, todo: seq<Migration>, db: Db, end: RunEnd, db': Db)
    requires MayApply(managed, current, todo, db, end, db') && db.Record().rollbackFailure == []
    requires end.Halted? && end.at.RollbackFailed?
    ensures db'.Record().rollbackFailure == end.at.failures != []
    decreases |todo|
  {
    if todo != [] {
      if StepMayEnd(todo[0], managed, db, end.at, db') {
        StepRecords(todo[0], managed, db, end.at, db');
      } else {
        var mid :| StepMayEnd(todo[0], managed, db, Applied, mid) && MayApply(managed, current, todo[1..], mid, end, db');
        StepRecords(todo[0], managed, db, Applied, mid);
        FailedRollbackIsRecorded(managed, current, todo[1..], mid, end, db');
      }
    }
  }

  /** In every history, after a start whose rollback failed every later start, of any
      build, leaves storage as it is and does not succeed. */
  lemma FailedRollbackBlocks(builds: seq<Build>, dbs: seq<Db>, ends: seq<RunEnd>, i: nat, j: nat)
    requires IsHistory(builds, dbs, ends) && i < j < |dbs| && ends[i].Halted? && ends[i].at.RollbackFailed?
    ensures dbs[j] == dbs[i + 1] && forall l :: i < l < j ==> ends[l].Refused? || ends[l].Faulted?
  {
    assert MayRun(builds[i], dbs[i], ends[i], dbs[i + 1]);
    if dbs[i].Record().rollbackFailure != [] {
      MarksStayOk(builds, dbs, ends, i);
      RollbackFailureRefuses(builds[i], dbs[i], ends[i], dbs[i + 1]);
    } else {
      FailedRollbackIsRecorded(builds[i].tables, builds[i].current, PendingMigrations(builds[i].migrations, dbs[i].Version()),
                               dbs[i], ends[i], dbs[i + 1]);
      RollbackFailureIsFinal(builds, dbs, ends, i + 1, j);
    }
  }
}
