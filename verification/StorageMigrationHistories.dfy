/** When interrupted migrations end well: conditions on the migrations and the first
    tables alone, exact over every history of starts. */
module StorageMigrationHistories {
  import opened Common
  import opened StableSorting
  import opened StorageMigration
  import opened StorageMigrationTheorems

  /** Each version up to `top` has its own migration. */
  ghost predicate IsFamily(family: int -> Migration, top: int) {
    forall v :: BASELINE_STORAGE_VERSION < v <= top ==> family(v).version == v
  }

  /** Builds up to version `top`, declaring these migrations in any order, each
      backing up one of these lists of tables. */
  ghost predicate InLine(builds: seq<Build>, family: int -> Migration, lists: set<seq<string>>, top: int) {
    forall b :: b in builds ==> b.tables in lists && Declares(b, family) && BASELINE_STORAGE_VERSION <= b.current <= top
  }

  ghost predicate NeverDowngrades(builds: seq<Build>) {
    forall i, j :: 0 <= i <= j < |builds| ==> builds[i].current <= builds[j].current
  }

  // ---- The tables an interrupted migration may leave ----

  /** A start on the tables `u` that does not finish `m` may leave `w` for the next
      start to take up: those after a rollback; and, if the migration is resumable,
      those it was stopped at or what is left of a rollback. */
  ghost predicate Leaves(m: Migration, managed: seq<string>, u: Tables, k: nat, w: Tables)
    requires k <= |m.script(u)|
  {
    var p, b := m.Progress(u, k), BackupOf(u, managed);
    w == Restored(p, b) || (m.resumable && (w == p || Remnant(p, b, w)))
  }

  ghost predicate LeftStep(m: Migration, lists: set<seq<string>>, u: Tables, w: Tables) {
    exists managed, k :: managed in lists && 0 <= k <= |m.script(u)| && Leaves(m, managed, u, k, w)
  }

  ghost predicate LeftAfter(n: nat, m: Migration, lists: set<seq<string>>, start: Tables, u: Tables) {
    if n == 0 then u == start
    else exists w :: LeftAfter(n - 1, m, lists, start, w) && LeftStep(m, lists, w, u)
  }

  ghost predicate LeftIn(n: nat, family: int -> Migration, lists: set<seq<string>>, base: Tables, v: int, u: Tables)
    requires v > BASELINE_STORAGE_VERSION
  {
    LeftAfter(n, family(v), lists, Ideal(family, base, v - 1), u)
  }

  /** The least set of tables that holds those of version v - 1 and is closed under
      what an unfinished step of version v may leave. */
  ghost predicate Left(family: int -> Migration, lists: set<seq<string>>, base: Tables, v: int, u: Tables)
    requires v > BASELINE_STORAGE_VERSION
  {
    exists n: nat :: LeftIn(n, family, lists, base, v, u)
  }

  lemma IdealIsLeft(family: int -> Migration, lists: set<seq<string>>, base: Tables, v: int)
    requires v > BASELINE_STORAGE_VERSION
    ensures Left(family, lists, base, v, Ideal(family, base, v - 1))
  {
    assert LeftIn(0, family, lists, base, v, Ideal(family, base, v - 1));
  }

  lemma LeftIsClosed(family: int -> Migration, lists: set<seq<string>>, base: Tables, v: int, u: Tables, w: Tables)
    requires v > BASELINE_STORAGE_VERSION && Left(family, lists, base, v, u) && LeftStep(family(v), lists, u, w)
    ensures Left(family, lists, base, v, w)
  {
    hide LeftStep;
    var n: nat :| LeftIn(n, family, lists, base, v, u);
    assert LeftIn(n + 1, family, lists, base, v, w);
  }

  /** What an ending of a step leaves, by kind. */
  lemma StepLeaves(m: Migration, lists: set<seq<string>>, managed: seq<string>, db: Db, end: StepEnd, db': Db)
    requires managed in lists && StepMayEnd(m, managed, db, end, db')
    ensures end.RolledBack? || (m.resumable && (end.Stopped? || end.RollbackOpen?)) ==> LeftStep(m, lists, db.tables, db'.tables)
    ensures end.Applied? ==> db'.tables == m.Finished(db.tables)
  {
    var k: nat :| k <= |m.script(db.tables)| && EndsStep(m, managed, db, k, end, db');
    assert end.RolledBack? || (m.resumable && (end.Stopped? || end.RollbackOpen?)) ==>
      Leaves(m, managed, db.tables, k, db'.tables);
  }

  // ---- Every success is exact ----

  /** Every version finishes exactly from whatever its interrupted steps may leave. */
  ghost predicate FinishesExactly(family: int -> Migration, lists: set<seq<string>>, base: Tables, top: int) {
    forall v, u :: BASELINE_STORAGE_VERSION < v <= top && Left(family, lists, base, v, u) ==>
      family(v).Finished(u) == Ideal(family, base, v)
  }

  /** What every start finds when builds never go back below version `top`. */
  ghost predicate Steady(family: int -> Migration, lists: set<seq<string>>, base: Tables, top: int, db: Db) {
    var v := db.Version();
    && BASELINE_STORAGE_VERSION <= v <= top && MarksOk(db)
    && (db.Pending().None? ==> db.tables == Ideal(family, base, v) || (v < top && Left(family, lists, base, v + 1, db.tables)))
    && (db.Pending().Some? ==> v < top)
    && (db.Pending().Some? && db.Record().rollbackFailure == [] && family(v + 1).resumable ==>
          Left(family, lists, base, v + 1, db.tables))
  }

  lemma StepKeepsSteady(family: int -> Migration, lists: set<seq<string>>, base: Tables, top: int,
        managed: seq<string>, db: Db, end: StepEnd, db': Db)
    requires managed in lists && Steady(family, lists, base, top, db) && db.Record().rollbackFailure == []
    requires var v := db.Version() + 1; v <= top && family(v).version == v && Left(family, lists, base, v, db.tables)
    requires StepMayEnd(family(db.Version() + 1), managed, db, end, db')
    requires end.Applied? ==> family(db.Version() + 1).Finished(db.tables) == Ideal(family, base, db.Version() + 1)
    ensures Steady(family, lists, base, top, db')
    ensures end.Applied? ==> Unmarked(db') && IsIdeal(family, base, db') && db'.Version() == db.Version() + 1
    ensures end.Applied? ==> db'.Record().rollbackFailure == []
  {
    var v := db.Version() + 1;
    StepLeaves(family(v), lists, managed, db, end, db');
    if LeftStep(family(v), lists, db.tables, db'.tables) {
      LeftIsClosed(family, lists, base, v, db.tables, db'.tables);
    }
    hide Left, LeftStep, Ideal;
  }

  lemma {:induction false} ApplyKeepsSteady(family: int -> Migration, lists: set<seq<string>>, base: Tables,
        build: Build, todo: seq<Migration>, db: Db, end: RunEnd, db': Db)
    requires build.tables in lists && Declares(build, family) && FinishesExactly(family, lists, base, build.current)
    requires Chain(todo, db.Version() + 1, build.current) && forall m :: m in todo ==> m in build.migrations
    requires Steady(family, lists, base, build.current, db) && db.Record().rollbackFailure == []
    requires todo != [] ==> Left(family, lists, base, db.Version() + 1, db.tables)
    requires MayApply(build.tables, build.current, todo, db, end, db')
    ensures Steady(family, lists, base, build.current, db')
    ensures end.Migrated? ==> db'.tables == Ideal(family, base, build.current)
    decreases |todo|
  {
    hide Left, Ideal, FinishesExactly;
    if todo != [] {
      var v := db.Version() + 1;
      assert todo[0] == family(v);
      if end.Halted? && !end.at.Applied? && StepMayEnd(todo[0], build.tables, db, end.at, db') {
        StepKeepsSteady(family, lists, base, build.current, build.tables, db, end.at, db');
      } else {
        var mid :| StepMayEnd(todo[0], build.tables, db, Applied, mid) && MayApply(build.tables, build.current, todo[1..], mid, end, db');
        FinishesFrom(family, lists, base, build.current, v, db.tables);
        StepKeepsSteady(family, lists, base, build.current, build.tables, db, Applied, mid);
        IdealIsLeft(family, lists, base, mid.Version() + 1);
        ApplyKeepsSteady(family, lists, base, build, todo[1..], mid, end, db');
      }
    }
  }

  lemma FinishesFrom(family: int -> Migration, lists: set<seq<string>>, base: Tables, top: int, v: int, u: Tables)
    requires FinishesExactly(family, lists, base, top) && BASELINE_STORAGE_VERSION < v <= top && Left(family, lists, base, v, u)
    ensures family(v).Finished(u) == Ideal(family, base, v)
  {}

  lemma RunKeepsSteady(family: int -> Migration, lists: set<seq<string>>, base: Tables, build: Build,
        db: Db, end: RunEnd, db': Db)
    requires build.tables in lists && Declares(build, family) && FinishesExactly(family, lists, base, build.current)
    requires Steady(family, lists, base, build.current, db) && MayRun(build, db, end, db')
    ensures Steady(family, lists, base, build.current, db')
    ensures end.Migrated? ==> db'.tables == Ideal(family, base, build.current)
  {
    hide Left, Ideal, FinishesExactly, PendingMigrations, MayApply, Duplicated, OutOfRange, Missing, Find;
    if Incompatible(build, db).None? && !(end.Faulted? && db' == db) {
      PendingAreTheMissingVersions(build, db);
      if db.Pending().Some? { FoundIsDeclared(build.migrations, db.Pending().value); }
      IdealIsLeft(family, lists, base, db.Version() + 1);
      ApplyKeepsSteady(family, lists, base, build, PendingMigrations(build.migrations, db.Version()), db, end, db');
    }
  }

  lemma SteadyGrows(family: int -> Migration, lists: set<seq<string>>, base: Tables, top: int, top': int, db: Db)
    requires Steady(family, lists, base, top, db) && top <= top'
    ensures Steady(family, lists, base, top', db)
  {
    hide Left, Ideal;
  }

  lemma FewerFinish(family: int -> Migration, lists: set<seq<string>>, base: Tables, top: int, top': int)
    requires FinishesExactly(family, lists, base, top) && top' <= top
    ensures FinishesExactly(family, lists, base, top')
  {
    hide Left, Ideal;
  }

  lemma {:induction false} HistoryStaysSteady(family: int -> Migration, lists: set<seq<string>>, top: int,
        builds: seq<Build>, dbs: seq<Db>, ends: seq<RunEnd>, i: nat)
    requires IsHistory(builds, dbs, ends) && InLine(builds, family, lists, top) && NeverDowngrades(builds) && i < |builds|
    requires FinishesExactly(family, lists, dbs[0].tables, top)
    ensures Steady(family, lists, dbs[0].tables, builds[i].current, dbs[i + 1])
    ensures ends[i].Migrated? ==> dbs[i + 1].tables == Ideal(family, dbs[0].tables, builds[i].current)
  {
    hide MayRun, FinishesExactly, Declares;
    var base := dbs[0].tables;
    assert builds[i] in builds;
    if i > 0 {
      HistoryStaysSteady(family, lists, top, builds, dbs, ends, i - 1);
      SteadyGrows(family, lists, base, builds[i - 1].current, builds[i].current, dbs[i]);
    }
    hide Steady;
    FewerFinish(family, lists, base, top, builds[i].current);
    RunKeepsSteady(family, lists, base, builds[i], dbs[i], ends[i], dbs[i + 1]);
  }

  // ---- Building histories ----

  /** A build of version `v` with all its migrations. */
  function BuildOf(family: int -> Migration, managed: seq<string>, v: int): Build
    requires v >= BASELINE_STORAGE_VERSION
  {
    Build(managed, seq(v - BASELINE_STORAGE_VERSION, i => family(BASELINE_STORAGE_VERSION + 1 + i)), v)
  }

  /** Storage at version v - 1 that a build of version `v` takes up. */
  ghost predicate TakenUp(family: int -> Migration, v: int, db: Db) {
    && db.Version() == v - 1 && db.Record().rollbackFailure == []
    && (db.Pending().Some? ==> db.Pending().value == v && family(v).resumable)
  }

  lemma BuildOfIsCompatible(family: int -> Migration, managed: seq<string>, v: int, db: Db)
    requires IsFamily(family, v) && BASELINE_STORAGE_VERSION <= db.Version() <= v && db.Record().rollbackFailure == []
    requires db.Pending().Some? ==> BASELINE_STORAGE_VERSION < db.Pending().value <= v && family(db.Pending().value).resumable
    ensures Incompatible(BuildOf(family, managed, v), db).None? && Declares(BuildOf(family, managed, v), family)
  {
    var build := BuildOf(family, managed, v);
    var versions := Versions(build.migrations);
    assert forall i :: 0 <= i < |versions| ==> versions[i] == BASELINE_STORAGE_VERSION + 1 + i;
    NoneDuplicated(versions);
    NoneOutOfRange(versions, v);
    forall w | db.Version() + 1 <= w <= v ensures w in versions {
      assert versions[w - BASELINE_STORAGE_VERSION - 1] == w;
    }
    NoneMissing(versions, db.Version() + 1, v);
    if db.Pending().Some? {
      var p := db.Pending().value;
      FoundByVersion(build.migrations, p, p - BASELINE_STORAGE_VERSION - 1);
      FoundIsDeclared(build.migrations, p);
    }
  }

  /** On storage it takes up, a build of version `v` has its last migration to do. */
  lemma LastIsPending(family: int -> Migration, managed: seq<string>, v: int, db: Db)
    requires IsFamily(family, v) && v > BASELINE_STORAGE_VERSION && TakenUp(family, v, db)
    ensures Incompatible(BuildOf(family, managed, v), db).None? && Declares(BuildOf(family, managed, v), family)
    ensures PendingMigrations(BuildOf(family, managed, v).migrations, db.Version()) == [family(v)]
  {
    var build := BuildOf(family, managed, v);
    BuildOfIsCompatible(family, managed, v, db);
    PendingAreTheMissingVersions(build, db);
    var todo := PendingMigrations(build.migrations, db.Version());
    assert todo == [todo[0]] && todo[0] in build.migrations;
  }

  lemma StepIsRun(family: int -> Migration, managed: seq<string>, v: int, db: Db, k: nat, end: StepEnd, db': Db)
    requires IsFamily(family, v) && v > BASELINE_STORAGE_VERSION && TakenUp(family, v, db)
    requires !end.Applied? && k <= |family(v).script(db.tables)| && EndsStep(family(v), managed, db, k, end, db')
    ensures MayRun(BuildOf(family, managed, v), db, Halted(end), db')
  {
    LastIsPending(family, managed, v, db);
    hide Incompatible, PendingMigrations, EndsStep;
    assert StepMayEnd(family(v), managed, db, end, db');
  }

  /** A history, with the database it has come to. */
  datatype History = History(builds: seq<Build>, dbs: seq<Db>, ends: seq<RunEnd>) {
    /** Builds may start in any order. */
    ghost predicate ValidInAnyOrder(family: int -> Migration, lists: set<seq<string>>, base: Tables, top: int) {
      IsHistory(builds, dbs, ends) && dbs[0].tables == base && InLine(builds, family, lists, top)
    }

    ghost predicate Valid(family: int -> Migration, lists: set<seq<string>>, base: Tables, top: int) {
      ValidInAnyOrder(family, lists, base, top) && NeverDowngrades(builds)
    }

    function Last(): Db
      requires dbs != []
    {
      dbs[|dbs| - 1]
    }

    function Then(b: Build, end: RunEnd, db: Db): History {
      History(builds + [b], dbs + [db], ends + [end])
    }
  }

  lemma ThenInAnyOrder(h: History, family: int -> Migration, lists: set<seq<string>>, base: Tables, top: int, b: Build, end: RunEnd, db: Db)
    requires h.ValidInAnyOrder(family, lists, base, top) && MayRun(b, h.Last(), end, db)
    requires b.tables in lists && Declares(b, family) && BASELINE_STORAGE_VERSION <= b.current <= top
    ensures h.Then(b, end, db).ValidInAnyOrder(family, lists, base, top) && h.Then(b, end, db).Last() == db
  {
    hide MayRun, Declares;
    var n := h.Then(b, end, db);
    forall i | 0 <= i < |n.builds| ensures MayRun(n.builds[i], n.dbs[i], n.ends[i], n.dbs[i + 1]) {
      if i < |h.builds| { assert MayRun(h.builds[i], h.dbs[i], h.ends[i], h.dbs[i + 1]); }
    }
  }

  lemma ThenIsValid(h: History, family: int -> Migration, lists: set<seq<string>>, base: Tables, top: int, b: Build, end: RunEnd, db: Db)
    requires h.Valid(family, lists, base, top) && MayRun(b, h.Last(), end, db) && top <= b.current
    requires b.tables in lists && Declares(b, family) && BASELINE_STORAGE_VERSION <= b.current
    ensures h.Then(b, end, db).Valid(family, lists, base, b.current) && h.Then(b, end, db).Last() == db
  {
    LaterLine(h, family, lists, base, top, b.current);
    ThenInAnyOrder(h, family, lists, base, b.current, b, end, db);
    hide MayRun, Declares, IsHistory;
    assert forall i :: 0 <= i < |h.builds| ==> h.builds[i] in h.builds && h.builds[i].current <= top;
  }

  /** A build of version `v` can bring never migrated storage to version `v`. */
  lemma {:induction false} ChainFinishes(family: int -> Migration, managed: seq<string>, base: Tables, current: int,
        todo: seq<Migration>, db: Db) returns (db': Db)
    requires Chain(todo, db.Version() + 1, current) && forall m :: m in todo ==> m == family(m.version)
    requires IsIdeal(family, base, db) && Unmarked(db) && db.Record().rollbackFailure == []
    ensures MayApply(managed, current, todo, db, Migrated, db')
    ensures db'.tables == Ideal(family, base, current) && db'.Record() == Schema(current, None, [])
    decreases |todo|
  {
    if todo == [] {
      db' := db.SaveVersion(current);
    } else {
      var m := todo[0];
      assert m == family(db.Version() + 1);
      var mid := db.MarkPending(m.version).(tables := m.Finished(db.tables)).SaveVersion(m.version);
      assert EndsStep(m, managed, db, |m.script(db.tables)|, Applied, mid);
      db' := ChainFinishes(family, managed, base, current, todo[1..], mid);
    }
  }

  lemma ReachIdeal(family: int -> Migration, lists: set<seq<string>>, managed: seq<string>, base: Tables, v: int) returns (h: History)
    requires IsFamily(family, v) && v >= BASELINE_STORAGE_VERSION && managed in lists
    ensures h.Valid(family, lists, base, v)
    ensures h.Last().tables == Ideal(family, base, v) && h.Last().Record() == Schema(v, None, [])
    ensures h.ends == [Migrated] && h.builds == [BuildOf(family, managed, v)]
  {
    var db := Db(base, None);
    var build := BuildOf(family, managed, v);
    BuildOfIsCompatible(family, managed, v, db);
    PendingAreTheMissingVersions(build, db);
    var db' := ChainFinishes(family, managed, base, v, PendingMigrations(build.migrations, db.Version()), db);
    hide MayApply, Incompatible, PendingMigrations;
    h := History([build], [db, db'], [Migrated]);
  }

  /** Every set of tables in `Left` is reached by a history, ready to be taken up. */
  lemma {:induction false} ReachLeft(family: int -> Migration, lists: set<seq<string>>, base: Tables, v: int, n: nat, u: Tables)
      returns (h: History)
    requires IsFamily(family, v) && v > BASELINE_STORAGE_VERSION && lists != {}
    requires LeftAfter(n, family(v), lists, Ideal(family, base, v - 1), u)
    ensures h.Valid(family, lists, base, v)
    ensures h.Last().tables == u && TakenUp(family, v, h.Last())
    decreases n
  {
    hide Incompatible, MayApply, PendingMigrations, Declares, IsHistory, InLine, NeverDowngrades, Ideal, Leaves;
    if n == 0 {
      var managed :| managed in lists;
      h := ReachIdeal(family, lists, managed, base, v - 1);
      LaterLine(h, family, lists, base, v - 1, v);
    } else {
      var w :| LeftAfter(n - 1, family(v), lists, Ideal(family, base, v - 1), w) && LeftStep(family(v), lists, w, u);
      var before := ReachLeft(family, lists, base, v, n - 1, w);
      var managed, k :| managed in lists && 0 <= k <= |family(v).script(w)| && Leaves(family(v), managed, w, k, u);
      h := ExtendLeft(before, family, lists, base, v, managed, k, u);
    }
  }

  lemma LaterLine(h: History, family: int -> Migration, lists: set<seq<string>>, base: Tables, top: int, top': int)
    requires h.Valid(family, lists, base, top) && top <= top'
    ensures h.Valid(family, lists, base, top')
  {
    hide IsHistory, Declares;
  }

  lemma ExtendLeft(h: History, family: int -> Migration, lists: set<seq<string>>, base: Tables, v: int,
        managed: seq<string>, k: nat, u: Tables)
      returns (h': History)
    requires IsFamily(family, v) && v > BASELINE_STORAGE_VERSION && managed in lists
    requires h.Valid(family, lists, base, v) && TakenUp(family, v, h.Last())
    requires k <= |family(v).script(h.Last().tables)| && Leaves(family(v), managed, h.Last().tables, k, u)
    ensures h'.Valid(family, lists, base, v) && h'.Last().tables == u && TakenUp(family, v, h'.Last())
    ensures u == Restored(family(v).Progress(h.Last().tables, k), BackupOf(h.Last().tables, managed)) ==> Unmarked(h'.Last())
  {
    var db, m := h.Last(), family(v);
    var p, b := m.Progress(db.tables, k), BackupOf(db.tables, managed);
    var marked := db.MarkPending(v);
    var end, db';
    if u == Restored(p, b) {
      end, db' := RolledBack, marked.(tables := u).ClearPending();
    } else if u == p {
      end, db' := Stopped, marked.(tables := u);
    } else {
      end, db' := RollbackOpen, marked.(tables := u);
    }
    assert EndsStep(m, managed, db, k, end, db');
    StepIsRun(family, managed, v, db, k, end, db');
    LastIsPending(family, managed, v, db);
    hide MayRun, Incompatible, PendingMigrations, EndsStep, IsHistory, InLine, NeverDowngrades, Declares, Remnant, Restored;
    h' := h.Then(BuildOf(family, managed, v), Halted(end), db');
    ThenIsValid(h, family, lists, base, v, BuildOf(family, managed, v), Halted(end), db');
  }

  // ---- The conditions are exact ----

  /** Every start that succeeds, however many were cut or failed before it, ends with
      exactly the tables of its build's version. */
  ghost predicate EverySuccessIsExact(family: int -> Migration, lists: set<seq<string>>, base: Tables, top: int) {
    forall h: History, i: nat :: h.Valid(family, lists, base, top) && i < |h.ends| && h.ends[i].Migrated? ==>
      h.dbs[i + 1].tables == Ideal(family, base, h.builds[i].current)
  }

  /** It does, over all histories of starts, exactly when every version finishes
      exactly from each set of tables its interrupted steps may leave. */
  lemma EverySuccessIsExactIff(family: int -> Migration, lists: set<seq<string>>, base: Tables, top: int)
    requires IsFamily(family, top) && lists != {}
    ensures EverySuccessIsExact(family, lists, base, top) <==> FinishesExactly(family, lists, base, top)
  {
    if FinishesExactly(family, lists, base, top) {
      forall h: History, i: nat | h.Valid(family, lists, base, top) && i < |h.ends| && h.ends[i].Migrated?
        ensures h.dbs[i + 1].tables == Ideal(family, base, h.builds[i].current)
      {
        HistoryStaysSteady(family, lists, top, h.builds, h.dbs, h.ends, i);
      }
    } else {
      var v, u :| BASELINE_STORAGE_VERSION < v <= top && Left(family, lists, base, v, u)
                  && family(v).Finished(u) != Ideal(family, base, v);
      InexactSuccess(family, lists, base, top, v, u);
    }
  }

  lemma InexactSuccess(family: int -> Migration, lists: set<seq<string>>, base: Tables, top: int, v: int, u: Tables)
    requires IsFamily(family, top) && lists != {} && BASELINE_STORAGE_VERSION < v <= top
    requires Left(family, lists, base, v, u) && family(v).Finished(u) != Ideal(family, base, v)
    ensures !EverySuccessIsExact(family, lists, base, top)
  {
    var n: nat :| LeftIn(n, family, lists, base, v, u);
    var h := ReachLeft(family, lists, base, v, n, u);
    var managed :| managed in lists;
    var build := BuildOf(family, managed, v);
    LastIsPending(family, managed, v, h.Last());
    LastStepFinishes(family(v), managed, h.Last());
    hide MayApply, Incompatible, PendingMigrations, Declares, IsHistory, InLine, NeverDowngrades, Ideal, BuildOf;
    var db' :| MayApply(managed, v, [family(v)], h.Last(), Migrated, db');
    assert MayRun(build, h.Last(), Migrated, db') by { BuildIs(family, managed, v); }
    hide MayRun;
    BuildIs(family, managed, v);
    ThenIsValid(h, family, lists, base, v, build, Migrated, db');
    var h' := h.Then(build, Migrated, db');
    LaterLine(h', family, lists, base, v, top);
    var i := |h.ends|;
    LengthsAgree(h, family, lists, base, v);
    assert h'.ends[i] == Migrated && h'.builds[i] == build && h'.dbs[i + 1] == db';
  }

  lemma BuildIs(family: int -> Migration, managed: seq<string>, v: int)
    requires v >= BASELINE_STORAGE_VERSION
    ensures BuildOf(family, managed, v).tables == managed && BuildOf(family, managed, v).current == v
  {}

  lemma LengthsAgree(h: History, family: int -> Migration, lists: set<seq<string>>, base: Tables, top: int)
    requires h.Valid(family, lists, base, top)
    ensures |h.builds| == |h.ends| && |h.dbs| == |h.ends| + 1
  {}

  /** So under that condition any successful end equals the uninterrupted one. */
  lemma SuccessEqualsUninterrupted(family: int -> Migration, lists: set<seq<string>>, top: int,
        builds: seq<Build>, dbs: seq<Db>, ends: seq<RunEnd>, i: nat, straight: Db)
    requires IsHistory(builds, dbs, ends) && InLine(builds, family, lists, top) && NeverDowngrades(builds) && i < |builds|
    requires FinishesExactly(family, lists, dbs[0].tables, top)
    requires ends[i].Migrated? && MayRun(builds[i], dbs[0], Migrated, straight)
    ensures dbs[i + 1].tables == straight.tables && dbs[i + 1].Version() == straight.Version() == builds[i].current
  {
    HistoryStaysSteady(family, lists, top, builds, dbs, ends, i);
    assert builds[i] in builds;
    UninterruptedReachesIdeal(family, dbs[0].tables, builds[i], dbs[0], straight);
    MigratedReachesCurrent(builds[i], dbs[i], dbs[i + 1]);
    MigratedReachesCurrent(builds[i], dbs[0], straight);
  }

  // ---- Unmarked storage ----

  /** Whatever happens to version `v`'s migration, unmarked storage stays as version
      v - 1 left it: a migration that may not resume keeps to backed-up and new
      tables; one that may resume changes nothing, and has nothing backed up to
      lose. */
  ghost predicate StaysExact(family: int -> Migration, lists: set<seq<string>>, base: Tables, v: int)
    requires v > BASELINE_STORAGE_VERSION
  {
    var t, m := Ideal(family, base, v - 1), family(v);
    if m.resumable then
      && (forall k :: 0 <= k <= |m.script(t)| ==> m.Progress(t, k) == t)
      && (forall managed, name :: managed in lists && name in managed && name in t ==> t[name] == map[])
    else
      forall managed, k :: managed in lists && 0 <= k <= |m.script(t)| ==> UnmanagedKept(t, m.Progress(t, k), managed)
  }

  ghost predicate AllStayExact(family: int -> Migration, lists: set<seq<string>>, base: Tables, top: int) {
    forall v :: BASELINE_STORAGE_VERSION < v <= top ==> StaysExact(family, lists, base, v)
  }

  /** Storage without a mark, or with one that may be resumed, is exact. */
  ghost predicate Exact(family: int -> Migration, base: Tables, top: int, db: Db) {
    && BASELINE_STORAGE_VERSION <= db.Version() <= top && MarksOk(db)
    && (Unmarked(db) || (db.Record().rollbackFailure == [] && family(db.Version() + 1).resumable) ==> IsIdeal(family, base, db))
  }

  lemma EmptyRemnantIsItself(t: Tables, managed: seq<string>, w: Tables)
    requires Remnant(t, BackupOf(t, managed), w)
    requires forall name :: name in managed && name in t ==> t[name] == map[]
    ensures w == t
  {
    forall name ensures At(w, name) == At(t, name) {
      assert RemnantAt(t, BackupOf(t, managed), w, name);
    }
    forall name ensures name in w <==> name in t { assert At(w, name) == At(t, name); }
    forall name | name in w ensures w[name] == t[name] { assert At(w, name) == At(t, name); }
  }

  lemma StepKeepsExact(family: int -> Migration, lists: set<seq<string>>, base: Tables, top: int,
        managed: seq<string>, db: Db, end: StepEnd, db': Db)
    requires managed in lists && Exact(family, base, top, db) && IsIdeal(family, base, db) && db.Record().rollbackFailure == []
    requires var v := db.Version() + 1; v <= top && family(v).version == v && StaysExact(family, lists, base, v)
    requires StepMayEnd(family(db.Version() + 1), managed, db, end, db')
    ensures Exact(family, base, top, db')
    ensures end.Applied? ==> Unmarked(db') && db'.Version() == db.Version() + 1 && db'.Record().rollbackFailure == []
  {
    var m, t := family(db.Version() + 1), db.tables;
    var k: nat :| k <= |m.script(t)| && EndsStep(m, managed, db, k, end, db');
    assert Ideal(family, base, m.version) == m.Finished(t);
    hide Ideal;
    if end.RolledBack? {
      assert UnmanagedKept(t, m.Progress(t, k), managed);
      RollbackIsExactIff(t, m.Progress(t, k), managed);
    } else if end.RollbackOpen? && m.resumable {
      EmptyRemnantIsItself(t, managed, db'.tables);
    }
  }

  lemma {:induction false} ApplyKeepsExact(family: int -> Migration, lists: set<seq<string>>, base: Tables,
        build: Build, top: int, todo: seq<Migration>, db: Db, end: RunEnd, db': Db)
    requires build.tables in lists && Declares(build, family) && AllStayExact(family, lists, base, top) && build.current <= top
    requires Chain(todo, db.Version() + 1, build.current) && forall m :: m in todo ==> m in build.migrations
    requires Exact(family, base, top, db) && IsIdeal(family, base, db) && db.Record().rollbackFailure == []
    requires MayApply(build.tables, build.current, todo, db, end, db')
    ensures Exact(family, base, top, db')
    decreases |todo|
  {
    hide Ideal, StaysExact;
    if todo != [] {
      var v := db.Version() + 1;
      assert todo[0] == family(v) && StaysExact(family, lists, base, v);
      if end.Halted? && !end.at.Applied? && StepMayEnd(todo[0], build.tables, db, end.at, db') {
        StepKeepsExact(family, lists, base, top, build.tables, db, end.at, db');
      } else {
        var mid :| StepMayEnd(todo[0], build.tables, db, Applied, mid) && MayApply(build.tables, build.current, todo[1..], mid, end, db');
        StepKeepsExact(family, lists, base, top, build.tables, db, Applied, mid);
        ApplyKeepsExact(family, lists, base, build, top, todo[1..], mid, end, db');
      }
    }
  }

  lemma {:induction false} HistoryStaysExact(family: int -> Migration, lists: set<seq<string>>, top: int,
        builds: seq<Build>, dbs: seq<Db>, ends: seq<RunEnd>, i: nat)
    requires IsHistory(builds, dbs, ends) && InLine(builds, family, lists, top) && i < |dbs| && top >= BASELINE_STORAGE_VERSION
    requires AllStayExact(family, lists, dbs[0].tables, top)
    ensures Exact(family, dbs[0].tables, top, dbs[i])
  {
    if i > 0 {
      var build, db := builds[i - 1], dbs[i - 1];
      HistoryStaysExact(family, lists, top, builds, dbs, ends, i - 1);
      assert build in builds;
      if Incompatible(build, db).None? && !(ends[i - 1].Faulted? && dbs[i] == db) {
        PendingAreTheMissingVersions(build, db);
        if db.Pending().Some? { FoundIsDeclared(build.migrations, db.Pending().value); }
        hide AllStayExact, Ideal;
        ApplyKeepsExact(family, lists, dbs[0].tables, build, top, PendingMigrations(build.migrations, db.Version()), db, ends[i - 1], dbs[i]);
      }
    }
  }

  /** Over all histories, downgrades included, storage without a mark holds exactly
      the tables of its version. */
  ghost predicate UnmarkedIsAlwaysExact(family: int -> Migration, lists: set<seq<string>>, base: Tables, top: int) {
    forall h: History, i: nat :: h.ValidInAnyOrder(family, lists, base, top) && i < |h.dbs| && Unmarked(h.dbs[i]) ==>
      IsIdeal(family, base, h.dbs[i])
  }

  /** It does exactly when every version's migration leaves unmarked storage exact. */
  lemma UnmarkedIsAlwaysExactIff(family: int -> Migration, lists: set<seq<string>>, base: Tables, top: int)
    requires IsFamily(family, top) && lists != {} && top >= BASELINE_STORAGE_VERSION
    ensures UnmarkedIsAlwaysExact(family, lists, base, top) <==> AllStayExact(family, lists, base, top)
  {
    if AllStayExact(family, lists, base, top) {
      forall h: History, i: nat | h.ValidInAnyOrder(family, lists, base, top) && i < |h.dbs| && Unmarked(h.dbs[i])
        ensures IsIdeal(family, base, h.dbs[i])
      {
        HistoryStaysExact(family, lists, top, h.builds, h.dbs, h.ends, i);
      }
    } else {
      var v :| BASELINE_STORAGE_VERSION < v <= top && !StaysExact(family, lists, base, v);
      var h := InexactUnmarked(family, lists, base, v);
      hide IsHistory, InLine, Ideal;
      LaterLine(h, family, lists, base, v, top);
      assert h.ValidInAnyOrder(family, lists, base, top);
      LengthsAgree(h, family, lists, base, top);
      assert Unmarked(h.dbs[|h.dbs| - 1]) && !IsIdeal(family, base, h.dbs[|h.dbs| - 1]);
    }
  }

  /** Some history leaves unmarked storage of version v - 1 with other tables. */
  lemma InexactUnmarked(family: int -> Migration, lists: set<seq<string>>, base: Tables, v: int) returns (h: History)
    requires IsFamily(family, v) && lists != {} && v > BASELINE_STORAGE_VERSION && !StaysExact(family, lists, base, v)
    ensures h.Valid(family, lists, base, v) && TakenUp(family, v, h.Last())
    ensures Unmarked(h.Last()) && h.Last().tables != Ideal(family, base, v - 1)
  {
    var t, m := Ideal(family, base, v - 1), family(v);
    var managed, k, w := InexactStep(m, lists, t);
    var start := ReachIdeal(family, lists, managed, base, v - 1);
    LaterLine(start, family, lists, base, v - 1, v);
    hide Leaves, IsHistory, InLine, NeverDowngrades, Ideal;
    h := ExtendLeft(start, family, lists, base, v, managed, k, w);
    if !Unmarked(h.Last()) {
      ZeroRollback(m, managed, w);
      h := ExtendLeft(h, family, lists, base, v, managed, 0, w);
    }
  }

  /** A step that is rolled back before it writes anything leaves all as it was. */
  lemma ZeroRollback(m: Migration, managed: seq<string>, u: Tables)
    ensures Leaves(m, managed, u, 0, u) && u == Restored(m.Progress(u, 0), BackupOf(u, managed))
  {
    RollbackIsExactIff(u, m.Progress(u, 0), managed);
  }

  /** The migration may leave other tables than it found, to be taken up. */
  lemma InexactStep(m: Migration, lists: set<seq<string>>, t: Tables) returns (managed: seq<string>, k: nat, w: Tables)
    requires lists != {}
    requires !(if m.resumable then
                 (forall k :: 0 <= k <= |m.script(t)| ==> m.Progress(t, k) == t)
                 && (forall managed, name :: managed in lists && name in managed && name in t ==> t[name] == map[])
               else
                 forall managed, k :: managed in lists && 0 <= k <= |m.script(t)| ==> UnmanagedKept(t, m.Progress(t, k), managed))
    ensures managed in lists && k <= |m.script(t)| && Leaves(m, managed, t, k, w) && w != t
  {
    if !m.resumable {
      managed, k :| managed in lists && 0 <= k <= |m.script(t)| && !UnmanagedKept(t, m.Progress(t, k), managed);
      RollbackIsExactIff(t, m.Progress(t, k), managed);
      w := Restored(m.Progress(t, k), BackupOf(t, managed));
    } else if k' :| 0 <= k' <= |m.script(t)| && m.Progress(t, k') != t {
      managed :| managed in lists;
      k, w := k', m.Progress(t, k');
    } else {
      var name;
      managed, name :| managed in lists && name in managed && name in t && t[name] != map[];
      k, w := 0, t[name := map[]];
      assert Remnant(t, BackupOf(t, managed), w);
    }
  }

  // ---- Downgrades ----

  ghost predicate SuccessInAnyOrderIsExact(family: int -> Migration, lists: set<seq<string>>, base: Tables, top: int) {
    forall h: History, i: nat :: h.ValidInAnyOrder(family, lists, base, top) && i < |h.ends| && h.ends[i].Migrated? ==>
      h.dbs[i + 1].tables == Ideal(family, base, h.builds[i].current)
  }

  /** When older builds may start again, success is always exact exactly when unmarked
      storage is: an older build succeeds on whatever a newer one rolled back. */
  lemma SuccessUnderDowngradesIff(family: int -> Migration, lists: set<seq<string>>, base: Tables, top: int)
    requires IsFamily(family, top) && lists != {} && top >= BASELINE_STORAGE_VERSION
    ensures SuccessInAnyOrderIsExact(family, lists, base, top) <==> AllStayExact(family, lists, base, top)
  {
    if AllStayExact(family, lists, base, top) {
      forall h: History, i: nat | h.ValidInAnyOrder(family, lists, base, top) && i < |h.ends| && h.ends[i].Migrated?
        ensures h.dbs[i + 1].tables == Ideal(family, base, h.builds[i].current)
      {
        HistoryStaysExact(family, lists, top, h.builds, h.dbs, h.ends, i + 1);
        MigratedReachesCurrent(h.builds[i], h.dbs[i], h.dbs[i + 1]);
      }
    } else {
      var v :| BASELINE_STORAGE_VERSION < v <= top && !StaysExact(family, lists, base, v);
      var h := InexactDowngrade(family, lists, base, top, v);
      assert h.ends[|h.ends| - 1].Migrated?;
    }
  }

  lemma InexactDowngrade(family: int -> Migration, lists: set<seq<string>>, base: Tables, top: int, v: int)
      returns (h: History)
    requires IsFamily(family, top) && lists != {} && BASELINE_STORAGE_VERSION < v <= top && !StaysExact(family, lists, base, v)
    ensures h.ValidInAnyOrder(family, lists, base, top) && h.ends != [] && h.ends[|h.ends| - 1].Migrated?
    ensures h.dbs[|h.ends|].tables != Ideal(family, base, h.builds[|h.ends| - 1].current)
  {
    hide MayRun, Ideal, StaysExact, Declares, BuildOf, IsHistory, InLine, NeverDowngrades;
    var before := InexactUnmarked(family, lists, base, v);
    LengthsAgree(before, family, lists, base, v);
    var managed :| managed in lists;
    var older, db := BuildOf(family, managed, v - 1), before.Last();
    var db' := db.SaveVersion(v - 1);
    OlderStarts(family, managed, v - 1, db);
    BuildIs(family, managed, v - 1);
    LaterLine(before, family, lists, base, v, top);
    ThenInAnyOrder(before, family, lists, base, top, older, Migrated, db');
    h := before.Then(older, Migrated, db');
  }

  /** A build that finds its own version has nothing to migrate. */
  lemma OlderStarts(family: int -> Migration, managed: seq<string>, v: int, db: Db)
    requires IsFamily(family, v) && v >= BASELINE_STORAGE_VERSION && db.Version() == v && Unmarked(db)
    requires db.Record().rollbackFailure == []
    ensures MayRun(BuildOf(family, managed, v), db, Migrated, db.SaveVersion(v))
    ensures Declares(BuildOf(family, managed, v), family)
  {
    var build := BuildOf(family, managed, v);
    BuildOfIsCompatible(family, managed, v, db);
    PendingAreTheMissingVersions(build, db);
    hide Incompatible, PendingMigrations;
  }

  /** When no migration may resume and all keep to backed-up and new tables, both hold,
      whatever the first tables and the history. */
  lemma WithoutResuming(family: int -> Migration, lists: set<seq<string>>, base: Tables, top: int)
    requires IsFamily(family, top) && lists != {} && top >= BASELINE_STORAGE_VERSION
    requires forall v :: BASELINE_STORAGE_VERSION < v <= top ==> !family(v).resumable
    requires forall v, managed, t: Tables, k :: BASELINE_STORAGE_VERSION < v <= top && managed in lists && 0 <= k <= |family(v).script(t)| ==>
               UnmanagedKept(t, family(v).Progress(t, k), managed)
    ensures UnmarkedIsAlwaysExact(family, lists, base, top) && SuccessInAnyOrderIsExact(family, lists, base, top)
  {
    hide UnmarkedIsAlwaysExact, SuccessInAnyOrderIsExact, UnmanagedKept;
    UnmarkedIsAlwaysExactIff(family, lists, base, top);
    SuccessUnderDowngradesIff(family, lists, base, top);
  }

  // ---- An example ----

  /** A migration to version 2 that rewrites every account: resumable, and the same
      result from any partial state. */
  function Rewritten(t: Tables): Tables {
    if "ACCOUNTS" in t then t["ACCOUNTS" := map id | id in t["ACCOUNTS"] :: "new"] else t
  }

  function Rewrite(version: int): Migration {
    Migration(version, version == 2, (t: Tables) => [Rewritten(t)])
  }

  const OneRow: Tables := map["ACCOUNTS" := map["a" := "old"]]

  lemma RewriteTwice(t: Tables)
    ensures Rewritten(Rewritten(t)) == Rewritten(t)
  {
    if "ACCOUNTS" in t {
      assert Rewritten(Rewritten(t))["ACCOUNTS"] == Rewritten(t)["ACCOUNTS"];
    }
  }

  const RewriteBuild := Build(["ACCOUNTS"], [Rewrite(2)], 2)
  const Emptied: Tables := map["ACCOUNTS" := map[]]

  /** Never migrated; cut between clearing the table and inserting its backup; and
      migrated by the next start. */
  const LosingHistory: seq<Db> :=
    [Db(OneRow, None), Db(Emptied, Some(Schema(1, Some(2), []))), Db(Emptied, Some(Schema(2, None, [])))]

  const LosingStart := History([RewriteBuild, RewriteBuild], LosingHistory, [Halted(RollbackOpen), Migrated])

  lemma RewriteIsPending(db: Db)
    requires db.Version() == 1 && (db.Pending().Some? ==> db.Pending() == Some(2)) && db.Record().rollbackFailure == []
    ensures Incompatible(RewriteBuild, db).None? && PendingMigrations(RewriteBuild.migrations, db.Version()) == [Rewrite(2)]
  {
    NoneDuplicated(Versions(RewriteBuild.migrations));
    NoneOutOfRange(Versions(RewriteBuild.migrations), 2);
    NoneMissing(Versions(RewriteBuild.migrations), 2, 2);
    assert Versions(RewriteBuild.migrations)[0] == 2;
  }

  lemma CutRollback()
    ensures StepMayEnd(Rewrite(2), ["ACCOUNTS"], LosingHistory[0], RollbackOpen, LosingHistory[1])
  {
    var m, db, left := Rewrite(2), LosingHistory[0], LosingHistory[1];
    var b := BackupOf(db.tables, ["ACCOUNTS"]);
    forall name ensures RemnantAt(m.Progress(db.tables, 1), b, left.tables, name) {}
    assert EndsStep(m, ["ACCOUNTS"], db, 1, RollbackOpen, left);
  }

  lemma ResumeOnEmptied()
    ensures StepMayEnd(Rewrite(2), ["ACCOUNTS"], LosingHistory[1], Applied, LosingHistory[2])
  {
    assert Rewritten(Emptied) == Emptied;
    assert EndsStep(Rewrite(2), ["ACCOUNTS"], LosingHistory[1], 1, Applied, LosingHistory[2]);
  }

  lemma LosingIsHistory()
    ensures IsHistory(LosingStart.builds, LosingHistory, LosingStart.ends)
  {
    CutRollback();
    ResumeOnEmptied();
    LosingStarts();
    hide MayRun, StepMayEnd;
    forall i | 0 <= i < 2 ensures MayRun(LosingStart.builds[i], LosingHistory[i], LosingStart.ends[i], LosingHistory[i + 1]) {
      if i == 0 {
        assert LosingStart.ends[i] == Halted(RollbackOpen);
      } else {
        assert LosingStart.ends[i] == Migrated;
      }
    }
  }

  lemma LosingIsInLine()
    ensures InLine(LosingStart.builds, Rewrite, {["ACCOUNTS"]}, 2) && NeverDowngrades(LosingStart.builds)
  {
    assert forall b :: b in LosingStart.builds ==> b == RewriteBuild;
  }

  lemma LosingLoses()
    ensures LosingHistory[2].tables != Ideal(Rewrite, OneRow, 2)
  {
    assert Ideal(Rewrite, OneRow, 2) == Rewritten(OneRow);
    assert "a" in Rewritten(OneRow)["ACCOUNTS"] && "a" !in Emptied["ACCOUNTS"];
  }

  lemma RewriteGivesOneResult(t: Tables, k: nat)
    requires k <= |Rewrite(2).script(t)|
    ensures Rewrite(2).Finished(Rewrite(2).Progress(t, k)) == Rewrite(2).Finished(t)
  {
    RewriteTwice(t);
  }

  /** Giving one result from any partial state is not enough to resume: when the first
      start is cut between clearing a table and putting its backup back, the second
      succeeds without the rows. */
  lemma RollbackCutLosesRows()
    ensures forall t: Tables, k: nat :: k <= |Rewrite(2).script(t)| ==>
              Rewrite(2).Finished(Rewrite(2).Progress(t, k)) == Rewrite(2).Finished(t)
    ensures LosingStart.Valid(Rewrite, {["ACCOUNTS"]}, OneRow, 2)
    ensures LosingStart.ends[1].Migrated? && LosingStart.Last().tables != Ideal(Rewrite, OneRow, 2)
    ensures !FinishesExactly(Rewrite, {["ACCOUNTS"]}, OneRow, 2)
  {
    forall t: Tables, k: nat | k <= |Rewrite(2).script(t)|
      ensures Rewrite(2).Finished(Rewrite(2).Progress(t, k)) == Rewrite(2).Finished(t)
    {
      RewriteGivesOneResult(t, k);
    }
    LosingIsHistory();
    LosingIsInLine();
    LosingLoses();
    hide FinishesExactly, IsHistory, InLine, NeverDowngrades, Ideal, Rewritten;
    EverySuccessIsExactIff(Rewrite, {["ACCOUNTS"]}, OneRow, 2);
    assert LosingStart.dbs[1 + 1] == LosingHistory[2] && LosingStart.builds[1].current == 2;
  }

  lemma LosingStarts()
    requires StepMayEnd(Rewrite(2), ["ACCOUNTS"], LosingHistory[0], RollbackOpen, LosingHistory[1])
    requires StepMayEnd(Rewrite(2), ["ACCOUNTS"], LosingHistory[1], Applied, LosingHistory[2])
    ensures MayRun(RewriteBuild, LosingHistory[0], Halted(RollbackOpen), LosingHistory[1])
    ensures MayRun(RewriteBuild, LosingHistory[1], Migrated, LosingHistory[2])
  {
    hide StepMayEnd;
    RewriteIsPending(LosingHistory[0]);
    RewriteIsPending(LosingHistory[1]);
    hide Incompatible, PendingMigrations;
    assert MayApply(["ACCOUNTS"], 2, [Rewrite(2)][1..], LosingHistory[2], Migrated, LosingHistory[2]);
  }
}
