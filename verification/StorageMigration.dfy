/** Versioned storage and what one startup of the migration runner may do to it.
    A table is its records by id; `updatedAt` stamps are not modelled. The schema
    record lives in its own table, kept apart here because no backup covers it. */
module StorageMigration {
  import opened Common
  import opened StableSorting

  const BASELINE_STORAGE_VERSION := 1

  type Table = map<string, string>
  type Tables = map<string, Table>

  function At(t: Tables, name: string): Option<Table> {
    if name in t then Some(t[name]) else None
  }

  /** `script(t)` are the table states a migration started on `t` passes through,
      one for each of its writes. */
  datatype Migration = Migration(version: int, resumable: bool, script: Tables -> seq<Tables>) {
    function Progress(t: Tables, k: nat): Tables
      requires k <= |script(t)|
    {
      if k == 0 then t else script(t)[k - 1]
    }

    function Finished(t: Tables): Tables {
      Progress(t, |script(t)|)
    }
  }

  /** The failures of a rollback, as the record keeps them; none is null. */
  datatype Schema = Schema(version: int, pending: Option<int>, rollbackFailure: seq<string>)

  datatype Db = Db(tables: Tables, schema: Option<Schema>) {
    function Record(): Schema {
      if schema.Some? then schema.value else Schema(BASELINE_STORAGE_VERSION, None, [])
    }

    function Version(): int { Record().version }

    function Pending(): Option<int> { Record().pending }

    function SaveVersion(version: int): Db {
      this.(schema := Some(Record().(version := version, pending := None)))
    }

    function MarkPending(version: int): Db {
      this.(schema := Some(Record().(pending := Some(version))))
    }

    function ClearPending(): Db {
      this.(schema := Some(Record().(pending := None)))
    }

    function MarkRollbackFailure(failures: seq<string>): Db {
      this.(schema := Some(Record().(rollbackFailure := failures)))
    }
  }

  // ---- Checks ----

  datatype Violation = DuplicateVersion | VersionOutOfRange | MissingMigration

  datatype Interruption = RollbackIncomplete | MigrationNotFound | MigrationNotResumable

  datatype Error =
    | VersionDowngrade(stored: int, current: int)
    | ChainError(violation: Violation, versions: seq<int>)
    | Interrupted(pending: int, reason: Interruption)
    | MigrationFailed(version: int)
    | RollbackError(version: int, failures: seq<string>)
    | StorageFault

  /** What one SDK build brings: the tables it backs up and its migrations. */
  datatype Build = Build(tables: seq<string>, migrations: seq<Migration>, current: int)

  function Versions(migrations: seq<Migration>): seq<int> {
    seq(|migrations|, i requires 0 <= i < |migrations| => migrations[i].version)
  }

  function Duplicated(versions: seq<int>): seq<int> {
    if versions == [] then []
    else
      var last := |versions| - 1;
      Duplicated(versions[..last]) + (if versions[last] in versions[..last] then [versions[last]] else [])
  }

  function OutOfRange(versions: seq<int>, current: int): seq<int> {
    if versions == [] then []
    else (if versions[0] <= BASELINE_STORAGE_VERSION || versions[0] > current then [versions[0]] else [])
         + OutOfRange(versions[1..], current)
  }

  /** The versions from `from` to `current` that no migration declares. */
  function Missing(versions: seq<int>, from: int, current: int): seq<int>
    decreases current - from
  {
    if from > current then []
    else (if from in versions then [] else [from]) + Missing(versions, from + 1, current)
  }

  function Find(migrations: seq<Migration>, version: int): Option<Migration> {
    if migrations == [] then None
    else if migrations[0].version == version then Some(migrations[0])
    else Find(migrations[1..], version)
  }

  function Interruptions(build: Build, db: Db): Option<Error> {
    if db.Pending().None? then None
    else
      var p := db.Pending().value;
      var m := Find(build.migrations, p);
      if db.Record().rollbackFailure != [] then Some(Interrupted(p, RollbackIncomplete))
      else if m.None? then Some(Interrupted(p, MigrationNotFound))
      else if !m.value.resumable then Some(Interrupted(p, MigrationNotResumable))
      else None
  }

  /** Why a start refuses this storage, if it does. */
  function Incompatible(build: Build, db: Db): Option<Error> {
    var versions := Versions(build.migrations);
    if db.Version() > build.current then Some(VersionDowngrade(db.Version(), build.current))
    else if Duplicated(versions) != [] then Some(ChainError(DuplicateVersion, Duplicated(versions)))
    else if OutOfRange(versions, build.current) != [] then Some(ChainError(VersionOutOfRange, OutOfRange(versions, build.current)))
    else if Missing(versions, db.Version() + 1, build.current) != []
    then Some(ChainError(MissingMigration, Missing(versions, db.Version() + 1, build.current)))
    else Interruptions(build, db)
  }

  function Newer(migrations: seq<Migration>, stored: int): seq<Migration> {
    if migrations == [] then []
    else (if migrations[0].version > stored then [migrations[0]] else []) + Newer(migrations[1..], stored)
  }

  function PendingMigrations(migrations: seq<Migration>, stored: int): seq<Migration> {
    Sort(Newer(migrations, stored), (m: Migration) => m.version)
  }

  // ---- Steps ----

  datatype Backup = Backup(records: Tables, tables: set<string>)

  function BackupOf(t: Tables, managed: seq<string>): Backup {
    Backup(map name | name in managed && name in t :: t[name], t.Keys)
  }

  /** The tables after a complete rollback from `t`. */
  function Restored(t: Tables, b: Backup): Tables {
    map name | name in t.Keys * b.tables + b.records.Keys :: if name in b.records then b.records[name] else t[name]
  }

  /** What a rollback from `t` may leave of one table, wherever it stops: a backed-up
      table as it was, emptied, or restored; another old table as it was; a table
      the migration created as it was, or dropped. */
  ghost predicate RemnantAt(t: Tables, b: Backup, left: Tables, name: string) {
    if name in b.records then At(left, name) == At(t, name) || At(left, name) == Some(map[]) || At(left, name) == Some(b.records[name])
    else At(left, name) == At(t, name) || (name !in b.tables && At(left, name) == None)
  }

  ghost predicate Remnant(t: Tables, b: Backup, left: Tables) {
    forall name :: RemnantAt(t, b, left, name)
  }

  datatype StepEnd =
    | Untouched                            // the backup or the pending mark failed
    | Applied
    | Stopped                              // cut before the migration settled
    | RolledBack
    | RollbackOpen                         // cut, or failed to record how it ended
    | RollbackFailed(failures: seq<string>)

  ghost predicate EndsStep(m: Migration, managed: seq<string>, db: Db, k: nat, end: StepEnd, db': Db)
    requires k <= |m.script(db.tables)|
  {
    var b := BackupOf(db.tables, managed);
    var marked := db.MarkPending(m.version);
    var t := m.Progress(db.tables, k);
    match end
    case Untouched => db' == db
    case Applied => k == |m.script(db.tables)| && db' == marked.(tables := t).SaveVersion(m.version)
    case Stopped => db' == marked.(tables := t)
    case RolledBack => db' == marked.(tables := Restored(t, b)).ClearPending()
    case RollbackOpen => db'.schema == marked.schema && Remnant(t, b, db'.tables)
    case RollbackFailed(failures) =>
      failures != [] && Remnant(t, b, db'.tables) && db'.schema == marked.MarkRollbackFailure(failures).schema
  }

  /** One step of migration `m` may end this way, after some prefix of its writes. */
  ghost predicate StepMayEnd(m: Migration, managed: seq<string>, db: Db, end: StepEnd, db': Db) {
    exists k: nat :: k <= |m.script(db.tables)| && EndsStep(m, managed, db, k, end, db')
  }

  datatype RunEnd =
    | Migrated
    | Refused(error: Error)
    | Faulted              // reading or saving the version failed
    | Halted(at: StepEnd)

  /** A start with these migrations still to apply may end this way. */
  ghost predicate MayApply(managed: seq<string>, current: int, todo: seq<Migration>, db: Db, end: RunEnd, db': Db)
    decreases |todo|
  {
    if todo == [] then
      (end.Migrated? && db' == db.SaveVersion(current)) || (end.Faulted? && db' == db)
    else
      || (exists mid :: StepMayEnd(todo[0], managed, db, Applied, mid) && MayApply(managed, current, todo[1..], mid, end, db'))
      || (end.Halted? && !end.at.Applied? && StepMayEnd(todo[0], managed, db, end.at, db'))
  }

  /** A start of this build on `db` may end this way. */
  ghost predicate MayRun(build: Build, db: Db, end: RunEnd, db': Db) {
    || (end.Faulted? && db' == db)
    || (Incompatible(build, db).Some? && end == Refused(Incompatible(build, db).value) && db' == db)
    || (Incompatible(build, db).None?
        && MayApply(build.tables, build.current, PendingMigrations(build.migrations, db.Version()), db, end, db'))
  }
}
