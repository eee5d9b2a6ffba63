/** The runner itself, over a storage whose every operation may work, throw, or be
    the last one before the process is cut. */
module StorageMigrationRunner {
  import opened Common
  import opened StableSorting
  import opened StorageMigration

  datatype Fate = Works | Throws | Crashes

  datatype Outcome = Done(version: int) | Threw(error: Error) | Cut

  function Failing(f: Fate, error: Error): Outcome
    requires !f.Works?
  {
    if f.Throws? then Threw(error) else Cut
  }

  datatype Op =
    | ListTables | ReadTable(name: string) | CheckTable(name: string) | CreateTable(name: string) | DropTable(name: string)
    | ClearTable(name: string) | InsertInto(name: string) | ReadSchema | WriteSchema | Migrate

  /** One call of the storage, and how it ended. */
  datatype Call = Call(op: Op, fate: Fate)

  /** The storage writes down every call made to it. */
  class Storage {
    var tables: Tables
    var schema: Option<Schema>
    ghost var log: seq<Call>

    ghost function State(): Db
      reads this
    {
      Db(tables, schema)
    }

    constructor (db: Db)
      ensures State() == db && log == []
    {
      tables, schema, log := db.tables, db.schema, [];
    }

    method Operate(ghost op: Op) returns (f: Fate)
      modifies this`log
      ensures log == old(log) + [Call(op, f)]
    {
      f := *;
      log := log + [Call(op, f)];
    }

    method GetTableNames() returns (f: Fate, names: set<string>)
      modifies this`log
      ensures log == old(log) + [Call(ListTables, f)]
      ensures f.Works? ==> names == tables.Keys
    {
      f := Operate(ListTables);
      names := tables.Keys;
    }

    method GetAll(name: string) returns (f: Fate, records: Table)
      requires name in tables
      modifies this`log
      ensures log == old(log) + [Call(ReadTable(name), f)]
      ensures f.Works? ==> records == tables[name]
    {
      f := Operate(ReadTable(name));
      records := tables[name];
    }

    method TableExists(name: string) returns (f: Fate, present: bool)
      modifies this`log
      ensures log == old(log) + [Call(CheckTable(name), f)]
      ensures f.Works? ==> present == (name in tables)
    {
      f := Operate(CheckTable(name));
      present := name in tables;
    }

    method CreateTable(name: string) returns (f: Fate)
      modifies this`tables, this`log
      ensures log == old(log) + [Call(Op.CreateTable(name), f)]
      ensures tables == if f.Works? then old(tables)[name := map[]] else old(tables)
    {
      f := Operate(Op.CreateTable(name));
      if f.Works? { tables := tables[name := map[]]; }
    }

    method DropTable(name: string) returns (f: Fate)
      modifies this`tables, this`log
      ensures log == old(log) + [Call(Op.DropTable(name), f)]
      ensures tables == if f.Works? then old(tables) - {name} else old(tables)
    {
      f := Operate(Op.DropTable(name));
      if f.Works? { tables := tables - {name}; }
    }

    method ClearTable(name: string) returns (f: Fate)
      modifies this`tables, this`log
      ensures log == old(log) + [Call(Op.ClearTable(name), f)]
      ensures tables == if f.Works? then old(tables)[name := map[]] else old(tables)
    {
      f := Operate(Op.ClearTable(name));
      if f.Works? { tables := tables[name := map[]]; }
    }

    method InsertMany(name: string, records: Table) returns (f: Fate)
      requires name in tables
      modifies this`tables, this`log
      ensures log == old(log) + [Call(InsertInto(name), f)]
      ensures tables == if f.Works? then old(tables)[name := old(tables)[name] + records] else old(tables)
    {
      f := Operate(InsertInto(name));
      if f.Works? { tables := tables[name := tables[name] + records]; }
    }

    method GetSchema() returns (f: Fate, record: Option<Schema>)
      modifies this`log
      ensures log == old(log) + [Call(ReadSchema, f)]
      ensures f.Works? ==> record == schema
    {
      f := Operate(ReadSchema);
      record := schema;
    }

    method PutSchema(record: Schema) returns (f: Fate)
      modifies this`schema, this`log
      ensures log == old(log) + [Call(WriteSchema, f)]
      ensures schema == if f.Works? then Some(record) else old(schema)
    {
      f := Operate(WriteSchema);
      if f.Works? { schema := Some(record); }
    }

    /** The migration writes any part of its script, and finishes only after all. */
    method Run(m: Migration) returns (f: Fate, ghost k: nat)
      modifies this`tables, this`log
      ensures k <= |m.script(old(tables))| && tables == m.Progress(old(tables), k)
      ensures f.Works? ==> k == |m.script(old(tables))|
      ensures IsStage(old(log), log, f)
    {
      var states := m.script(tables);
      ghost var start := tables;
      k := 0;
      for i := 0 to |states|
        invariant k == i && tables == m.Progress(start, i)
        invariant old(log) <= log && AllWork(Since(old(log), log))
      {
        f := Operate(Migrate);
        if !f.Works? { return; }
        tables := states[i];
        k := i + 1;
      }
      f := Operate(Migrate);
    }
  }

  // ---- The log ----

  ghost predicate AllWork(calls: seq<Call>) {
    forall i :: 0 <= i < |calls| ==> calls[i].fate.Works?
  }

  /** Calls made one after the other, up to the first that did not work; the last
      ended this way. */
  ghost predicate StageOf(made: seq<Call>, f: Fate) {
    made != [] && AllWork(made[..|made| - 1]) && made[|made| - 1].fate == f
  }

  ghost predicate CrashesAtEnd(made: seq<Call>) {
    made != [] && made[|made| - 1].fate.Crashes?
  }

  /** Nothing is called after a cut. */
  ghost predicate StopsWhenCut(made: seq<Call>) {
    forall i :: 0 <= i < |made| - 1 ==> !made[i].fate.Crashes?
  }

  function Since(before: seq<Call>, after: seq<Call>): seq<Call> {
    if |before| <= |after| then after[|before|..] else []
  }

  ghost predicate IsStage(before: seq<Call>, after: seq<Call>, f: Fate) {
    before <= after && StageOf(Since(before, after), f)
  }

  lemma SinceJoins(a: seq<Call>, b: seq<Call>, c: seq<Call>)
    requires a <= b <= c
    ensures a <= c && Since(a, c) == Since(a, b) + Since(b, c)
  {}

  lemma StagesJoin(a: seq<Call>, b: seq<Call>, c: seq<Call>, f: Fate)
    requires IsStage(a, b, Works) && IsStage(b, c, f)
    ensures IsStage(a, c, f)
  {
    SinceJoins(a, b, c);
    var m, n := Since(a, b), Since(b, c);
    assert (m + n)[..|m + n| - 1] == m + n[..|n| - 1];
  }

  /** A stage made after calls that were not cut. */
  lemma StageFollows(made: seq<Call>, stage: seq<Call>, f: Fate)
    requires StopsWhenCut(made) && !CrashesAtEnd(made) && StageOf(stage, f)
    ensures StopsWhenCut(made + stage) && (CrashesAtEnd(made + stage) <==> f.Crashes?)
    ensures AllWork(made + stage) <==> AllWork(made) && f.Works?
    ensures (made + stage)[|made + stage| - 1].fate == f
  {
    assert forall i :: 0 <= i < |stage| - 1 ==> stage[i] == stage[..|stage| - 1][i] && stage[i].fate.Works?;
    assert forall i :: 0 <= i < |stage| ==> (made + stage)[|made| + i] == stage[i];
    assert forall i :: 0 <= i < |made| ==> (made + stage)[i] == made[i];
  }

  ghost predicate Touches(op: Op, name: string) {
    match op
    case CheckTable(n) => n == name
    case CreateTable(n) => n == name
    case DropTable(n) => n == name
    case ClearTable(n) => n == name
    case InsertInto(n) => n == name
    case _ => false
  }

  /** Some call on this table threw. */
  ghost predicate ThrewOn(calls: seq<Call>, name: string) {
    exists i :: 0 <= i < |calls| && calls[i].fate.Throws? && Touches(calls[i].op, name)
  }

  lemma ThrewStays(calls: seq<Call>, more: seq<Call>, name: string)
    ensures ThrewOn(calls, name) || ThrewOn(more, name) ==> ThrewOn(calls + more, name)
  {
    if i :| 0 <= i < |calls| && calls[i].fate.Throws? && Touches(calls[i].op, name) { assert (calls + more)[i] == calls[i]; }
    if i :| 0 <= i < |more| && more[i].fate.Throws? && Touches(more[i].op, name) { assert (calls + more)[|calls| + i] == more[i]; }
  }

  ghost predicate ListingThrew(calls: seq<Call>) {
    exists i :: 0 <= i < |calls| && calls[i] == Call(ListTables, Throws)
  }

  lemma ListingThrewStays(calls: seq<Call>, more: seq<Call>)
    ensures ListingThrew(calls) ==> ListingThrew(calls + more)
  {
    if i :| 0 <= i < |calls| && calls[i] == Call(ListTables, Throws) { assert (calls + more)[i] == calls[i]; }
  }

  /** A rollback that is not cut has tried everything: what it did not restore or drop
      had a call of its own that threw. */
  ghost predicate TriedAll(made: seq<Call>, b: Backup, tables: Tables) {
    && (forall n :: n in b.records ==> At(tables, n) == Some(b.records[n]) || ThrewOn(made, n))
    && (forall n :: n in tables && n !in b.tables ==> ThrewOn(made, n) || ListingThrew(made))
  }

  /** The first call that does not work, and how a step that made these calls ends. */
  ghost predicate EndsAs(made: seq<Call>, cause: nat, end: StepEnd) {
    && cause <= |made| && AllWork(made[..cause]) && (cause < |made| ==> !made[cause].fate.Works?)
    && if cause == |made| then end.Applied?
       else if Call(WriteSchema, Works) !in made[..cause] then end.Untouched? && cause == |made| - 1
       else if made[cause].fate.Crashes? then end.Stopped? && cause == |made| - 1
       else RollbackEndsAs(made[cause + 1..], end)
  }

  /** After a throw behind the pending mark everything is rolled back; how that ends is
      decided by its own calls. */
  ghost predicate RollbackEndsAs(made: seq<Call>, end: StepEnd) {
    && made != []
    && (end.RolledBack? <==> AllWork(made))
    && (end.RollbackOpen? <==> !made[|made| - 1].fate.Works?)
    && (end.RollbackFailed? <==> made[|made| - 1].fate.Works? && !AllWork(made))
  }

  /** The repository of the schema record: read it, then write it whole. */
  class StorageMetadataStorageRepository {
    const storage: Storage

    constructor (storage: Storage)
      ensures this.storage == storage
    {
      this.storage := storage;
    }

    method ReadSchema() returns (f: Fate, record: Schema)
      modifies storage`log
      ensures IsStage(old(storage.log), storage.log, f)
      ensures storage.log == old(storage.log) + [Call(Op.ReadSchema, f)]
      ensures f.Works? ==> record == storage.State().Record()
    {
      var found;
      f, found := storage.GetSchema();
      record := if found.Some? then found.value else Schema(BASELINE_STORAGE_VERSION, None, []);
    }

    method GetVersion() returns (f: Fate, version: int)
      modifies storage`log
      ensures IsStage(old(storage.log), storage.log, f)
      ensures storage.log == old(storage.log) + [Call(Op.ReadSchema, f)]
      ensures f.Works? ==> version == storage.State().Version()
    {
      var record;
      f, record := ReadSchema();
      version := record.version;
    }

    method GetPendingVersion() returns (f: Fate, pending: Option<int>)
      modifies storage`log
      ensures IsStage(old(storage.log), storage.log, f)
      ensures storage.log == old(storage.log) + [Call(Op.ReadSchema, f)]
      ensures f.Works? ==> pending == storage.State().Pending()
    {
      var record;
      f, record := ReadSchema();
      pending := record.pending;
    }

    method GetRollbackFailure() returns (f: Fate, failures: seq<string>)
      modifies storage`log
      ensures IsStage(old(storage.log), storage.log, f)
      ensures storage.log == old(storage.log) + [Call(Op.ReadSchema, f)]
      ensures f.Works? ==> failures == storage.State().Record().rollbackFailure
    {
      var record;
      f, record := ReadSchema();
      failures := record.rollbackFailure;
    }

    method SaveVersion(version: int) returns (f: Fate)
      modifies storage`schema, storage`log
      ensures IsStage(old(storage.log), storage.log, f)
      ensures storage.State() == if f.Works? then old(storage.State()).SaveVersion(version) else old(storage.State())
    {
      ghost var before := storage.log;
      var record;
      f, record := ReadSchema();
      if f.Works? {
        ghost var was := storage.log;
        f := storage.PutSchema(record.(version := version, pending := None));
        StagesJoin(before, was, storage.log, f);
      }
    }

    method MarkPendingMigration(version: int) returns (f: Fate)
      modifies storage`schema, storage`log
      ensures IsStage(old(storage.log), storage.log, f)
      ensures f.Works? <==> Call(WriteSchema, Works) in Since(old(storage.log), storage.log)
      ensures storage.State() == if f.Works? then old(storage.State()).MarkPending(version) else old(storage.State())
    {
      ghost var before := storage.log;
      var record;
      f, record := ReadSchema();
      if f.Works? {
        ghost var was := storage.log;
        f := storage.PutSchema(record.(pending := Some(version)));
        StagesJoin(before, was, storage.log, f);
        SinceJoins(before, was, storage.log);
        assert Since(was, storage.log) == [Call(WriteSchema, f)];
      }
    }

    method ClearPendingMigration() returns (f: Fate)
      modifies storage`schema, storage`log
      ensures IsStage(old(storage.log), storage.log, f)
      ensures storage.State() == if f.Works? then old(storage.State()).ClearPending() else old(storage.State())
    {
      ghost var before := storage.log;
      var record;
      f, record := ReadSchema();
      if f.Works? {
        ghost var was := storage.log;
        f := storage.PutSchema(record.(pending := None));
        StagesJoin(before, was, storage.log, f);
      }
    }

    method MarkRollbackFailure(failures: seq<string>) returns (f: Fate)
      modifies storage`schema, storage`log
      ensures IsStage(old(storage.log), storage.log, f)
      ensures storage.State() == if f.Works? then old(storage.State()).MarkRollbackFailure(failures) else old(storage.State())
    {
      ghost var before := storage.log;
      var record;
      f, record := ReadSchema();
      if f.Works? {
        ghost var was := storage.log;
        f := storage.PutSchema(record.(rollbackFailure := failures));
        StagesJoin(before, was, storage.log, f);
      }
    }
  }

  // ---- What the calls of a rollback leave ----

  /** How the calls that restore one table end, as far as they are made. */
  datatype TableFate = TableFate(check: Fate, create: Fate, clear: Fate, insert: Fate) {
    predicate Crashes() { check.Crashes? || create.Crashes? || clear.Crashes? || insert.Crashes? }
  }

  /** How the calls of one rollback end; those on tables not named were not made. */
  datatype Calls = Calls(listing: Fate, drops: map<string, Fate>, restores: map<string, TableFate>, closing: Fate) {
    predicate Crashes() {
      listing.Crashes? || (exists n :: n in drops && drops[n].Crashes?) || (exists n :: n in restores && restores[n].Crashes())
    }

    /** Every call was made, and none of them cut the rollback short. */
    predicate Complete(t: Tables, b: Backup) {
      listing.Works? && drops.Keys == t.Keys - b.tables && restores.Keys == b.records.Keys && !Crashes()
    }
  }

  /** One table after the calls that restore it, and how they end. */
  function RestoredTable(found: Option<Table>, records: Table, f: TableFate): (Option<Table>, Fate) {
    if !f.check.Works? then (found, f.check)
    else if found.None? && !f.create.Works? then (None, f.create)
    else if !f.clear.Works? then (if found.None? then Some(map[]) else found, f.clear)
    else if !f.insert.Works? then (Some(map[]), f.insert)
    else (Some(records), Works)
  }

  function LeftAt(t: Tables, b: Backup, calls: Calls, name: string): Option<Table> {
    if name in b.records then
      if name in calls.restores then RestoredTable(At(t, name), b.records[name], calls.restores[name]).0 else At(t, name)
    else if name !in b.tables && name in calls.drops && calls.drops[name].Works? then None
    else At(t, name)
  }

  /** The calls leave these tables. */
  ghost predicate LeavesBy(t: Tables, b: Backup, calls: Calls, left: Tables) {
    forall name :: At(left, name) == LeftAt(t, b, calls, name)
  }

  /** The backup of these tables only. */
  function Part(b: Backup, names: set<string>): Backup {
    Backup(map n | n in names * b.records.Keys :: b.records[n], b.tables)
  }

  lemma DroppedLeaves(t: Tables, b: Backup, calls: Calls, left: Tables)
    requires LeavesBy(t, Backup(map[], b.tables), calls, left) && calls.restores == map[] && b.records.Keys <= b.tables
    ensures LeavesBy(t, b, calls, left)
  {
    forall n ensures At(left, n) == LeftAt(t, b, calls, n) {
      assert At(left, n) == LeftAt(t, Backup(map[], b.tables), calls, n);
    }
  }

  lemma CutIsLast(made: seq<Call>)
    requires CrashesAtEnd(made)
    ensures made != [] && RollbackEndsAs(made, RollbackOpen)
  {}

  lemma TriedStays(made: seq<Call>, more: seq<Call>, b: Backup, tables: Tables)
    requires TriedAll(made, b, tables)
    ensures TriedAll(made + more, b, tables)
  {
    forall n ensures ThrewOn(made, n) || ThrewOn(more, n) ==> ThrewOn(made + more, n) { ThrewStays(made, more, n); }
    ListingThrewStays(made, more);
  }

  /** A stage, and where it fails if it does. */
  lemma StageEnds(made: seq<Call>, f: Fate) returns (cause: nat)
    requires StageOf(made, f)
    ensures cause == (if f.Works? then |made| else |made| - 1) && AllWork(made[..cause])
    ensures cause < |made| ==> made[cause].fate == f
    ensures StopsWhenCut(made) && (CrashesAtEnd(made) <==> f.Crashes?)
  {
    cause := if f.Works? then |made| else |made| - 1;
    assert forall i :: 0 <= i < |made| - 1 ==> made[i] == made[..|made| - 1][i];
  }

  lemma NextStageEnds(log: seq<Call>, was: seq<Call>, now: seq<Call>, f: Fate) returns (cause: nat)
    requires log <= was && IsStage(log, was, Works) && IsStage(was, now, f)
    ensures IsStage(log, now, f) && Since(log, now) == Since(log, was) + Since(was, now)
    ensures cause == (if f.Works? then |Since(log, now)| else |Since(log, now)| - 1) && AllWork(Since(log, now)[..cause])
    ensures var mark := Call(WriteSchema, Works);
            && (mark in Since(log, was) ==> mark in Since(log, now)[..cause])
            && (mark in Since(log, now)[..cause] ==> mark in Since(log, was) || mark in Since(was, now))
    ensures cause < |Since(log, now)| ==> Since(log, now)[cause].fate == f
    ensures StopsWhenCut(Since(log, now)) && (CrashesAtEnd(Since(log, now)) <==> f.Crashes?)
  {
    hide StageOf, AllWork, StopsWhenCut, CrashesAtEnd;
    StagesJoin(log, was, now, f);
    SinceJoins(log, was, now);
    cause := StageEnds(Since(log, now), f);
    StageIsCalls(Since(was, now), f);
    assert Since(log, was) <= Since(log, now)[..cause];
    assert forall c :: c in Since(log, now)[..cause] ==> c in Since(log, now);
  }

  lemma StageIsCalls(made: seq<Call>, f: Fate)
    requires StageOf(made, f)
    ensures made != []
  {}

  /** A rollback behind the call that threw. */
  lemma RollbackFollows(log: seq<Call>, was: seq<Call>, now: seq<Call>, cause: nat, end: StepEnd, cut: bool)
    requires log <= was < now && cause == |Since(log, was)| - 1 && AllWork(Since(log, was)[..cause])
    requires Since(log, was)[cause].fate.Throws? && Call(WriteSchema, Works) in Since(log, was)[..cause]
    requires StopsWhenCut(Since(was, now)) && (cut <==> CrashesAtEnd(Since(was, now))) && RollbackEndsAs(Since(was, now), end)
    ensures log <= now && Since(log, now)[cause + 1..] == Since(was, now)
    ensures EndsAs(Since(log, now), cause, end) && StopsWhenCut(Since(log, now)) && (cut <==> CrashesAtEnd(Since(log, now)))
  {
    hide RollbackEndsAs, StopsWhenCut, CrashesAtEnd, AllWork;
    SinceJoins(log, was, now);
    var made, first, back := Since(log, now), Since(log, was), Since(was, now);
    RollbackCalls(back, end);
    assert first == first[..cause] + [first[cause]];
    assert made[..cause] == first[..cause] && made[cause] == first[cause] && made[cause + 1..] == back;
    ThrownIsNoCut(first, cause);
    CutStaysLast(first, back);
  }

  lemma ThrownIsNoCut(made: seq<Call>, cause: nat)
    requires cause == |made| - 1 && AllWork(made[..cause]) && made[cause].fate.Throws?
    ensures forall i :: 0 <= i < |made| ==> !made[i].fate.Crashes?
  {
    assert forall i :: 0 <= i < cause ==> made[i] == made[..cause][i];
  }

  lemma CutStaysLast(made: seq<Call>, more: seq<Call>)
    requires more != [] && forall i :: 0 <= i < |made| ==> !made[i].fate.Crashes?
    ensures StopsWhenCut(more) ==> StopsWhenCut(made + more)
    ensures CrashesAtEnd(made + more) <==> CrashesAtEnd(more)
  {
    assert forall i :: 0 <= i < |more| ==> (made + more)[|made| + i] == more[i];
    assert forall i :: 0 <= i < |made| ==> (made + more)[i] == made[i];
  }

  lemma RollbackCalls(made: seq<Call>, end: StepEnd)
    requires RollbackEndsAs(made, end)
    ensures made != []
  {}

  /** The step's calls, but for a last one that may only word its error, end it so. */
  ghost predicate StepsAs(made: seq<Call>, end: StepEnd) {
    exists n: nat, cause: nat :: n <= |made| <= n + 1 && EndsAs(made[..n], cause, end)
  }

  lemma EndsWithAll(made: seq<Call>, cause: nat, end: StepEnd)
    requires EndsAs(made, cause, end)
    ensures end.Applied? <==> AllWork(made)
    ensures StepsAs(made, end)
  {
    assert made[..|made|] == made;
    if cause < |made| { assert !made[cause].fate.Works?; }
  }

  lemma StageWorksIff(made: seq<Call>, f: Fate)
    requires StageOf(made, f)
    ensures AllWork(made) <==> f.Works?
  {
    assert forall i :: 0 <= i < |made| - 1 ==> made[i] == made[..|made| - 1][i];
  }

  lemma MadeFollow(made: seq<Call>, more: seq<Call>)
    requires AllWork(made) && StopsWhenCut(more)
    ensures StopsWhenCut(made + more) && (AllWork(made + more) <==> AllWork(more))
    ensures CrashesAtEnd(made + more) <==> CrashesAtEnd(more)
    ensures AllWork(more) ==> !CrashesAtEnd(more)
  {
    assert forall i :: 0 <= i < |more| ==> (made + more)[|made| + i] == more[i];
    assert forall i :: 0 <= i < |made| ==> (made + more)[i] == made[i];
  }

  lemma ReadFollows(before: seq<Call>, was: seq<Call>, read: Call)
    requires IsStage(before, was, Works) && Call(WriteSchema, Works) !in Since(before, was) && !read.op.WriteSchema?
    ensures IsStage(before, was + [read], read.fate) && Call(WriteSchema, Works) !in Since(before, was + [read])
  {
    assert Since(was, was + [read]) == [read];
    StagesJoin(before, was, was + [read], read.fate);
    SinceJoins(before, was, was + [read]);
  }

  lemma BackupGrows(t: Tables, managed: seq<string>, names: set<string>, i: nat)
    requires names == t.Keys && i <= |managed|
    ensures BackupOf(t, managed[..0]) == Backup(map[], names)
    ensures i < |managed| ==>
              var b := BackupOf(t, managed[..i]);
              BackupOf(t, managed[..i + 1]) == if managed[i] in names then b.(records := b.records[managed[i] := t[managed[i]]]) else b
  {}

  lemma CallFollows(before: seq<Call>, was: seq<Call>, call: Call, name: string)
    requires (before == was || IsStage(before, was, Works)) && Touches(call.op, name)
    ensures IsStage(before, was + [call], call.fate) && before < was + [call]
    ensures call.fate.Throws? ==> ThrewOn(Since(before, was + [call]), name)
  {
    assert Since(was, was + [call]) == [call];
    if before != was { StagesJoin(before, was, was + [call], call.fate); }
    LastThrew(before, was + [call], name);
  }

  lemma UntouchedEnds(made: seq<Call>, cause: nat)
    requires cause == |made| - 1 && AllWork(made[..cause]) && !made[cause].fate.Works? && Call(WriteSchema, Works) !in made[..cause]
    ensures EndsAs(made, cause, Untouched)
  {}

  lemma AppliedEnds(made: seq<Call>, cause: nat)
    requires cause == |made| && AllWork(made[..cause])
    ensures EndsAs(made, cause, Applied)
  {}

  lemma StoppedEnds(made: seq<Call>, cause: nat)
    requires cause == |made| - 1 && AllWork(made[..cause]) && made[cause].fate.Crashes? && Call(WriteSchema, Works) in made[..cause]
    ensures EndsAs(made, cause, Stopped)
  {}

  lemma ClosingLeaves(t: Tables, b: Backup, calls: Calls, f: Fate, left: Tables)
    requires LeavesBy(t, b, calls, left)
    ensures LeavesBy(t, b, calls.(closing := f), left)
    ensures calls.(closing := f).Crashes() == calls.Crashes() && calls.(closing := f).Complete(t, b) == calls.Complete(t, b)
  {
    forall n ensures At(left, n) == LeftAt(t, b, calls.(closing := f), n) {
      assert At(left, n) == LeftAt(t, b, calls, n);
    }
  }

  lemma BackupIsOfTables(t: Tables, managed: seq<string>)
    ensures BackupOf(t, managed).records.Keys <= BackupOf(t, managed).tables
  {}

  lemma LastThrew(before: seq<Call>, after: seq<Call>, name: string)
    requires before < after && Touches(after[|after| - 1].op, name)
    ensures after[|after| - 1].fate.Throws? ==> ThrewOn(Since(before, after), name)
  {
    var made := Since(before, after);
    assert made[|made| - 1] == after[|after| - 1];
  }

  lemma DropIsLogged(made: seq<Call>, name: string, f: Fate, was: Tables, left: Tables, tables: set<string>, rest: set<string>)
    requires left == if f.Works? then was - {name} else was
    requires StopsWhenCut(made) && !CrashesAtEnd(made)
    requires forall n :: n in was && n !in tables && n !in rest + {name} ==> ThrewOn(made, n)
    ensures var made' := made + [Call(Op.DropTable(name), f)];
            && StopsWhenCut(made') && (CrashesAtEnd(made') <==> f.Crashes?) && (AllWork(made') <==> AllWork(made) && f.Works?)
            && (!f.Crashes? ==> forall n :: n in left && n !in tables && n !in rest ==> ThrewOn(made', n))
  {
    var more := [Call(Op.DropTable(name), f)];
    StageFollows(made, more, f);
    if f.Throws? {
      assert more[0].fate.Throws? && Touches(more[0].op, name);
    }
    forall n ensures ThrewOn(made, n) || ThrewOn(more, n) ==> ThrewOn(made + more, n) { ThrewStays(made, more, n); }
  }

  lemma TriesOneMore(made: seq<Call>, stage: seq<Call>, b: Backup, done: set<string>, name: string, was: Tables, left: Tables)
    requires done <= b.records.Keys && name in b.records && b.records.Keys <= b.tables
    requires TriedAll(made, Part(b, done), was)
    requires forall n :: n != name ==> At(left, n) == At(was, n)
    requires At(left, name) == Some(b.records[name]) || ThrewOn(stage, name)
    ensures TriedAll(made + stage, Part(b, done + {name}), left)
  {
    forall n ensures ThrewOn(made, n) || ThrewOn(stage, n) ==> ThrewOn(made + stage, n) { ThrewStays(made, stage, n); }
    ListingThrewStays(made, stage);
    assert forall n :: n in left && n != name ==> At(left, n) == At(was, n) && n in was;
  }

  lemma DropLeaves(t: Tables, b: Backup, calls: Calls, was: Tables, name: string, f: Fate, left: Tables)
    requires LeavesBy(t, b, calls, was) && name !in calls.drops && name !in b.tables && name !in b.records
    requires left == if f.Works? then was - {name} else was
    ensures LeavesBy(t, b, calls.(drops := calls.drops[name := f]), left)
  {
    forall n ensures At(left, n) == LeftAt(t, b, calls.(drops := calls.drops[name := f]), n) {
      assert At(was, n) == LeftAt(t, b, calls, n);
    }
  }

  lemma RestoreLeaves(t: Tables, b: Backup, calls: Calls, was: Tables, name: string, f: TableFate, left: Tables)
    requires LeavesBy(t, b, calls, was) && name !in calls.restores && name in b.records
    requires At(left, name) == RestoredTable(At(was, name), b.records[name], f).0
    requires forall n :: n != name ==> At(left, n) == At(was, n)
    ensures LeavesBy(t, b, calls.(restores := calls.restores[name := f]), left)
  {
    forall n ensures At(left, n) == LeftAt(t, b, calls.(restores := calls.restores[name := f]), n) {
      assert At(was, n) == LeftAt(t, b, calls, n);
    }
  }

  lemma LeavesRemnant(t: Tables, b: Backup, calls: Calls, left: Tables)
    requires LeavesBy(t, b, calls, left)
    ensures Remnant(t, b, left)
  {
    forall name ensures RemnantAt(t, b, left, name) {
      assert At(left, name) == LeftAt(t, b, calls, name);
    }
  }

  /** The calls that leave this remnant: each fails by throwing where it must. */
  function CallsFor(t: Tables, b: Backup, left: Tables): Calls {
    Calls(Works,
          map name | name in t.Keys - b.tables :: if name in left then Throws else Works,
          map name | name in b.records ::
            if At(left, name) == At(t, name) then TableFate(Throws, Works, Works, Works)
            else if At(left, name) == Some(map[]) then TableFate(Works, Works, Works, Throws)
            else TableFate(Works, Works, Works, Works),
          Throws)
  }

  /** What a rollback may leave is exactly what some ends of its calls do leave, even
      when none of them cuts it short and only the closing write fails. */
  lemma RemnantsAreLeft(t: Tables, b: Backup, left: Tables)
    requires b.records.Keys <= b.tables
    ensures Remnant(t, b, left) <==> exists calls: Calls :: calls.Complete(t, b) && !calls.closing.Works? && LeavesBy(t, b, calls, left)
  {
    if Remnant(t, b, left) {
      var calls := CallsFor(t, b, left);
      forall name ensures At(left, name) == LeftAt(t, b, calls, name) {
        assert RemnantAt(t, b, left, name);
      }
      assert calls.Complete(t, b) && !calls.closing.Works? && LeavesBy(t, b, calls, left);
    }
    if calls: Calls :| LeavesBy(t, b, calls, left) { LeavesRemnant(t, b, calls, left); }
  }

  lemma CompleteRemnantIsRestored(t: Tables, b: Backup, left: Tables)
    requires b.records.Keys <= b.tables && Remnant(t, b, left)
    requires forall n :: n in left ==> n in b.tables
    requires forall n :: n in b.records ==> At(left, n) == Some(b.records[n])
    ensures left == Restored(t, b)
  {
    forall n ensures At(left, n) == At(Restored(t, b), n) {
      assert RemnantAt(t, b, left, n);
    }
    SameTables(left, Restored(t, b));
  }

  lemma MissingUnfolds(versions: seq<int>, from: int, current: int, before: seq<int>)
    requires from <= current
    ensures before + Missing(versions, from, current)
            == (if from in versions then before else before + [from]) + Missing(versions, from + 1, current)
  {
    assert before + ([from] + Missing(versions, from + 1, current)) == before + [from] + Missing(versions, from + 1, current);
    assert [] + Missing(versions, from + 1, current) == Missing(versions, from + 1, current);
  }

  lemma SameTables(t: Tables, u: Tables)
    requires forall n :: At(t, n) == At(u, n)
    ensures t == u
  {
    forall n ensures n in t <==> n in u { assert At(t, n) == At(u, n); }
    forall n | n in t ensures t[n] == u[n] { assert At(t, n) == At(u, n); }
  }

  class StorageMigrationRunner {
    const storage: Storage
    const metadataRepository: StorageMetadataStorageRepository
    const build: Build

    constructor (storage: Storage, metadataRepository: StorageMetadataStorageRepository, build: Build)
      requires metadataRepository.storage == storage
      ensures this.storage == storage && this.metadataRepository == metadataRepository && this.build == build
    {
      this.storage, this.metadataRepository, this.build := storage, metadataRepository, build;
    }

    ghost predicate Valid()
    {
      metadataRepository.storage == storage
    }

    method CreateBackup() returns (f: Fate, backup: Backup)
      modifies storage`log
      ensures IsStage(old(storage.log), storage.log, f) && Call(WriteSchema, Works) !in Since(old(storage.log), storage.log)
      ensures f.Works? ==> backup == BackupOf(storage.tables, build.tables)
    {
      ghost var log := storage.log;
      var names;
      f, names := storage.GetTableNames();
      assert Since(log, storage.log) == [Call(ListTables, f)];
      hide IsStage, Since, BackupOf;
      backup := Backup(map[], names);
      if !f.Works? { return; }
      BackupGrows(storage.tables, build.tables, names, 0);
      for i := 0 to |build.tables|
        invariant f.Works? && backup == BackupOf(storage.tables, build.tables[..i])
        invariant IsStage(old(storage.log), storage.log, f) && Call(WriteSchema, Works) !in Since(old(storage.log), storage.log)
      {
        var name := build.tables[i];
        BackupGrows(storage.tables, build.tables, names, i);
        if name in names {
          var records;
          ghost var was := storage.log;
          f, records := storage.GetAll(name);
          ReadFollows(old(storage.log), was, Call(ReadTable(name), f));
          if !f.Works? { return; }
          backup := backup.(records := backup.records[name := records]);
        }
      }
      assert build.tables[..|build.tables|] == build.tables;
    }

    /** Stays with the tables before it, less those its calls drop; without a failure,
        less all that the migration created. */
    method DropTablesCreatedByMigration(backup: Backup) returns (crashed: bool, failures: seq<string>, ghost calls: Calls)
      modifies storage`tables, storage`log
      ensures LeavesBy(old(storage.tables), Backup(map[], backup.tables), calls, storage.tables) && calls.restores == map[]
      ensures !crashed && failures == [] ==> forall n :: n in storage.tables ==> n in backup.tables
      ensures crashed ==> calls.Crashes()
      ensures old(storage.log) <= storage.log
      ensures var made := Since(old(storage.log), storage.log);
              && StopsWhenCut(made) && (crashed <==> CrashesAtEnd(made)) && (!crashed ==> (failures == [] <==> AllWork(made)))
              && (!crashed ==> TriedAll(made, Backup(map[], backup.tables), storage.tables))
    {
      crashed, failures := false, [];
      var f, current := storage.GetTableNames();
      calls := Calls(f, map[], map[], Works);
      ghost var made := [Call(ListTables, f)];
      if f.Throws? {
        assert made[0] == Call(ListTables, Throws);
        return false, ["reading the table list"], calls;
      }
      if f.Crashes? { return true, [], calls; }
      var rest := current - backup.tables;
      while rest != {}
        invariant rest <= old(storage.tables).Keys - backup.tables && rest !! calls.drops.Keys && calls.restores == map[]
        invariant LeavesBy(old(storage.tables), Backup(map[], backup.tables), calls, storage.tables)
        invariant storage.log == old(storage.log) + made
        invariant StopsWhenCut(made) && !CrashesAtEnd(made) && (failures == [] <==> AllWork(made))
        invariant forall n :: n in storage.tables && n !in backup.tables && n !in rest ==> ThrewOn(made, n)
        invariant AllWork(made) ==> forall n :: n in storage.tables ==> n in backup.tables || n in rest
      {
        var name :| name in rest;
        rest := rest - {name};
        ghost var was, before, madeBefore := storage.tables, calls, made;
        f := storage.DropTable(name);
        calls := calls.(drops := calls.drops[name := f]);
        made := made + [Call(Op.DropTable(name), f)];
        DropLeaves(old(storage.tables), Backup(map[], backup.tables), before, was, name, f, storage.tables);
        DropIsLogged(madeBefore, name, f, was, storage.tables, backup.tables, rest);
        if f.Crashes? {
          assert calls.drops[name].Crashes?;
          return true, failures, calls;
        }
        if f.Throws? { failures := failures + ["dropping " + name]; }
      }
    }

    method RestoreTable(name: string, records: Table) returns (f: Fate, ghost fates: TableFate)
      modifies storage`tables, storage`log
      ensures forall n :: n != name ==> At(storage.tables, n) == At(old(storage.tables), n)
      ensures RestoredTable(At(old(storage.tables), name), records, fates) == (At(storage.tables, name), f)
      ensures f.Works? ==> At(storage.tables, name) == Some(records)
      ensures fates.Crashes() <==> f.Crashes?
      ensures IsStage(old(storage.log), storage.log, f)
      ensures f.Throws? ==> ThrewOn(Since(old(storage.log), storage.log), name)
    {
      hide IsStage, Since, ThrewOn;
      ghost var before := storage.log;
      var found;
      fates := TableFate(Works, Works, Works, Works);
      f, found := storage.TableExists(name);
      fates := fates.(check := f);
      CallFollows(before, before, Call(CheckTable(name), f), name);
      if !f.Works? { return; }
      ghost var was := storage.log;
      if !found {
        f := storage.CreateTable(name);
        fates := fates.(create := f);
        CallFollows(before, was, Call(Op.CreateTable(name), f), name);
        if !f.Works? { return; }
      }
      was := storage.log;
      f := storage.ClearTable(name);
      fates := fates.(clear := f);
      CallFollows(before, was, Call(Op.ClearTable(name), f), name);
      if !f.Works? { return; }
      was := storage.log;
      f := storage.InsertMany(name, records);
      fates := fates.(insert := f);
      CallFollows(before, was, Call(InsertInto(name), f), name);
      assert map[] + records == records;
    }

    /** Leaves what its calls leave; without a failure, all is restored. */
    method RestoreBackup(backup: Backup) returns (crashed: bool, failures: seq<string>, ghost calls: Calls)
      requires backup.records.Keys <= backup.tables
      modifies storage`tables, storage`log
      ensures LeavesBy(old(storage.tables), backup, calls, storage.tables)
      ensures !crashed && failures == [] ==> storage.tables == Restored(old(storage.tables), backup)
      ensures calls.Complete(old(storage.tables), backup) ==> !crashed
      ensures old(storage.log) <= storage.log
      ensures var made := Since(old(storage.log), storage.log);
              && StopsWhenCut(made) && (crashed <==> CrashesAtEnd(made)) && (!crashed ==> (failures == [] <==> AllWork(made)))
              && (!crashed ==> TriedAll(made, backup, storage.tables))
    {
      hide LeavesBy, TriedAll, RestoredTable, StageOf, StopsWhenCut, CrashesAtEnd, AllWork, ThrewOn, Touches;
      crashed, failures, calls := DropTablesCreatedByMigration(backup);
      DroppedLeaves(old(storage.tables), backup, calls, storage.tables);
      if crashed { return; }
      ghost var made := Since(old(storage.log), storage.log);
      assert Part(backup, {}) == Backup(map[], backup.tables);
      assert backup.records.Keys - backup.records.Keys == {};
      var rest := backup.records.Keys;
      while rest != {}
        invariant rest <= backup.records.Keys && calls.restores.Keys == backup.records.Keys - rest
        invariant LeavesBy(old(storage.tables), backup, calls, storage.tables)
        invariant old(storage.log) <= storage.log && made == Since(old(storage.log), storage.log)
        invariant StopsWhenCut(made) && !CrashesAtEnd(made) && (failures == [] <==> AllWork(made))
        invariant TriedAll(made, Part(backup, backup.records.Keys - rest), storage.tables)
        invariant failures == [] ==> forall n :: n in storage.tables ==> n in backup.tables
        invariant failures == [] ==> forall n :: n in backup.records.Keys - rest ==> At(storage.tables, n) == Some(backup.records[n])
      {
        var name :| name in rest;
        ghost var was, before, log := storage.tables, calls, storage.log;
        var f, fates := RestoreTable(name, backup.records[name]);
        calls := calls.(restores := calls.restores[name := fates]);
        RestoreLeaves(old(storage.tables), backup, before, was, name, fates, storage.tables);
        ghost var stage := Since(log, storage.log);
        SinceJoins(old(storage.log), log, storage.log);
        StageFollows(made, stage, f);
        assert forall n :: n in storage.tables ==> At(storage.tables, n) == At(was, n) || n == name;
        if f.Crashes? {
          assert calls.restores[name].Crashes();
          return true, failures, calls;
        }
        TriesOneMore(made, stage, backup, backup.records.Keys - rest, name, was, storage.tables);
        assert backup.records.Keys - rest + {name} == backup.records.Keys - (rest - {name});
        made := made + stage;
        rest := rest - {name};
        if f.Throws? { failures := failures + ["restoring " + name]; }
      }
      assert Part(backup, backup.records.Keys - rest) == backup by { assert backup.records.Keys - rest == backup.records.Keys; }
      LeavesRemnant(old(storage.tables), backup, calls, storage.tables);
      if failures == [] { CompleteRemnantIsRestored(old(storage.tables), backup, storage.tables); }
    }

    /** Roll back, then clear the mark or record the failures; always fails. */
    method RevertMigration(m: Migration, backup: Backup) returns (o: Outcome, ghost end: StepEnd, ghost calls: Calls)
      requires Valid() && backup.records.Keys <= backup.tables
      modifies storage
      ensures !end.Untouched? && !end.Applied? && !end.Stopped?
      ensures LeavesBy(old(storage.tables), backup, calls, storage.tables)
      ensures calls.Complete(old(storage.tables), backup) && !calls.closing.Works? ==> end.RollbackOpen?
      ensures old(storage.log) < storage.log
      ensures var made := Since(old(storage.log), storage.log);
              && StopsWhenCut(made) && (o == Cut <==> CrashesAtEnd(made)) && RollbackEndsAs(made, end)
              && (end.RolledBack? || end.RollbackFailed? ==> TriedAll(made, backup, storage.tables))
      ensures match end
        case RolledBack =>
          o == Threw(StorageFault)
          && storage.State() == old(storage.State()).(tables := Restored(old(storage.tables), backup)).ClearPending()
        case RollbackFailed(failures) =>
          o == Threw(RollbackError(m.version, failures)) && failures != []
          && storage.State() == Db(storage.tables, old(storage.State()).MarkRollbackFailure(failures).schema)
          && Remnant(old(storage.tables), backup, storage.tables)
        case _ =>
          (o == Cut || o == Threw(StorageFault)) && storage.schema == old(storage.schema) && Remnant(old(storage.tables), backup, storage.tables)
    {
      hide LeavesBy, TriedAll, StageOf, StopsWhenCut, CrashesAtEnd, AllWork, Remnant;
      var crashed, failures;
      crashed, failures, calls := RestoreBackup(backup);
      LeavesRemnant(old(storage.tables), backup, calls, storage.tables);
      ghost var made, was := Since(old(storage.log), storage.log), storage.log;
      if crashed {
        CutIsLast(made);
        return Cut, RollbackOpen, calls;
      }
      var f;
      if failures != [] {
        f := metadataRepository.MarkRollbackFailure(failures);
        o, end := Threw(RollbackError(m.version, failures)), RollbackFailed(failures);
      } else {
        f := metadataRepository.ClearPendingMigration();
        o, end := Threw(StorageFault), RolledBack;
      }
      ClosingLeaves(old(storage.tables), backup, calls, f, storage.tables);
      calls := calls.(closing := f);
      StageIsCalls(Since(was, storage.log), f);
      SinceJoins(old(storage.log), was, storage.log);
      StageFollows(made, Since(was, storage.log), f);
      TriedStays(made, Since(was, storage.log), backup, storage.tables);
      if !f.Works? { return Failing(f, StorageFault), RollbackOpen, calls; }
    }

    /** One step of the chain, ending in one of the ways the specification lists. */
    method RunMigrationStep(m: Migration) returns (o: Outcome, ghost end: StepEnd, ghost cause: nat)
      requires Valid()
      modifies storage
      ensures StepMayEnd(m, build.tables, old(storage.State()), end, storage.State())
      ensures o.Done? <==> end.Applied?
      ensures end.RollbackFailed? ==> o == Threw(RollbackError(m.version, end.failures))
      ensures o.Threw? && !end.RollbackFailed? ==> o.error == StorageFault
      ensures old(storage.log) <= storage.log
      ensures var made := Since(old(storage.log), storage.log);
              && EndsAs(made, cause, end) && StopsWhenCut(made) && (o == Cut <==> CrashesAtEnd(made))
              && (end.RollbackFailed? ==>
                    TriedAll(made[cause + 1..], BackupOf(old(storage.tables), build.tables), storage.tables))
    {
      hide StopsWhenCut, CrashesAtEnd, AllWork, TriedAll, RollbackEndsAs, StageOf, BackupOf, EndsAs, Since;
      ghost var db, log := storage.State(), storage.log;
      ghost var made := [];
      var f, backup := CreateBackup();
      made := Since(log, storage.log);
      cause := StageEnds(made, f);
      if !f.Works? {
        assert EndsStep(m, build.tables, db, 0, Untouched, storage.State());
        UntouchedEnds(made, cause);
        return Failing(f, StorageFault), Untouched, cause;
      }
      ghost var was := storage.log;
      f := metadataRepository.MarkPendingMigration(m.version);
      cause := NextStageEnds(log, was, storage.log, f);
      made := Since(log, storage.log);
      if !f.Works? {
        assert EndsStep(m, build.tables, db, 0, Untouched, storage.State());
        UntouchedEnds(made, cause);
        return Failing(f, StorageFault), Untouched, cause;
      }
      ghost var k;
      was := storage.log;
      f, k := storage.Run(m);
      cause := NextStageEnds(log, was, storage.log, f);
      made := Since(log, storage.log);
      if f.Works? {
        was := storage.log;
        f := metadataRepository.SaveVersion(m.version);
        cause := NextStageEnds(log, was, storage.log, f);
        made := Since(log, storage.log);
        if f.Works? {
          assert EndsStep(m, build.tables, db, k, Applied, storage.State());
          AppliedEnds(made, cause);
          return Done(m.version), Applied, cause;
        }
      }
      if f.Crashes? {
        assert EndsStep(m, build.tables, db, k, Stopped, storage.State());
        StoppedEnds(made, cause);
        return Cut, Stopped, cause;
      }
      was := storage.log;
      BackupIsOfTables(db.tables, build.tables);
      ghost var calls;
      o, end, calls := RevertMigration(m, backup);
      RollbackFollows(log, was, storage.log, cause, end, o == Cut);
      assert EndsStep(m, build.tables, db, k, end, storage.State());
    }

    /** Wraps what a step throws, reading the version for the message. */
    method ApplyMigration(m: Migration) returns (o: Outcome, ghost end: StepEnd)
      requires Valid()
      modifies storage
      ensures StepMayEnd(m, build.tables, old(storage.State()), end, storage.State())
      ensures o.Done? <==> end.Applied?
      ensures end.RollbackFailed? ==> o == Threw(RollbackError(m.version, end.failures))
      ensures o.Threw? && !end.RollbackFailed? ==> o.error == StorageFault || o.error == MigrationFailed(m.version)
      ensures old(storage.log) <= storage.log
      ensures var made := Since(old(storage.log), storage.log);
              && StopsWhenCut(made) && (o == Cut <==> CrashesAtEnd(made)) && (o.Done? <==> AllWork(made))
              && StepsAs(made, end)
    {
      hide StopsWhenCut, CrashesAtEnd, AllWork, TriedAll, RollbackEndsAs, StageOf, EndsAs, StepMayEnd;
      ghost var log, cause := storage.log, 0;
      o, end, cause := RunMigrationStep(m);
      ghost var made := Since(log, storage.log);
      EndsWithAll(made, cause, end);
      assert made[..|made|] == made;
      if o.Threw? && !o.error.RollbackError? {
        ghost var was := storage.log;
        var f, _ := metadataRepository.GetVersion();
        o := if f.Works? then Threw(MigrationFailed(m.version)) else Failing(f, StorageFault);
        SinceJoins(log, was, storage.log);
        StageFollows(made, Since(was, storage.log), f);
        ghost var all := Since(log, storage.log);
        assert all[..|made|] == made && |all| == |made| + 1;
        assert EndsAs(all[..|made|], cause, end);
      }
    }

    method GetMissing(from: int) returns (missing: seq<int>)
      ensures missing == Missing(Versions(build.migrations), from, build.current)
    {
      var declared := Versions(build.migrations);
      missing := [];
      var version := from;
      while version <= build.current
        invariant Missing(declared, from, build.current) == missing + Missing(declared, version, build.current)
        decreases build.current - version
      {
        var declaredHere := version in declared;
        MissingUnfolds(declared, version, build.current, missing);
        if !declaredHere { missing := missing + [version]; }
        version := version + 1;
      }
    }

    method AssertInterruptedMigrationIsResumable() returns (o: Outcome, ghost f: Fate)
      requires Valid()
      modifies storage`log
      ensures IsStage(old(storage.log), storage.log, f) && (f.Crashes? <==> o == Cut)
      ensures f.Works? <==> o.Done? || (o.Threw? && o.error != StorageFault)
      ensures o.Done? ==> Interruptions(build, storage.State()).None?
      ensures o.Threw? && o.error != StorageFault ==> Interruptions(build, storage.State()) == Some(o.error)
    {
      hide StageOf, Find;
      ghost var log := storage.log;
      var fate, pending := metadataRepository.GetPendingVersion();
      if !fate.Works? { return Failing(fate, StorageFault), fate; }
      if pending.None? { return Done(0), Works; }
      ghost var was := storage.log;
      var failures;
      fate, failures := metadataRepository.GetRollbackFailure();
      StagesJoin(log, was, storage.log, fate);
      if !fate.Works? { return Failing(fate, StorageFault), fate; }
      if failures != [] { return Threw(Interrupted(pending.value, RollbackIncomplete)), Works; }
      var m := Find(build.migrations, pending.value);
      if m.None? { return Threw(Interrupted(pending.value, MigrationNotFound)), Works; }
      if !m.value.resumable { return Threw(Interrupted(pending.value, MigrationNotResumable)), Works; }
      return Done(0), Works;
    }

    /** Writes nothing, and refuses exactly the incompatible storages; fails only when
        a read does. */
    method AssertCompatible() returns (o: Outcome, ghost f: Fate)
      requires Valid()
      modifies storage`log
      ensures IsStage(old(storage.log), storage.log, f) && (f.Crashes? <==> o == Cut)
      ensures f.Works? <==> o.Done? || (o.Threw? && o.error != StorageFault)
      ensures o.Done? ==> Incompatible(build, storage.State()).None?
      ensures o.Threw? && o.error != StorageFault ==> Incompatible(build, storage.State()) == Some(o.error)
    {
      hide StageOf;
      ghost var log := storage.log;
      var fate, stored := metadataRepository.GetVersion();
      if !fate.Works? { return Failing(fate, StorageFault), fate; }
      if stored > build.current { return Threw(VersionDowngrade(stored, build.current)), Works; }
      var versions := Versions(build.migrations);
      if Duplicated(versions) != [] { return Threw(ChainError(DuplicateVersion, Duplicated(versions))), Works; }
      if OutOfRange(versions, build.current) != [] {
        return Threw(ChainError(VersionOutOfRange, OutOfRange(versions, build.current))), Works;
      }
      var missing := GetMissing(stored + 1);
      if missing != [] { return Threw(ChainError(MissingMigration, missing)), Works; }
      ghost var was := storage.log;
      o, f := AssertInterruptedMigrationIsResumable();
      StagesJoin(log, was, storage.log, f);
    }

    /** The whole start: it succeeds exactly if the storage is compatible and every
        call works, refuses exactly if it is not and they do, and is cut exactly when
        its last call is. */
    method Run() returns (o: Outcome, ghost end: RunEnd)
      requires Valid()
      modifies storage
      ensures MayRun(build, old(storage.State()), end, storage.State())
      ensures o.Done? <==> end.Migrated?
      ensures o.Done? ==> o.version == build.current
      ensures old(storage.log) <= storage.log
      ensures var made := Since(old(storage.log), storage.log);
              && StopsWhenCut(made) && (o == Cut <==> CrashesAtEnd(made))
              && (o.Done? <==> AllWork(made) && Incompatible(build, old(storage.State())).None?)
              && (end.Refused? <==> AllWork(made) && Incompatible(build, old(storage.State())).Some?)
    {
      hide StopsWhenCut, CrashesAtEnd, AllWork, StageOf, StepsAs, StepMayEnd, Incompatible, PendingMigrations;
      ghost var db, log, f := storage.State(), storage.log, Works;
      o, f := AssertCompatible();
      ghost var _ := StageEnds(Since(log, storage.log), f);
      StageWorksIff(Since(log, storage.log), f);
      if !o.Done? {
        return o, if o.Threw? && o.error != StorageFault then Refused(o.error) else Faulted;
      }
      ghost var was := storage.log;
      var fate, stored := metadataRepository.GetVersion();
      StagesJoin(log, was, storage.log, fate);
      ghost var _ := StageEnds(Since(log, storage.log), fate);
      StageWorksIff(Since(log, storage.log), fate);
      if !fate.Works? { return Failing(fate, StorageFault), Faulted; }
      var todo := PendingMigrations(build.migrations, stored);
      for i := 0 to |todo|
        invariant log <= storage.log && StopsWhenCut(Since(log, storage.log)) && !CrashesAtEnd(Since(log, storage.log))
        invariant AllWork(Since(log, storage.log))
        invariant forall e, db' :: MayApply(build.tables, build.current, todo[i..], storage.State(), e, db')
                                   ==> MayApply(build.tables, build.current, todo, db, e, db')
      {
        ghost var before := storage.State();
        was := storage.log;
        ghost var at;
        o, at := ApplyMigration(todo[i]);
        SinceJoins(log, was, storage.log);
        MadeFollow(Since(log, was), Since(was, storage.log));
        assert todo[i..][0] == todo[i] && todo[i..][1..] == todo[i + 1..];
        if !o.Done? {
          assert MayApply(build.tables, build.current, todo[i..], before, Halted(at), storage.State());
          return o, Halted(at);
        }
      }
      was := storage.log;
      fate := metadataRepository.SaveVersion(build.current);
      SinceJoins(log, was, storage.log);
      StageFollows(Since(log, was), Since(was, storage.log), fate);
      end := if fate.Works? then Migrated else Faulted;
      o := if fate.Works? then Done(build.current) else Failing(fate, StorageFault);
    }
  }
}
