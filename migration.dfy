/** Schema migrations of the question catalog
    (`internal/database/migration.go`). `init` collects the embedded
    migration files; `Migrate` runs, inside one transaction, every migration
    whose name is not yet recorded in the `dp_migrations` table, recording
    each, and commits only if all of it succeeded. The PostgreSQL server is
    given by the rows of that table and the faults it will answer with. */
module Migration {
  import opened Common
  import opened GoErrors

  /** An entry of the embedded `migrations` directory. */
  datatype DirEntry = DirEntry(name: string, regular: bool)

  /** `migrationFile`. */
  datatype MigrationFile = MigrationFile(name: string, content: string)

  function Names(ms: seq<MigrationFile>): (names: seq<string>)
    ensures |names| == |ms| && forall i :: 0 <= i < |ms| ==> names[i] == ms[i].name
  {
    if |ms| == 0 then [] else [ms[0].name] + Names(ms[1..])
  }

  // ---------------------------------------------------------------------------
  // init
  // ---------------------------------------------------------------------------

  /** What `init` collects from a directory listing (given in name order, as
      `embed.FS.ReadDir` lists it): every regular file with its content;
      a file that cannot be read makes `init` panic, reported here as the
      error it panics with. */
  function Load(entries: seq<DirEntry>, readFile: string -> Result<string, GoError>): (r: Result<seq<MigrationFile>, GoError>)
    decreases |entries|
  {
    if |entries| == 0 then Ok([])
    else
      var e := entries[|entries| - 1];
      match Load(entries[..|entries| - 1], readFile)
      case Err(err) => Err(err)
      case Ok(init) =>
        if !e.regular then Ok(init)
        else match readFile(e.name)
          case Err(err) => Err(Wrapped("read migration file", err))
          case Ok(content) => Ok(init + [MigrationFile(e.name, content)])
  }

  /** The names of the regular entries, in listing order. */
  function RegularNames(entries: seq<DirEntry>): seq<string>
    decreases |entries|
  {
    if |entries| == 0 then []
    else if entries[0].regular then [entries[0].name] + RegularNames(entries[1..])
    else RegularNames(entries[1..])
  }

  /** `init`: `listing` is the result of reading the directory. */
  method Init(listing: Result<seq<DirEntry>, GoError>, readFile: string -> Result<string, GoError>)
    returns (available: seq<MigrationFile>, panicked: Option<GoError>)
    ensures listing.Err? ==> panicked == Some(Wrapped("read migrations directory", listing.error))
    ensures listing.Ok? && Load(listing.value, readFile).Err? ==> panicked == Some(Load(listing.value, readFile).error)
    ensures listing.Ok? && Load(listing.value, readFile).Ok? ==> panicked.None? && available == Load(listing.value, readFile).value
  {
    if listing.Err? {
      return [], Some(Wrapped("read migrations directory", listing.error));
    }
    var entries := listing.value;
    available := [];
    for i := 0 to |entries|
      invariant Load(entries[..i], readFile) == Ok(available)
    {
      assert entries[..i + 1][..i] == entries[..i];
      var e := entries[i];
      if !e.regular {
        continue;
      }
      var content := readFile(e.name);
      if content.Err? {
        LoadFailureStays(entries, readFile, i + 1);
        return [], Some(Wrapped("read migration file", content.error));
      }
      available := available + [MigrationFile(e.name, content.value)];
    }
    assert entries[..|entries|] == entries;
    panicked := None;
  }

  /** Once loading a prefix of the listing fails, loading all of it fails
      the same way. */
  lemma {:induction false} LoadFailureStays(entries: seq<DirEntry>, readFile: string -> Result<string, GoError>, k: nat)
    requires k <= |entries| && Load(entries[..k], readFile).Err?
    ensures Load(entries, readFile) == Load(entries[..k], readFile)
    decreases |entries| - k
  {
    if k < |entries| {
      assert entries[..k + 1][..k] == entries[..k];
      LoadFailureStays(entries, readFile, k + 1);
    } else {
      assert entries[..k] == entries;
    }
  }

  /** `init` keeps exactly the regular files, in listing order, each with the
      content read for it. */
  lemma {:induction false} LoadKeepsRegularFiles(entries: seq<DirEntry>, readFile: string -> Result<string, GoError>)
    requires Load(entries, readFile).Ok?
    ensures Names(Load(entries, readFile).value) == RegularNames(entries)
    ensures forall m :: m in Load(entries, readFile).value ==> readFile(m.name) == Ok(m.content)
    decreases |entries|
  {
    if |entries| > 0 {
      var init := entries[..|entries| - 1];
      var e := entries[|entries| - 1];
      LoadKeepsRegularFiles(init, readFile);
      RegularNamesSnoc(init, e);
      assert init + [e] == entries;
      var ms := Load(init, readFile).value;
      if e.regular {
        var m := MigrationFile(e.name, readFile(e.name).value);
        NamesSnoc(ms, m);
      }
    }
  }

  lemma {:induction false} RegularNamesSnoc(entries: seq<DirEntry>, e: DirEntry)
    ensures RegularNames(entries + [e]) == RegularNames(entries) + (if e.regular then [e.name] else [])
    decreases |entries|
  {
    if |entries| == 0 {
      assert [e][1..] == [];
    } else {
      assert (entries + [e])[1..] == entries[1..] + [e];
      RegularNamesSnoc(entries[1..], e);
    }
  }

  lemma NamesSnoc(ms: seq<MigrationFile>, m: MigrationFile)
    ensures Names(ms + [m]) == Names(ms) + [m.name]
  {
  }

  // ---------------------------------------------------------------------------
  // Migrate
  // ---------------------------------------------------------------------------

  /** A statement run inside the migration transaction. */
  datatype Stmt = CreateTable | Script(name: string, content: string) | Insert(name: string)

  /** What the server will answer. `query` is an error of the SELECT of the
      recorded names (then no row is read and `rows.Err()` reports it);
      `scanAt` is the row whose `Scan` fails; `rowsErr` is what `rows.Err()`
      reports after the rows of a successful query; `exec` says which
      statements fail. */
  datatype Faults = Faults(
    acquire: Option<GoError>,
    begin: Option<GoError>,
    query: Option<GoError>,
    scanAt: Option<nat>,
    rowsErr: Option<GoError>,
    exec: Stmt -> Option<GoError>,
    commit: Option<GoError>)

  /** The names `Migrate` reads from `dp_migrations`: all rows, or those
      before the first failing `Scan`. */
  function ReadNames(table: seq<string>, faults: Faults): (ran: seq<string>)
    ensures |ran| <= |table| && ran == table[..|ran|]
    ensures faults.query.None? && faults.scanAt.None? ==> ran == table
  {
    if faults.query.Some? then []
    else if faults.scanAt.Some? && faults.scanAt.value < |table| then table[..faults.scanAt.value]
    else table
  }

  /** What `rows.Err()` reports after the reading loop. */
  function RowsErr(faults: Faults): Option<GoError>
  {
    if faults.query.Some? then faults.query else faults.rowsErr
  }

  /** The available migrations whose names were not read as recorded, in
      order. */
  function Pending(available: seq<MigrationFile>, ran: seq<string>): seq<MigrationFile>
    decreases |available|
  {
    if |available| == 0 then []
    else if available[0].name in ran then Pending(available[1..], ran)
    else [available[0]] + Pending(available[1..], ran)
  }

  /** The statements for one migration: its script, then the insertion of
      its name. */
  function Steps(m: MigrationFile): seq<Stmt>
  {
    [Script(m.name, m.content), Insert(m.name)]
  }

  /** The statements for the pending migrations, in order. */
  function Plan(pending: seq<MigrationFile>): seq<Stmt>
    decreases |pending|
  {
    if |pending| == 0 then [] else Steps(pending[0]) + Plan(pending[1..])
  }

  /** Running statements in order until the first that fails: the statements
      that ran, and the failure, if any, with the text `Migrate` wraps it in. */
  function RunAll(stmts: seq<Stmt>, exec: Stmt -> Option<GoError>): (r: (seq<Stmt>, Option<GoError>))
    ensures r.1.None? ==> r.0 == stmts
    decreases |stmts|
  {
    if |stmts| == 0 then ([], None)
    else match exec(stmts[0])
      case Some(e) => ([], Some(Wrapped(if stmts[0].Script? then "run migration" else "insert migration into table", e)))
      case None =>
        var r := RunAll(stmts[1..], exec);
        assert [stmts[0]] + stmts[1..] == stmts;
        ([stmts[0]] + r.0, r.1)
  }

  /** The result of `Migrate` against a table holding `table`. */
  function MigrateError(table: seq<string>, available: seq<MigrationFile>, faults: Faults): Option<GoError>
  {
    if faults.acquire.Some? then Some(Wrapped("acquire connection from pool", faults.acquire.value))
    else if faults.begin.Some? then Some(Wrapped("begin transaction", faults.begin.value))
    else if faults.exec(CreateTable).Some? then Some(Wrapped("create migrations table", faults.exec(CreateTable).value))
    else if RowsErr(faults).Some? then Some(Wrapped("scan ran migrations", RowsErr(faults).value))
    else
      var (_, err) := RunAll(Plan(Pending(available, ReadNames(table, faults))), faults.exec);
      if err.Some? then err
      else if faults.commit.Some? then Some(Wrapped("commit transaction", faults.commit.value))
      else None
  }

  /** The database: the committed rows of `dp_migrations`, and the names of
      the migration scripts whose effects are committed, in order. */
  class Database {
    var table: seq<string>
    var applied: seq<string>

    constructor (table: seq<string>, applied: seq<string>)
      ensures this.table == table && this.applied == applied
    {
      this.table := table;
      this.applied := applied;
    }
  }

  /** A transaction on a connection of the pool: the statements it has run,
      which reach the database only on `Commit`. */
  class Tx {
    var log: seq<Stmt>
    var open: bool
    const db: Database
    const exec: Stmt -> Option<GoError>
    const commitFault: Option<GoError>

    constructor (db: Database, exec: Stmt -> Option<GoError>, commitFault: Option<GoError>)
      ensures this.db == db && this.exec == exec && this.commitFault == commitFault
      ensures log == [] && open
    {
      this.db := db;
      this.exec := exec;
      this.commitFault := commitFault;
      log := [];
      open := true;
    }

    /** `tx.Exec`: a statement the server accepts joins the transaction. */
    method Exec(s: Stmt) returns (err: Option<GoError>)
      modifies this
      ensures err == exec(s) && open == old(open)
      ensures log == if err.None? then old(log) + [s] else old(log)
    {
      err := exec(s);
      if err.None? {
        log := log + [s];
      }
    }

    /** `tx.Commit`: the scripts and insertions of the transaction take
        effect, in order. */
    method Commit() returns (err: Option<GoError>)
      requires open
      modifies this, db
      ensures err == commitFault && !open && log == old(log)
      ensures err.None? ==> db.table == old(db.table) + Inserted(log) && db.applied == old(db.applied) + Scripts(log)
      ensures err.Some? ==> db.table == old(db.table) && db.applied == old(db.applied)
    {
      open := false;
      err := commitFault;
      if err.None? {
        db.table := db.table + Inserted(log);
        db.applied := db.applied + Scripts(log);
      }
    }

    /** The deferred `tx.Rollback`: nothing of the transaction takes effect;
        after `Commit` it does nothing. */
    method Rollback()
      modifies this
      ensures !open && log == old(log)
    {
      open := false;
    }
  }

  /** The names a statement log inserts into `dp_migrations`, in order. */
  function Inserted(log: seq<Stmt>): seq<string>
  {
    if |log| == 0 then []
    else (if log[0].Insert? then [log[0].name] else []) + Inserted(log[1..])
  }

  /** The names of the migrations whose scripts a statement log runs, in order. */
  function Scripts(log: seq<Stmt>): seq<string>
  {
    if |log| == 0 then []
    else (if log[0].Script? then [log[0].name] else []) + Scripts(log[1..])
  }

  /** The reading loop: `rows.Next()` over the table, stopping silently at a
      failing `Scan`. */
  method ReadRecorded(table: seq<string>, faults: Faults) returns (ranMigrations: seq<string>)
    ensures ranMigrations == ReadNames(table, faults)
  {
    ranMigrations := [];
    if faults.query.Some? {
      return;
    }
    var i := 0;
    while i < |table|
      invariant 0 <= i <= |table| && ranMigrations == table[..i]
      invariant faults.scanAt.Some? ==> i <= faults.scanAt.value
    {
      if faults.scanAt == Some(i) {
        break;
      }
      ranMigrations := ranMigrations + [table[i]];
      i := i + 1;
    }
    assert table[..|table|] == table;
  }

  /** The body of that loop for a pending migration: its script, then the
      insertion of its name. */
  method RunMigration(tx: Tx, m: MigrationFile) returns (err: Option<GoError>)
    modifies tx
    ensures tx.open == old(tx.open)
    ensures var r := RunAll(Steps(m), tx.exec);
      tx.log == old(tx.log) + r.0 && err == r.1
  {
    RunPair(m, [], tx.exec);
    assert Steps(m) + [] == Steps(m);
    err := tx.Exec(Script(m.name, m.content));
    if err.Some? {
      return Some(Wrapped("run migration", err.value));
    }
    err := tx.Exec(Insert(m.name));
    if err.Some? {
      return Some(Wrapped("insert migration into table", err.value));
    }
  }

  /** The loop over `availableMigrations`, inside the transaction: the
      statements it runs, and its error, are those of `RunAll` on the plan
      for the pending migrations. */
  method RunPending(tx: Tx, available: seq<MigrationFile>, ranMigrations: seq<string>) returns (err: Option<GoError>)
    modifies tx
    ensures tx.open == old(tx.open)
    ensures var r := RunAll(Plan(Pending(available, ranMigrations)), tx.exec);
      tx.log == old(tx.log) + r.0 && err == r.1
  {
    for i := 0 to |available|
      invariant tx.open == old(tx.open)
      invariant tx.log == old(tx.log) + Plan(Pending(available[..i], ranMigrations))
      invariant RunAll(Plan(Pending(available[..i], ranMigrations)), tx.exec).1.None?
    {
      var m := available[i];
      if m.name in ranMigrations {
        PendingStep(available, i, ranMigrations);
        continue;
      }
      ghost var done := Plan(Pending(available[..i], ranMigrations));
      err := RunMigration(tx, m);
      Assoc(old(tx.log), done, RunAll(Steps(m), tx.exec).0);
      if err.Some? {
        PendingRunFails(available, i, ranMigrations, tx.exec);
        return;
      }
      PendingRunStep(available, i, ranMigrations, tx.exec);
    }
    assert available[..|available|] == available;
    return None;
  }

  /** `db.Migrate`. The outcome is `MigrateError`; on success the table holds
      the old names and then the pending ones, each of whose scripts took
      effect; on any failure nothing of the run takes effect. */
  method Migrate(db: Database, available: seq<MigrationFile>, faults: Faults) returns (err: Option<GoError>)
    modifies db
    ensures err == MigrateError(old(db.table), available, faults)
    ensures var pending := Names(Pending(available, ReadNames(old(db.table), faults)));
      err.None? ==> db.table == old(db.table) + pending && db.applied == old(db.applied) + pending
    ensures err.Some? ==> db.table == old(db.table) && db.applied == old(db.applied)
  {
    if faults.acquire.Some? {
      return Some(Wrapped("acquire connection from pool", faults.acquire.value));
    }
    if faults.begin.Some? {
      return Some(Wrapped("begin transaction", faults.begin.value));
    }
    var tx := new Tx(db, faults.exec, faults.commit);
    err := tx.Exec(CreateTable);
    if err.Some? {
      tx.Rollback();
      return Some(Wrapped("create migrations table", err.value));
    }
    var ranMigrations := ReadRecorded(db.table, faults);
    var rowsErr := RowsErr(faults);
    if rowsErr.Some? {
      tx.Rollback();
      return Some(Wrapped("scan ran migrations", rowsErr.value));
    }
    var pending := Pending(available, ranMigrations);
    err := RunPending(tx, available, ranMigrations);
    if err.Some? {
      tx.Rollback();
      return;
    }
    PlanEffects(pending);
    assert tx.log == [CreateTable] + Plan(pending);
    err := tx.Commit();
    if err.Some? {
      err := Some(Wrapped("commit transaction", err.value));
    }
    tx.Rollback();
  }

  // ---------------------------------------------------------------------------
  // Properties
  // ---------------------------------------------------------------------------

  /** Running two lists of statements one after the other. */
  lemma {:induction false} RunAllAppend(a: seq<Stmt>, b: seq<Stmt>, exec: Stmt -> Option<GoError>)
    requires RunAll(a, exec).1.None?
    ensures RunAll(a + b, exec) == (a + RunAll(b, exec).0, RunAll(b, exec).1)
    decreases |a|
  {
    var r := RunAll(b, exec);
    if |a| == 0 {
      assert a + b == b;
      assert a + r.0 == r.0;
      assert r == (r.0, r.1);
    } else {
      assert (a + b)[0] == a[0] && (a + b)[1..] == a[1..] + b;
      RunAllAppend(a[1..], b, exec);
      assert [a[0]] + (a[1..] + RunAll(b, exec).0) == a + RunAll(b, exec).0;
    }
  }

  /** Running a migration's script and insertion, then more statements. */
  lemma RunPair(m: MigrationFile, rest: seq<Stmt>, exec: Stmt -> Option<GoError>)
    ensures var script, insert := Script(m.name, m.content), Insert(m.name);
      RunAll(Steps(m) + rest, exec) ==
        if exec(script).Some? then ([], Some(Wrapped("run migration", exec(script).value)))
        else if exec(insert).Some? then ([script], Some(Wrapped("insert migration into table", exec(insert).value)))
        else ([script, insert] + RunAll(rest, exec).0, RunAll(rest, exec).1)
  {
    var script, insert := Script(m.name, m.content), Insert(m.name);
    var t := Steps(m) + rest;
    assert t[0] == script && t[1..] == [insert] + rest;
    var u := t[1..];
    assert u[0] == insert && u[1..] == rest;
    if exec(script).None? {
      assert RunAll(t, exec) == ([script] + RunAll(u, exec).0, RunAll(u, exec).1);
      if exec(insert).None? {
        var r := RunAll(rest, exec);
        assert RunAll(u, exec) == ([insert] + r.0, r.1);
        assert [script] + ([insert] + r.0) == [script, insert] + r.0;
      } else {
        assert RunAll(u, exec) == ([], Some(Wrapped("insert migration into table", exec(insert).value)));
        assert [script] + [] == [script];
      }
    }
  }

  /** A pending migration whose two statements run moves the loop on. */
  lemma PendingRunStep(available: seq<MigrationFile>, i: nat, ran: seq<string>, exec: Stmt -> Option<GoError>)
    requires i < |available| && available[i].name !in ran
    requires RunAll(Steps(available[i]), exec).1.None?
    requires RunAll(Plan(Pending(available[..i], ran)), exec).1.None?
    ensures Plan(Pending(available[..i + 1], ran)) == Plan(Pending(available[..i], ran)) + Steps(available[i])
    ensures RunAll(Plan(Pending(available[..i + 1], ran)), exec).1.None?
  {
    PendingStep(available, i, ran);
    RunAllAppend(Plan(Pending(available[..i], ran)), Steps(available[i]), exec);
  }

  /** A pending migration whose script or insertion fails ends the run with
      that failure; the statements before it have run. */
  lemma PendingRunFails(available: seq<MigrationFile>, i: nat, ran: seq<string>, exec: Stmt -> Option<GoError>)
    requires i < |available| && available[i].name !in ran
    requires RunAll(Steps(available[i]), exec).1.Some?
    requires RunAll(Plan(Pending(available[..i], ran)), exec).1.None?
    ensures var step := RunAll(Steps(available[i]), exec);
      RunAll(Plan(Pending(available, ran)), exec) == (Plan(Pending(available[..i], ran)) + step.0, step.1)
  {
    var m := available[i];
    var done := Plan(Pending(available[..i], ran));
    var rest := Plan(Pending(available[i + 1..], ran));
    SplitPlan(available, i, ran);
    assert Pending(available[i..], ran) == [m] + Pending(available[i + 1..], ran) by {
      assert available[i..][0] == m && available[i..][1..] == available[i + 1..];
    }
    assert ([m] + Pending(available[i + 1..], ran))[1..] == Pending(available[i + 1..], ran);
    assert Plan(Pending(available[i..], ran)) == Steps(m) + rest;
    RunAllAppend(done, Steps(m) + rest, exec);
    RunPair(m, rest, exec);
    RunPair(m, [], exec);
    assert Steps(m) + [] == Steps(m);
  }

  lemma {:induction false} PendingAppend(a: seq<MigrationFile>, b: seq<MigrationFile>, ran: seq<string>)
    ensures Pending(a + b, ran) == Pending(a, ran) + Pending(b, ran)
    decreases |a|
  {
    if |a| == 0 {
      assert a + b == b;
    } else {
      assert (a + b)[0] == a[0] && (a + b)[1..] == a[1..] + b;
      PendingAppend(a[1..], b, ran);
    }
  }

  lemma {:induction false} PlanAppend(a: seq<MigrationFile>, b: seq<MigrationFile>)
    ensures Plan(a + b) == Plan(a) + Plan(b)
    decreases |a|
  {
    if |a| == 0 {
      assert a + b == b;
    } else {
      assert (a + b)[0] == a[0] && (a + b)[1..] == a[1..] + b;
      PlanAppend(a[1..], b);
    }
  }

  /** The plan splits at any point of the list of available migrations. */
  lemma SplitPlan(available: seq<MigrationFile>, i: nat, ran: seq<string>)
    requires i <= |available|
    ensures Plan(Pending(available, ran)) == Plan(Pending(available[..i], ran)) + Plan(Pending(available[i..], ran))
  {
    assert available == available[..i] + available[i..];
    PendingAppend(available[..i], available[i..], ran);
    PlanAppend(Pending(available[..i], ran), Pending(available[i..], ran));
  }

  /** One more available migration adds its two statements to the plan when
      it is pending, and nothing when it was recorded. */
  lemma PendingStep(available: seq<MigrationFile>, i: nat, ran: seq<string>)
    requires i < |available|
    ensures available[i].name in ran ==> Plan(Pending(available[..i + 1], ran)) == Plan(Pending(available[..i], ran))
    ensures available[i].name !in ran ==> Plan(Pending(available[..i + 1], ran)) == Plan(Pending(available[..i], ran)) + Steps(available[i])
  {
    var m := available[i];
    assert Plan(Pending(available[..i], ran)) + [] == Plan(Pending(available[..i], ran));
    assert available[..i + 1] == available[..i] + [m];
    PendingAppend(available[..i], [m], ran);
    assert [m][1..] == [];
    PlanAppend(Pending(available[..i], ran), Pending([m], ran));
  }

  /** The effects of the statements for the pending migrations. */
  lemma {:induction false} PlanEffects(pending: seq<MigrationFile>)
    ensures Inserted([CreateTable] + Plan(pending)) == Names(pending)
    ensures Scripts([CreateTable] + Plan(pending)) == Names(pending)
    decreases |pending|
  {
    PlanEffectsNoCreate(pending);
    assert ([CreateTable] + Plan(pending))[1..] == Plan(pending);
  }

  lemma {:induction false} PlanEffectsNoCreate(pending: seq<MigrationFile>)
    ensures Inserted(Plan(pending)) == Names(pending)
    ensures Scripts(Plan(pending)) == Names(pending)
    decreases |pending|
  {
    if |pending| > 0 {
      var p := Plan(pending);
      PlanEffectsNoCreate(pending[1..]);
      assert p[1..][1..] == Plan(pending[1..]);
    }
  }

  /** `RunAll` runs a prefix of the statements; when it fails, it stops at
      the first failing statement, and every statement before it ran. */
  lemma {:induction false} RunAllStopsAtFailure(stmts: seq<Stmt>, exec: Stmt -> Option<GoError>)
    ensures var r := RunAll(stmts, exec);
      && |r.0| <= |stmts| && r.0 == stmts[..|r.0|]
      && (forall i :: 0 <= i < |r.0| ==> exec(stmts[i]).None?)
      && (r.1.Some? ==> |r.0| < |stmts| && exec(stmts[|r.0|]).Some?)
    decreases |stmts|
  {
    if |stmts| > 0 && exec(stmts[0]).None? {
      var tail := stmts[1..];
      RunAllStopsAtFailure(tail, exec);
      var r := RunAll(tail, exec);
      assert RunAll(stmts, exec).0 == [stmts[0]] + r.0;
      forall i | 1 <= i < |r.0| + 1
        ensures exec(stmts[i]).None?
      {
        assert stmts[i] == tail[i - 1];
      }
      assert r.1.Some? ==> stmts[|r.0| + 1] == tail[|r.0|];
    }
  }

  /** A migration is pending exactly when it is available and its name was
      not read as recorded; `ranMigrations` is not updated by the loop, so a
      name that occurs twice among the pending files runs twice. */
  lemma {:induction false} PendingMembers(available: seq<MigrationFile>, ran: seq<string>, m: MigrationFile)
    ensures m in Pending(available, ran) <==> m in available && m.name !in ran
    decreases |available|
  {
    if |available| > 0 {
      PendingMembers(available[1..], ran, m);
      assert available == [available[0]] + available[1..];
    }
  }

  /** With every available name recorded, nothing is pending. */
  lemma {:induction false} NothingPending(available: seq<MigrationFile>, ran: seq<string>)
    requires forall m :: m in available ==> m.name in ran
    ensures Pending(available, ran) == []
    decreases |available|
  {
    if |available| > 0 {
      assert available[0] in available;
      assert forall m :: m in available[1..] ==> m in available;
      NothingPending(available[1..], ran);
    }
  }

  /** After a run that read the whole table, the table holds the old names,
      then each available name that was missing, once each. */
  lemma RecordedAfterRun(available: seq<MigrationFile>, table: seq<string>)
    ensures forall m :: m in available ==> m.name in table + Names(Pending(available, table))
    ensures forall x :: x in Names(Pending(available, table)) ==> x !in table
  {
    var p := Pending(available, table);
    forall m | m in available
      ensures m.name in table + Names(p)
    {
      PendingMembers(available, table, m);
      if m.name !in table {
        var j :| 0 <= j < |p| && p[j] == m;
        assert Names(p)[j] == m.name;
      }
    }
    forall x | x in Names(p)
      ensures x !in table
    {
      var j :| 0 <= j < |Names(p)| && Names(p)[j] == x;
      assert p[j] in p;
      PendingMembers(available, table, p[j]);
    }
  }

  /** A second `Migrate` after a successful one executes no migration. */
  lemma SecondRunNothing(available: seq<MigrationFile>, table: seq<string>, first: Faults, second: Faults)
    requires first.query.None? && first.scanAt.None?
    requires second.query.None? && second.scanAt.None?
    ensures var after := table + Names(Pending(available, ReadNames(table, first)));
      Plan(Pending(available, ReadNames(after, second))) == []
  {
    RecordedAfterRun(available, table);
    NothingPending(available, table + Names(Pending(available, table)));
  }

  /** A failing `Scan` ends the reading loop without an error of its own:
      with `rows.Err()` clear, a recorded migration after the failing row
      counts as pending and its script runs again. */
  lemma ScanFailureReruns(table: seq<string>, available: seq<MigrationFile>, faults: Faults, m: MigrationFile)
    requires faults.query.None? && faults.rowsErr.None?
    requires faults.scanAt.Some? && faults.scanAt.value < |table|
    requires m in available && m.name in table[faults.scanAt.value..] && m.name !in table[..faults.scanAt.value]
    ensures RowsErr(faults).None? && ReadNames(table, faults) == table[..faults.scanAt.value]
    ensures m in Pending(available, ReadNames(table, faults))
  {
    PendingMembers(available, ReadNames(table, faults), m);
  }
}
