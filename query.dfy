/** The sandbox runner (`internal/dbrunner/query.go`): a fresh in-memory SQLite
    database runs the schema script and then the query under a one-second
    deadline, and the result rows are collected as text. The engine is a
    parameter: what it answers to each call is not part of this model. */
module Query {
  import opened Common
  import opened GoStrings
  import opened GoErrors
  import Strconv
  import opened Structure

  // ---------------------------------------------------------------------------
  // Contexts and the deadline
  // ---------------------------------------------------------------------------

  /** A `context.Context` as the engine sees it: an optional deadline, in
      nanoseconds on the caller's clock, and whether it has been canceled. */
  datatype Context = Context(deadline: Option<int>, canceled: bool)

  /** `timeoutSecond`. */
  const TimeoutSecond: nat := 1
  /** `time.Second`, in nanoseconds. */
  const Second: nat := 1_000_000_000

  /** `context.WithTimeout(parent, d)` at time `now`: the deadline is the
      earlier of the parent's and `now + d`; cancellation is inherited. */
  function WithTimeout(parent: Context, now: int, d: nat): (c: Context)
    ensures c.canceled == parent.canceled && c.deadline.Some?
    ensures c.deadline.value <= now + d
    ensures parent.deadline.Some? ==> c.deadline.value <= parent.deadline.value
    ensures c.deadline.value == now + d || (parent.deadline.Some? && c.deadline.value == parent.deadline.value)
  {
    match parent.deadline
    case None => Context(Some(now + d), parent.canceled)
    case Some(t) => Context(Some(Min(t, now + d)), parent.canceled)
  }

  // ---------------------------------------------------------------------------
  // The engine
  // ---------------------------------------------------------------------------

  /** A value as `Scan` stores it into an `any`: what the SQLite driver hands
      back. `Opaque` covers the kinds whose `fmt.Sprint` text is not modelled
      (floating point, booleans, times) and carries that text. */
  datatype Value = Null | Integer(i: int64) | Text(s: string) | Blob(b: seq<byte>) | Opaque(text: string)

  /** What one successful `rows.Next()` makes available to `rows.Scan`: the
      row's values, or the error `Scan` reports for it. */
  datatype Fetched = Row(values: seq<Value>) | ScanFails(error: GoError)

  /** A `*sql.Rows`: its columns, the rows successive `Next` calls reach,
      and what `rows.Err()` reports once the loop is left. */
  datatype Cursor = Cursor(columns: Result<seq<string>, GoError>, fetched: seq<Fetched>, err: Option<GoError>)

  /** The database calls: `sql.Open` (fails only for a driver that is not
      registered), `ExecContext` of the schema script, and `QueryContext` of the
      query on the database the script built. */
  datatype Engine = Engine(
    open: Option<GoError>,
    exec: (Context, string) -> Option<GoError>,
    query: (Context, string, string) -> Result<Cursor, GoError>)

  /** `fmt.Sprint` of a scanned value: "<nil>" for NULL, decimal for integers,
      text as it is, and a byte slice as its decimal bytes in brackets. */
  function Sprint(v: Value): string
  {
    match v
    case Null => "<nil>"
    case Integer(i) => Strconv.FormatInt(i)
    case Text(s) => s
    case Blob(b) => "[" + Join(seq(|b|, k requires 0 <= k < |b| => Strconv.Digits(b[k])), ' ') + "]"
    case Opaque(t) => t
  }

  /** `rows.Scan` into `n` destinations. */
  function Scan(f: Fetched, n: nat): (r: Result<seq<Value>, GoError>)
    ensures r.Ok? ==> |r.value| == n && f == Row(r.value)
    ensures f.ScanFails? ==> r == Err(f.error)
  {
    match f
    case ScanFails(e) => Err(e)
    case Row(vals) =>
      if |vals| == n then Ok(vals)
      else Err(Plain("sql: expected " + Strconv.Digits(|vals|) + " destination arguments in Scan, not " + Strconv.Digits(n)))
  }

  /** The cell `i` of a row holds the column name and the printed value. */
  predicate IsProjection(cols: seq<string>, vals: seq<Value>, row: seq<Cell>)
  {
    |row| == |cols| == |vals| &&
    forall i :: 0 <= i < |row| ==> row[i] == Cell(cols[i], Some(Sprint(vals[i])))
  }

  /** The rows the loop collects: one per fetched row, in order, up to the
      first row `Scan` rejects. */
  function Collected(cols: seq<string>, fetched: seq<Fetched>): (rows: seq<seq<Cell>>)
    ensures |rows| <= |fetched|
    ensures forall j :: 0 <= j < |rows| ==>
      Scan(fetched[j], |cols|).Ok? && IsProjection(cols, Scan(fetched[j], |cols|).value, rows[j])
    ensures |rows| < |fetched| ==> Scan(fetched[|rows|], |cols|).Err?
    decreases |fetched|
  {
    if |fetched| == 0 then []
    else match Scan(fetched[0], |cols|)
      case Err(_) => []
      case Ok(vals) => [ProjectRow(cols, vals)] + Collected(cols, fetched[1..])
  }

  /** The inner loop's row, as a value. */
  function ProjectRow(cols: seq<string>, vals: seq<Value>): (row: seq<Cell>)
    requires |vals| == |cols|
    ensures IsProjection(cols, vals, row)
  {
    seq(|cols|, i requires 0 <= i < |cols| => Cell(cols[i], Some(Sprint(vals[i]))))
  }

  /** How the loop's end is reported: a deadline as "query timeout", a SQLite
      error as "sqlite error", anything else as "rows error". */
  function ClassifyRowsError(e: GoError): (w: GoError)
    ensures w.Wrapped? && w.inner == e
    ensures w.prefix == "query timeout" <==> Is(e, DeadlineExceeded)
    ensures w.prefix == "sqlite error" <==> !Is(e, DeadlineExceeded) && AsSqlite(e)
    ensures w.prefix == "rows error" <==> !Is(e, DeadlineExceeded) && !AsSqlite(e)
  {
    if Is(e, DeadlineExceeded) then Wrapped("query timeout", e)
    else if AsSqlite(e) then Wrapped("sqlite error", e)
    else Wrapped("rows error", e)
  }

  /** The result of `RunQuery`. */
  function Run(engine: Engine, parent: Context, now: int, input: Input): Result<Output, GoError>
  {
    var ctx := WithTimeout(parent, now, TimeoutSecond * Second);
    if engine.open.Some? then Err(Wrapped("open database", engine.open.value))
    else match engine.exec(ctx, input.init)
      case Some(e) => Err(Wrapped("exec init", e))
      case None =>
        match engine.query(ctx, input.init, input.query)
        case Err(e) => Err(Wrapped("query", e))
        case Ok(cursor) =>
          match cursor.columns
          case Err(e) => Err(Wrapped("get columns", e))
          case Ok(cols) =>
            if cursor.err.Some? then Err(ClassifyRowsError(cursor.err.value))
            else Ok(Output(Collected(cols, cursor.fetched)))
  }

  // ---------------------------------------------------------------------------
  // The code, step by step
  // ---------------------------------------------------------------------------

  /** The `*sql.Rows` iterator over a cursor. */
  class Rows {
    const cursor: Cursor
    /** How many rows `Next` has reached so far. */
    var pos: nat

    constructor (cursor: Cursor)
      ensures this.cursor == cursor && pos == 0
    {
      this.cursor := cursor;
      pos := 0;
    }

    /** `rows.Next()`: advances to the next row, if there is one. */
    method Next() returns (more: bool)
      modifies this
      ensures more <==> old(pos) < |cursor.fetched|
      ensures pos == if more then old(pos) + 1 else old(pos)
    {
      more := pos < |cursor.fetched|;
      if more {
        pos := pos + 1;
      }
    }

    /** `rows.Scan` of the current row into `n` destinations. */
    method ScanRow(n: nat) returns (r: Result<seq<Value>, GoError>)
      requires 0 < pos <= |cursor.fetched|
      ensures r == Scan(cursor.fetched[pos - 1], n)
    {
      r := Scan(cursor.fetched[pos - 1], n);
    }
  }

  /** The inner `for i, col := range cols` loop. */
  method Project(cols: seq<string>, vals: seq<Value>) returns (row: seq<Cell>)
    requires |vals| == |cols|
    ensures IsProjection(cols, vals, row)
  {
    row := [];
    for i := 0 to |cols|
      invariant |row| == i
      invariant forall j :: 0 <= j < i ==> row[j] == Cell(cols[j], Some(Sprint(vals[j])))
    {
      var value := Some(Sprint(vals[i]));
      row := row + [Cell(cols[i], value)];
    }
  }

  /** The `for rows.Next()` loop. */
  method CollectRows(rows: Rows, cols: seq<string>) returns (result: seq<seq<Cell>>)
    requires rows.pos == 0
    modifies rows
    ensures result == Collected(cols, rows.cursor.fetched)
  {
    ghost var fetched := rows.cursor.fetched;
    result := [];
    assert fetched[0..] == fetched;
    while true
      invariant rows.pos <= |fetched| && |result| == rows.pos
      invariant Collected(cols, fetched) == result + Collected(cols, fetched[rows.pos..])
      decreases |fetched| - rows.pos
    {
      var more := rows.Next();
      if !more {
        CollectStep(cols, fetched, rows.pos, result);
        break;
      }
      CollectStep(cols, fetched, rows.pos - 1, result);
      var scanned := rows.ScanRow(|cols|);
      if scanned.Err? {
        break;
      }
      var row := Project(cols, scanned.value);
      result := result + [row];
    }
  }

  /** One round of the loop on the specification: at the end nothing more is
      collected, a rejected row ends it, and an accepted row is projected. */
  lemma CollectStep(cols: seq<string>, fetched: seq<Fetched>, pos: nat, done: seq<seq<Cell>>)
    requires pos <= |fetched|
    ensures pos == |fetched| ==> done + Collected(cols, fetched[pos..]) == done
    ensures pos < |fetched| && Scan(fetched[pos], |cols|).Err? ==>
      done + Collected(cols, fetched[pos..]) == done
    ensures pos < |fetched| && Scan(fetched[pos], |cols|).Ok? ==>
      forall row :: IsProjection(cols, Scan(fetched[pos], |cols|).value, row) ==>
        done + Collected(cols, fetched[pos..]) == (done + [row]) + Collected(cols, fetched[pos + 1..])
  {
    if pos == |fetched| {
      assert fetched[pos..] == [];
      assert done + [] == done;
    } else {
      var rest := fetched[pos..];
      assert rest[0] == fetched[pos] && rest[1..] == fetched[pos + 1..];
      if Scan(fetched[pos], |cols|).Err? {
        assert done + [] == done;
      } else {
        var vals := Scan(fetched[pos], |cols|).value;
        forall row | IsProjection(cols, vals, row)
          ensures done + Collected(cols, fetched[pos..]) == (done + [row]) + Collected(cols, fetched[pos + 1..])
        {
          assert row == ProjectRow(cols, vals);
          Assoc(done, [row], Collected(cols, fetched[pos + 1..]));
        }
      }
    }
  }

  /** `dbrunner.RunQuery`. */
  method RunQuery(engine: Engine, parent: Context, now: int, input: Input) returns (r: Result<Output, GoError>)
    ensures r == Run(engine, parent, now, input)
  {
    var ctx := WithTimeout(parent, now, TimeoutSecond * Second);
    if engine.open.Some? {
      return Err(Wrapped("open database", engine.open.value));
    }
    var initErr := engine.exec(ctx, input.init);
    if initErr.Some? {
      return Err(Wrapped("exec init", initErr.value));
    }
    var queried := engine.query(ctx, input.init, input.query);
    if queried.Err? {
      return Err(Wrapped("query", queried.error));
    }
    var rows := new Rows(queried.value);
    var cols := rows.cursor.columns;
    if cols.Err? {
      return Err(Wrapped("get columns", cols.error));
    }
    var result := CollectRows(rows, cols.value);
    var rowsErr := rows.cursor.err;
    if rowsErr.Some? {
      return Err(ClassifyRowsError(rowsErr.value));
    }
    return Ok(Output(result));
  }

  // ---------------------------------------------------------------------------
  // Properties
  // ---------------------------------------------------------------------------

  /** Each failure names the step that failed: the returned error wraps the
      engine's error under one of the seven prefixes, and its text begins with
      that prefix. */
  lemma RunErrors(engine: Engine, parent: Context, now: int, input: Input)
    ensures var r := Run(engine, parent, now, input);
      r.Err? ==>
        && r.error.Wrapped?
        && r.error.prefix in ["open database", "exec init", "query", "get columns",
                              "query timeout", "sqlite error", "rows error"]
        && HasPrefix(Message(r.error), r.error.prefix + ": ")
  {
    var r := Run(engine, parent, now, input);
    if r.Err? {
      assert Message(r.error) == (r.error.prefix + ": ") + Message(r.error.inner);
    }
  }

  /** The schema script fails: the query is never issued and the error reads
      "exec init: …". */
  lemma InitFailure(engine: Engine, parent: Context, now: int, input: Input, e: GoError)
    requires engine.open.None?
    requires engine.exec(WithTimeout(parent, now, Second), input.init) == Some(e)
    ensures Run(engine, parent, now, input) == Err(Wrapped("exec init", e))
    ensures Message(Run(engine, parent, now, input).error) == "exec init: " + Message(e)
  {
  }

  /** The engine sees the deadline of `context.WithTimeout(parent, 1s)`. */
  lemma DeadlineIsOneSecond(parent: Context, now: int)
    ensures WithTimeout(parent, now, TimeoutSecond * Second).deadline.value <= now + 1_000_000_000
    ensures parent.deadline.None? ==> WithTimeout(parent, now, TimeoutSecond * Second).deadline == Some(now + 1_000_000_000)
  {
  }

  /** Every collected cell has a value: the `nil` branch of the projection is
      never taken. */
  lemma NoNilCells(cols: seq<string>, fetched: seq<Fetched>)
    ensures forall j, i :: 0 <= j < |Collected(cols, fetched)| && 0 <= i < |Collected(cols, fetched)[j]| ==>
      Collected(cols, fetched)[j][i].value.Some?
  {
  }

  /** A SQL NULL arrives as the text "<nil>", not as a nil value. */
  lemma NullCell()
    ensures Collected(["id", "name"], [Row([Integer(1), Null])]) ==
      [[Cell("id", Some("1")), Cell("name", Some("<nil>"))]]
  {
    var cols := ["id", "name"];
    var vals := [Integer(1), Null];
    var f := [Row(vals)];
    assert Strconv.Digits(1) == "1";
    assert Sprint(vals[0]) == "1";
    var row := ProjectRow(cols, vals);
    assert row == [Cell("id", Some("1")), Cell("name", Some("<nil>"))];
    assert f[1..] == [];
    assert Collected(cols, f) == [row];
  }

  /** A `Scan` failure ends the collection silently: the rows before it are
      kept and everything after it is ignored. */
  lemma {:induction false} ScanFailureKeepsEarlierRows(cols: seq<string>, good: seq<Fetched>, e: GoError, rest: seq<Fetched>)
    requires forall j :: 0 <= j < |good| ==> Scan(good[j], |cols|).Ok?
    ensures Collected(cols, good + [ScanFails(e)] + rest) == Collected(cols, good)
    ensures |Collected(cols, good)| == |good|
    decreases |good|
  {
    var all := good + [ScanFails(e)] + rest;
    if |good| == 0 {
      assert all[0] == ScanFails(e);
    } else {
      assert all[0] == good[0];
      assert all[1..] == good[1..] + [ScanFails(e)] + rest;
      ScanFailureKeepsEarlierRows(cols, good[1..], e, rest);
    }
  }

  /** A query that returns no rows gives an output with an empty result. */
  lemma EmptyResult(engine: Engine, parent: Context, now: int, input: Input)
    requires var ctx := WithTimeout(parent, now, TimeoutSecond * Second);
      engine.open.None? && engine.exec(ctx, input.init).None? &&
      engine.query(ctx, input.init, input.query).Ok? &&
      var cursor := engine.query(ctx, input.init, input.query).value;
      cursor.columns.Ok? && cursor.fetched == [] && cursor.err.None?
    ensures Run(engine, parent, now, input) == Ok(Output([]))
  {
  }

  /** A deadline reported when the rows are read out is a "query timeout"; a
      SQLite error there is a "sqlite error". */
  lemma RowsErrorText(e: GoError)
    ensures Is(e, DeadlineExceeded) ==> HasPrefix(Message(ClassifyRowsError(e)), "query timeout: ")
    ensures !Is(e, DeadlineExceeded) && AsSqlite(e) ==> HasPrefix(Message(ClassifyRowsError(e)), "sqlite error: ")
  {
    var w := ClassifyRowsError(e);
    assert Message(w) == (w.prefix + ": ") + Message(e);
  }
}
