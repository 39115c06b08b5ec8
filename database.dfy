/**
 * The database object: running SQL scripts, creating, dropping and backing up
 * model tables, attaching models, synchronising the schema, and the registry
 * of connections by slug. Each operation is a method on the connection's
 * history, specified by a function of the history it starts from.
 */
module Database {

  import opened Wrappers
  import opened Values
  import opened Text
  import opened Schema
  import opened QueryResults
  import opened Ddl
  import opened Client
  import opened QueryState
  import opened QueryBuilder
  import opened Registry
  import JoinResolver

  // ---------------------------------------------------------------------
  // Scripts
  // ---------------------------------------------------------------------

  /** `query.split(';').filter(v => v)`: the statements of a script. A text
      with no ';' is one statement, or none when it is empty. */
  function ScriptParts(script: string): (r: seq<string>)
    ensures forall i :: 0 <= i < |r| ==> r[i] != "" && ';' !in r[i]
    ensures forall p :: p in r <==> p in Split(script, ';') && p != ""
    ensures ';' !in script ==> r == if script == "" then [] else [script]
  {
    var parts := Split(script, ';');
    SplitPartsFree(script, ';');
    NonEmptyOfFree(script, ';');
    var r := NonEmpty(parts);
    assert forall i :: 0 <= i < |r| ==> r[i] in parts;
    r
  }

  /** Two scripts joined by ';' give the statements of the first and then
      those of the second, in order and with repeats kept. With the single
      statement case above this fixes the statements of every script. */
  lemma ScriptsConcatenate(a: string, b: string)
    ensures ScriptParts(a + ";" + b) == ScriptParts(a) + ScriptParts(b)
  {
    assert a + ";" + b == a + [';'] + b;
    SplitAround(a, ';', b);
    NonEmptyAppend(Split(a, ';'), Split(b, ';'));
  }

  /** A script made by joining statements with ';' splits back into exactly
      those statements, as long as none is empty or holds a ';'. */
  lemma ScriptOfStatements(stmts: seq<string>)
    requires |stmts| >= 1
    requires forall i :: 0 <= i < |stmts| ==> stmts[i] != "" && ';' !in stmts[i]
    ensures ScriptParts(JoinWith(stmts, ';')) == stmts
  {
    SplitJoin(stmts, ';');
    NonEmptyKeeps(stmts);
  }

  /** One `execute` per statement. */
  function Executes(parts: seq<string>): (r: seq<Statement>)
    ensures |r| == |parts| && forall i :: 0 <= i < |parts| ==> r[i] == Execute(parts[i])
  {
    seq(|parts|, i requires 0 <= i < |parts| => Execute(parts[i]))
  }

  /** The history after a script, and the rows of its last statement (none
      when the script had no statement). */
  datatype ScriptRun = ScriptRun(history: seq<Statement>, rows: Option<seq<Record>>)

  /** The loop of `runSql` from some part on: each part executed in turn, the
      result replaced by each part's rows. */
  function RunParts(answer: (seq<Statement>, Statement) -> Response, h: seq<Statement>,
                    parts: seq<string>, rows: Option<seq<Record>>): ScriptRun
    decreases |parts|
  {
    if |parts| == 0 then ScriptRun(h, rows)
    else RunParts(answer, h + [Execute(parts[0])], parts[1..], Some(answer(h, Execute(parts[0])).rows))
  }

  /** `runSql(query)`: every non-empty part executed in order. */
  function RunScript(answer: (seq<Statement>, Statement) -> Response, h: seq<Statement>, script: string): ScriptRun {
    RunParts(answer, h, ScriptParts(script), None)
  }

  /** Running parts appends one `execute` per part, in order, and nothing
      else. */
  lemma {:induction false} RunPartsHistory(answer: (seq<Statement>, Statement) -> Response, h: seq<Statement>,
                                           parts: seq<string>, rows: Option<seq<Record>>)
    ensures RunParts(answer, h, parts, rows).history == h + Executes(parts)
    decreases |parts|
  {
    if |parts| > 0 {
      RunPartsHistory(answer, h + [Execute(parts[0])], parts[1..], Some(answer(h, Execute(parts[0])).rows));
      assert [Execute(parts[0])] + Executes(parts[1..]) == Executes(parts);
    }
  }

  /** Running at least one part leaves the rows of the last one, answered on
      the history left by all the parts before it. */
  lemma {:induction false} RunPartsRows(answer: (seq<Statement>, Statement) -> Response, h: seq<Statement>,
                                        parts: seq<string>, rows: Option<seq<Record>>)
    requires |parts| > 0
    ensures RunParts(answer, h, parts, rows).rows
            == Some(answer(h + Executes(parts[..|parts| - 1]), Execute(parts[|parts| - 1])).rows)
    decreases |parts|
  {
    var h1 := h + [Execute(parts[0])];
    if |parts| == 1 {
      assert h + Executes(parts[..0]) == h by {
        assert Executes(parts[..0]) == [];
      }
    } else {
      RunPartsRows(answer, h1, parts[1..], Some(answer(h, Execute(parts[0])).rows));
      ExecutesCons(parts, |parts| - 1);
      assert h1 + Executes(parts[1..|parts| - 1]) == h + Executes(parts[..|parts| - 1]);
    }
  }

  /** Executing the first part and then the next ones up to `k` is executing
      the first `k` parts. */
  lemma ExecutesCons(parts: seq<string>, k: nat)
    requires 1 <= k < |parts|
    ensures parts[1..][..|parts| - 2] == parts[1..|parts| - 1]
    ensures [Execute(parts[0])] + Executes(parts[1..k]) == Executes(parts[..k])
  {
  }

  /** Running a script executes each of its statements once, in order, and
      nothing else, and answers with rows exactly when it had a statement. */
  lemma RunScriptExecutesEach(answer: (seq<Statement>, Statement) -> Response, h: seq<Statement>, script: string)
    ensures RunScript(answer, h, script).history == h + Executes(ScriptParts(script))
    ensures RunScript(answer, h, script).rows.Some? <==> |ScriptParts(script)| > 0
  {
    RunPartsHistory(answer, h, ScriptParts(script), None);
    if |ScriptParts(script)| > 0 {
      RunPartsRows(answer, h, ScriptParts(script), None);
    }
  }

  /** Separators alone make a script with no statement: nothing runs. */
  lemma SeparatorsRunNothing(answer: (seq<Statement>, Statement) -> Response, h: seq<Statement>)
    ensures RunScript(answer, h, ";;") == ScriptRun(h, None)
  {
    assert Split(";", ';') == ["", ""];
    assert Split(";;", ';') == ["", "", ""];
  }

  // ---------------------------------------------------------------------
  // Creating, dropping and backing up one table
  // ---------------------------------------------------------------------

  /** The history after an operation, and the error if it threw. */
  datatype Done = Done(history: seq<Statement>, error: Option<Error>)

  /** `_createTable(model)`: the model's table definition is rendered and run as
      a script; a definition that cannot be built throws before anything runs. */
  function CreateSpec(answer: (seq<Statement>, Statement) -> Response,
                      render: (Option<string>, seq<TableOp>) -> string,
                      h: seq<Statement>, m: ModelSchema): Done
  {
    match CreatePlan(m)
    case Failure(e) => Done(h, Some(e))
    case Success(ops) => Done(RunScript(answer, h, render(m.table, ops)).history, None)
  }

  /** `Object.assign({}, model)` with "_backup" appended to the table, as the
      code writes it: a plain object holding the model's own enumerable
      properties, so the class name and the static methods the model inherits
      from `Model` are gone. An unset table becomes "undefined_backup". */
  function BackupModelAsWritten(m: ModelSchema): (r: ModelSchema)
    ensures r.table == Some(OrUndefined(m.table) + "_backup")
    ensures !r.hasStatics && r.name == "undefined"
    ensures r.(table := m.table, name := m.name, hasStatics := m.hasStatics) == m
  {
    m.(table := Some(OrUndefined(m.table) + "_backup"), name := "undefined", hasStatics := false)
  }

  /** The backup model the code evidently means: the same model, static
      methods included, on the backup table. */
  function BackupModel(m: ModelSchema): (r: ModelSchema)
    ensures r.table == Some(OrUndefined(m.table) + "_backup")
    ensures r.(table := m.table) == m
  {
    m.(table := Some(OrUndefined(m.table) + "_backup"))
  }

  /** What the code hands to `insert` for the backup: the QueryResult object,
      which is not an array, so it becomes one record holding its `rows`. */
  function BackupInsertAsWritten(data: QueryResult<Record>): (r: InsertData)
    ensures |r.Rows()| == 1 && r.Rows()[0].Keys == {"rows"}
  {
    OneRow(map["rows" := Opaque])
  }

  /** What the backup evidently means to insert: every fetched row. */
  function BackupInsert(data: QueryResult<Record>): (r: InsertData)
    ensures r.Rows() == data.rows
  {
    RowList(data.All())
  }

  /**
   * The two defects of the backup's insert, as written: the data is one record
   * whose only column is "rows", whatever was fetched, and the id of that record
   * cannot be read back, because the plain-object copy has no
   * `getPrimaryField`. Corrected, each fetched row is inserted as it was.
   */
  lemma BackupInsertsWrapper(data: QueryResult<Record>, m: ModelSchema, resp: Response)
    requires |data.rows| >= 2
    requires !HasInsertId(resp)
    ensures BackupInsertAsWritten(data).Rows() == [map["rows" := Opaque]]
    ensures InsertedId(BackupModelAsWritten(m), BackupInsertAsWritten(data).Rows()[0], resp).Failure?
    ensures InsertedId(BackupModelAsWritten(m), BackupInsertAsWritten(data).Rows()[0], resp).error.TypeError?
    ensures BackupInsert(data).Rows() == data.rows
    ensures |BackupInsertAsWritten(data).Rows()| < |BackupInsert(data).Rows()|
  {
  }

  /**
   * `_backupTable(model)` as the code writes it: fetch every row; when there is
   * none, stop; otherwise drop and create the backup table from the plain-object
   * copy and hand `insert` the fetched QueryResult.
   */
  function BackupSpecAsWritten(quote: string -> string, answer: (seq<Statement>, Statement) -> Response,
                               render: (Option<string>, seq<TableOp>) -> string,
                               h: seq<Statement>, m: ModelSchema): Done
  {
    var q := SelectOf(m.table, Initial);
    var rows := answer(h, Select(q)).rows;
    var h1 := h + [Select(q)];
    if |rows| == 0 then Done(h1, None)
    else
      var b := BackupModelAsWritten(m);
      var c := CreateSpec(answer, render, h1 + [DropTableIfExists(b.table)], b);
      if c.error.Some? then c
      else
        var ins := InsertSpec(quote, answer, c.history, b, BackupInsertAsWritten(QueryResult(rows)));
        Done(ins.history, if ins.result.Failure? then Some(ins.result.error) else None)
  }

  /** Insert on a model without the static methods always throws a TypeError
      once it has run the INSERT of its first row: either reading that row's
      id or, when the client reported one, building `wherePk` calls the missing
      `getPrimaryField`. */
  lemma InsertWithoutStatics(quote: string -> string, answer: (seq<Statement>, Statement) -> Response,
                             h: seq<Statement>, m: ModelSchema, row: Record)
    requires !m.hasStatics
    ensures var spec := InsertSpec(quote, answer, h, m, OneRow(row));
      && spec.result.Failure? && spec.result.error.TypeError?
      && spec.history == h + [InsertRow(m.table, row)]
  {
    var st := InsertRow(m.table, row);
    assert [row][1..] == [];
    assert Inserts(answer, h + [st], m, [], []) == InsertRun(h + [st], [], None);
  }

  /**
   * As written, a backup of a table with rows never completes: after the
   * SELECT, the backup table's drop and create and one INSERT of the wrapper
   * record, it throws a TypeError, and nothing more runs.
   */
  lemma BackupAsWrittenThrows(quote: string -> string, answer: (seq<Statement>, Statement) -> Response,
                              render: (Option<string>, seq<TableOp>) -> string,
                              h: seq<Statement>, m: ModelSchema)
    requires |answer(h, Select(SelectOf(m.table, Initial))).rows| > 0
    requires CreatePlan(m).Success?
    ensures var b := BackupModelAsWritten(m);
      var c := CreateSpec(answer, render, h + [Select(SelectOf(m.table, Initial)), DropTableIfExists(b.table)], b);
      var spec := BackupSpecAsWritten(quote, answer, render, h, m);
      && c.error.None?
      && spec.error.Some? && spec.error.value.TypeError?
      && spec.history == c.history + [InsertRow(b.table, map["rows" := Opaque])]
  {
    var q := SelectOf(m.table, Initial);
    var b := BackupModelAsWritten(m);
    assert CreatePlan(b) == CreatePlan(m);
    assert h + [Select(q)] + [DropTableIfExists(b.table)] == h + [Select(q), DropTableIfExists(b.table)];
    var c := CreateSpec(answer, render, h + [Select(q), DropTableIfExists(b.table)], b);
    InsertWithoutStatics(quote, answer, c.history, b, map["rows" := Opaque]);
  }

  /**
   * `_backupTable(model)`: fetch every row of the table; when there is none,
   * stop; otherwise drop the backup table, create it from the model, and insert
   * the rows into it.
   */
  function BackupSpec(quote: string -> string, answer: (seq<Statement>, Statement) -> Response,
                      render: (Option<string>, seq<TableOp>) -> string,
                      h: seq<Statement>, m: ModelSchema): Done
  {
    var q := SelectOf(m.table, Initial);
    var rows := answer(h, Select(q)).rows;
    var h1 := h + [Select(q)];
    if |rows| == 0 then Done(h1, None)
    else
      var b := BackupModel(m);
      var c := CreateSpec(answer, render, h1 + [DropTableIfExists(b.table)], b);
      if c.error.Some? then c
      else
        var ins := InsertSpec(quote, answer, c.history, b, BackupInsert(QueryResult(rows)));
        Done(ins.history, if ins.result.Failure? then Some(ins.result.error) else None)
  }

  /** A table with no rows is not backed up: only its SELECT runs. */
  lemma BackupOfEmptyTable(quote: string -> string, answer: (seq<Statement>, Statement) -> Response,
                           render: (Option<string>, seq<TableOp>) -> string,
                           h: seq<Statement>, m: ModelSchema)
    requires |answer(h, Select(SelectOf(m.table, Initial))).rows| == 0
    ensures BackupSpec(quote, answer, render, h, m) == Done(h + [Select(SelectOf(m.table, Initial))], None)
  {
  }

  /**
   * A backup that finds rows selects the whole table, drops and recreates the
   * backup table, then inserts every fetched row into it, one INSERT per row in
   * the order fetched, and re-fetches once.
   */
  lemma BackupCopiesRows(quote: string -> string, answer: (seq<Statement>, Statement) -> Response,
                         render: (Option<string>, seq<TableOp>) -> string,
                         h: seq<Statement>, m: ModelSchema)
    requires |answer(h, Select(SelectOf(m.table, Initial))).rows| > 0
    requires BackupSpec(quote, answer, render, h, m).error.None?
    ensures var q := SelectOf(m.table, Initial);
      var rows := answer(h, Select(q)).rows;
      var b := BackupModel(m);
      var c := CreateSpec(answer, render, h + [Select(q), DropTableIfExists(b.table)], b);
      var spec := BackupSpec(quote, answer, render, h, m);
        && c.error.None?
        && |spec.history| == |c.history| + |rows| + 1
        && spec.history[..|spec.history| - 1] == c.history + InsertRows(b.table, rows)
  {
    var q := SelectOf(m.table, Initial);
    var rows := answer(h, Select(q)).rows;
    var b := BackupModel(m);
    var c := CreateSpec(answer, render, h + [Select(q), DropTableIfExists(b.table)], b);
    var data := BackupInsert(QueryResult(rows));
    BackupRunsInsert(quote, answer, render, h, m);
    InsertAppendsRows(quote, answer, c.history, b, data);
    assert data.Rows() == rows;
  }

  /** A backup that finds rows and does not throw created the backup table
      and then ran a successful insert, and nothing after it. */
  lemma BackupRunsInsert(quote: string -> string, answer: (seq<Statement>, Statement) -> Response,
                         render: (Option<string>, seq<TableOp>) -> string,
                         h: seq<Statement>, m: ModelSchema)
    requires |answer(h, Select(SelectOf(m.table, Initial))).rows| > 0
    requires BackupSpec(quote, answer, render, h, m).error.None?
    ensures var q := SelectOf(m.table, Initial);
      var b := BackupModel(m);
      var c := CreateSpec(answer, render, h + [Select(q), DropTableIfExists(b.table)], b);
      var ins := InsertSpec(quote, answer, c.history, b, BackupInsert(QueryResult(answer(h, Select(q)).rows)));
      && c.error.None? && ins.result.Success?
      && BackupSpec(quote, answer, render, h, m).history == ins.history
  {
    var q := SelectOf(m.table, Initial);
    var b := BackupModel(m);
    assert h + [Select(q)] + [DropTableIfExists(b.table)] == h + [Select(q), DropTableIfExists(b.table)];
  }

  /** A successful insert leaves the history it started from in place and
      appends one INSERT per row, in order, and one SELECT. */
  lemma InsertAppendsRows(quote: string -> string, answer: (seq<Statement>, Statement) -> Response,
                          h: seq<Statement>, m: ModelSchema, data: InsertData)
    requires InsertSpec(quote, answer, h, m, data).result.Success?
    ensures var spec := InsertSpec(quote, answer, h, m, data);
      && |spec.history| == |h| + |data.Rows()| + 1
      && spec.history[..|spec.history| - 1] == h + InsertRows(m.table, data.Rows())
  {
    InsertRefetchesByIds(quote, answer, h, m, data);
    var spec := InsertSpec(quote, answer, h, m, data);
    var run := Inserts(answer, h, m, data.Rows(), []);
    assert h <= run.history;
    var ours := spec.history[..|spec.history| - 1];
    var want := h + InsertRows(m.table, data.Rows());
    assert |ours| == |want|;
    forall n | 0 <= n < |ours|
      ensures ours[n] == want[n]
    {
      if n >= |h| {
        assert spec.history[|h| + (n - |h|)] == InsertRow(m.table, data.Rows()[n - |h|]);
      }
    }
  }

  // ---------------------------------------------------------------------
  // Sync
  // ---------------------------------------------------------------------

  /** One step of a sync, named by the table it works on. */
  datatype SyncEvent = Backup(table: Option<string>) | Drop(table: Option<string>) | Create(table: Option<string>)

  /** The steps a sync took, the history after it, and the error if it threw. */
  datatype Synced = Synced(events: seq<SyncEvent>, history: seq<Statement>, error: Option<Error>)

  /** `Array.from(models).reverse()`. */
  function Reverse<T>(s: seq<T>): (r: seq<T>)
    ensures |r| == |s| && forall i :: 0 <= i < |s| ==> r[i] == s[|s| - 1 - i]
  {
    seq(|s|, i requires 0 <= i < |s| => s[|s| - 1 - i])
  }

  /** The drop steps for models in the order given: a backup first when data is
      kept, then the drop. */
  function DropEvents(ms: seq<ModelSchema>, keep: bool): (r: seq<SyncEvent>)
    ensures |r| == if keep then 2 * |ms| else |ms|
    decreases |ms|
  {
    if |ms| == 0 then []
    else (if keep then [Backup(ms[0].table)] else []) + [Drop(ms[0].table)] + DropEvents(ms[1..], keep)
  }

  /** The drop steps of the model at `i`: its backup at `2i` and its drop at
      `2i+1` when data is kept, its drop at `i` otherwise. */
  lemma {:induction false} DropEventsAt(ms: seq<ModelSchema>, keep: bool, i: nat)
    requires i < |ms|
    ensures keep ==> DropEvents(ms, keep)[2 * i] == Backup(ms[i].table)
    ensures keep ==> DropEvents(ms, keep)[2 * i + 1] == Drop(ms[i].table)
    ensures !keep ==> DropEvents(ms, keep)[i] == Drop(ms[i].table)
    decreases i
  {
    if i > 0 {
      DropEventsAt(ms[1..], keep, i - 1);
      assert ms[1..][i - 1] == ms[i];
    }
  }

  /** The create steps, in the order given. */
  function CreateEvents(ms: seq<ModelSchema>): (r: seq<SyncEvent>)
    ensures |r| == |ms| && forall i :: 0 <= i < |ms| ==> r[i] == Create(ms[i].table)
  {
    seq(|ms|, i requires 0 <= i < |ms| => Create(ms[i].table))
  }

  /** Every step `sync` means to take over the registry, in order. */
  function SyncPlan(reg: seq<ModelSchema>, drop: bool, keep: bool): seq<SyncEvent> {
    (if drop then DropEvents(Reverse(reg), keep) else []) + CreateEvents(reg)
  }

  /** How many drop steps the plan starts with. */
  function DropCount(n: nat, drop: bool, keep: bool): nat {
    if !drop then 0 else if keep then 2 * n else n
  }

  /** Where the plan drops the model registered at `i`: the reversed order puts
      it at `n - 1 - i` among the models. */
  function DropAt(n: nat, i: nat, keep: bool): (p: nat)
    requires i < n
    ensures p < DropCount(n, true, keep) && (keep ==> p >= 1)
  {
    if keep then 2 * (n - 1 - i) + 1 else n - 1 - i
  }

  /** Where the plan creates the model registered at `i`. */
  function CreateAt(n: nat, i: nat, drop: bool, keep: bool): nat {
    DropCount(n, drop, keep) + i
  }

  /** After the drop steps, the plan creates every model in registration order,
      and nothing follows. */
  lemma SyncPlanCreates(reg: seq<ModelSchema>, drop: bool, keep: bool)
    ensures var n := |reg|; var plan := SyncPlan(reg, drop, keep);
      && |plan| == CreateAt(n, n, drop, keep)
      && (forall i :: 0 <= i < n ==> plan[CreateAt(n, i, drop, keep)] == Create(reg[i].table))
  {
    var n := |reg|;
    var plan := SyncPlan(reg, drop, keep);
    var drops := if drop then DropEvents(Reverse(reg), keep) else [];
    assert |drops| == DropCount(n, drop, keep);
    forall i | 0 <= i < n
      ensures plan[CreateAt(n, i, drop, keep)] == Create(reg[i].table)
    {
      assert plan[|drops| + i] == CreateEvents(reg)[i];
    }
  }

  /** With `drop`, the plan drops the model registered at `i` at `DropAt`,
      right after backing it up when data is kept. */
  lemma SyncPlanDrops(reg: seq<ModelSchema>, keep: bool, i: nat)
    requires i < |reg|
    ensures var plan := SyncPlan(reg, true, keep);
      && plan[DropAt(|reg|, i, keep)] == Drop(reg[i].table)
      && (keep ==> plan[DropAt(|reg|, i, keep) - 1] == Backup(reg[i].table))
  {
    var r := |reg| - 1 - i;
    var drops := DropEvents(Reverse(reg), keep);
    assert Reverse(reg)[r] == reg[i];
    DropEventsAt(Reverse(reg), keep, r);
    var p := DropAt(|reg|, i, keep);
    assert SyncPlan(reg, true, keep)[p] == drops[p];
    assert keep ==> SyncPlan(reg, true, keep)[p - 1] == drops[p - 1];
  }

  /**
   * The plan's order: the model registered last is dropped first, every drop
   * comes before every create, and models are created in registration order, so
   * a table registered before another is created before it and dropped after it.
   */
  lemma SyncPlanOrder(n: nat, drop: bool, keep: bool, i: nat, j: nat)
    requires i < j < n
    ensures drop ==> DropAt(n, j, keep) < DropAt(n, i, keep) < CreateAt(n, 0, drop, keep)
    ensures CreateAt(n, i, drop, keep) < CreateAt(n, j, drop, keep)
  {
  }

  /** A backup as the drop phase sees it: what it does to a history. */
  function Backups(quote: string -> string, answer: (seq<Statement>, Statement) -> Response,
                   render: (Option<string>, seq<TableOp>) -> string): (seq<Statement>, ModelSchema) -> Done
  {
    (h: seq<Statement>, m: ModelSchema) => BackupSpec(quote, answer, render, h, m)
  }

  /** The drop phase over models in the order given, with the steps taken so
      far and a backup of each model first when data is kept: each step is
      recorded before it runs, and the first error stops it. */
  function DropPhase(backup: (seq<Statement>, ModelSchema) -> Done,
                     h: seq<Statement>, evs: seq<SyncEvent>, ms: seq<ModelSchema>, keep: bool): Synced
    decreases |ms|
  {
    if |ms| == 0 then Synced(evs, h, None)
    else
      var m := ms[0];
      var b := if keep then backup(h, m) else Done(h, None);
      var evs1 := evs + (if keep then [Backup(m.table)] else []);
      if b.error.Some? then Synced(evs1, b.history, b.error)
      else DropPhase(backup, b.history + [DropTableIfExists(m.table)], evs1 + [Drop(m.table)], ms[1..], keep)
  }

  /** The create phase over models in the order given; the first error stops it. */
  function CreatePhase(answer: (seq<Statement>, Statement) -> Response,
                       render: (Option<string>, seq<TableOp>) -> string,
                       h: seq<Statement>, evs: seq<SyncEvent>, ms: seq<ModelSchema>): Synced
    decreases |ms|
  {
    if |ms| == 0 then Synced(evs, h, None)
    else
      var c := CreateSpec(answer, render, h, ms[0]);
      if c.error.Some? then Synced(evs + [Create(ms[0].table)], c.history, c.error)
      else CreatePhase(answer, render, c.history, evs + [Create(ms[0].table)], ms[1..])
  }

  /** What follows the drop phase: the create phase over the whole registry,
      unless the drop phase threw. */
  function AfterDrops(answer: (seq<Statement>, Statement) -> Response,
                      render: (Option<string>, seq<TableOp>) -> string,
                      reg: seq<ModelSchema>, d: Synced): Synced
  {
    if d.error.Some? then d else CreatePhase(answer, render, d.history, d.events, reg)
  }

  /** `sync({drop, keepData})`. */
  function SyncSpec(quote: string -> string, answer: (seq<Statement>, Statement) -> Response,
                    render: (Option<string>, seq<TableOp>) -> string,
                    h: seq<Statement>, reg: seq<ModelSchema>, drop: bool, keep: bool): Synced
  {
    var d := if drop then DropPhase(Backups(quote, answer, render), h, [], Reverse(reg), keep) else Synced([], h, None);
    AfterDrops(answer, render, reg, d)
  }

  /** The drop phase takes its steps in order and no others: what it did
      extends the steps taken before, is a prefix of its own steps, and is all
      of them when nothing threw. */
  lemma {:induction false} DropPhaseEvents(backup: (seq<Statement>, ModelSchema) -> Done,
                                           h: seq<Statement>, evs: seq<SyncEvent>, ms: seq<ModelSchema>, keep: bool)
    ensures var d := DropPhase(backup, h, evs, ms, keep);
      && evs <= d.events && d.events <= evs + DropEvents(ms, keep)
      && (d.error.None? ==> d.events == evs + DropEvents(ms, keep))
    decreases |ms|
  {
    if |ms| > 0 {
      var m := ms[0];
      var pre := if keep then [Backup(m.table)] else [];
      var evs1 := evs + pre + [Drop(m.table)];
      var rest := DropEvents(ms[1..], keep);
      assert evs + DropEvents(ms, keep) == evs1 + rest by {
        assert DropEvents(ms, keep) == pre + [Drop(m.table)] + rest;
      }
      var next := DropPhaseNext(backup, h, evs, ms, keep);
      if next.Some? {
        DropPhaseEvents(backup, next.value, evs1, ms[1..], keep);
        PrefixTrans(evs, evs1, DropPhase(backup, next.value, evs1, ms[1..], keep).events);
      }
    }
  }

  /** One step of the drop phase: it either throws in the backup with that
      step recorded, or drops the table and goes on to the next model. */
  lemma DropPhaseNext(backup: (seq<Statement>, ModelSchema) -> Done,
                      h: seq<Statement>, evs: seq<SyncEvent>, ms: seq<ModelSchema>, keep: bool)
    returns (next: Option<seq<Statement>>)
    requires |ms| > 0
    ensures var d := DropPhase(backup, h, evs, ms, keep);
      var pre := if keep then [Backup(ms[0].table)] else [];
      && (next.None? ==> keep && d.error.Some? && d.events == evs + pre)
      && (next.Some? ==> d == DropPhase(backup, next.value, evs + pre + [Drop(ms[0].table)], ms[1..], keep))
  {
    var b := if keep then backup(h, ms[0]) else Done(h, None);
    next := if b.error.None? then Some(b.history + [DropTableIfExists(ms[0].table)]) else None;
  }

  /** A prefix of a prefix is a prefix. */
  lemma PrefixTrans<T>(a: seq<T>, b: seq<T>, c: seq<T>)
    requires a <= b && b <= c
    ensures a <= c
  {
    assert c[..|a|] == c[..|b|][..|a|];
  }

  /** The create phase takes its steps in order and no others, like the drop
      phase. */
  lemma {:induction false} CreatePhaseEvents(answer: (seq<Statement>, Statement) -> Response,
                                             render: (Option<string>, seq<TableOp>) -> string,
                                             h: seq<Statement>, evs: seq<SyncEvent>, ms: seq<ModelSchema>)
    ensures var c := CreatePhase(answer, render, h, evs, ms);
      && evs <= c.events && c.events <= evs + CreateEvents(ms)
      && (c.error.None? ==> c.events == evs + CreateEvents(ms))
    decreases |ms|
  {
    if |ms| > 0 {
      var evs1 := evs + [Create(ms[0].table)];
      var rest := CreateEvents(ms[1..]);
      assert evs + CreateEvents(ms) == evs1 + rest by {
        assert CreateEvents(ms) == [Create(ms[0].table)] + rest;
      }
      var next := CreatePhaseNext(answer, render, h, evs, ms);
      if next.Some? {
        CreatePhaseEvents(answer, render, next.value, evs1, ms[1..]);
        PrefixTrans(evs, evs1, CreatePhase(answer, render, next.value, evs1, ms[1..]).events);
      }
    }
  }

  /** One step of the create phase: it either throws with its step recorded,
      or goes on to the next model from the history it left. */
  lemma CreatePhaseNext(answer: (seq<Statement>, Statement) -> Response,
                        render: (Option<string>, seq<TableOp>) -> string,
                        h: seq<Statement>, evs: seq<SyncEvent>, ms: seq<ModelSchema>)
    returns (next: Option<seq<Statement>>)
    requires |ms| > 0
    ensures var c := CreatePhase(answer, render, h, evs, ms);
      && (next.None? ==> c.error.Some? && c.events == evs + [Create(ms[0].table)])
      && (next.Some? ==> c == CreatePhase(answer, render, next.value, evs + [Create(ms[0].table)], ms[1..]))
  {
    var c := CreateSpec(answer, render, h, ms[0]);
    next := if c.error.None? then Some(c.history) else None;
  }

  /**
   * A sync takes the steps of its plan in order and no others: what it did is
   * always a prefix of the plan, and all of it when nothing threw.
   */
  lemma SyncFollowsPlan(quote: string -> string, answer: (seq<Statement>, Statement) -> Response,
                        render: (Option<string>, seq<TableOp>) -> string,
                        h: seq<Statement>, reg: seq<ModelSchema>, drop: bool, keep: bool)
    ensures var s := SyncSpec(quote, answer, render, h, reg, drop, keep);
      && s.events <= SyncPlan(reg, drop, keep)
      && (s.error.None? ==> s.events == SyncPlan(reg, drop, keep))
  {
    var drops := if drop then DropEvents(Reverse(reg), keep) else [];
    var d := if drop then DropPhase(Backups(quote, answer, render), h, [], Reverse(reg), keep) else Synced([], h, None);
    if drop {
      DropPhaseEvents(Backups(quote, answer, render), h, [], Reverse(reg), keep);
      assert [] + drops == drops;
    }
    AfterDropsEvents(answer, render, reg, d, drops);
  }

  /** A backup as the drop phase sees it, as the code writes it. */
  function BackupsAsWritten(quote: string -> string, answer: (seq<Statement>, Statement) -> Response,
                            render: (Option<string>, seq<TableOp>) -> string): (seq<Statement>, ModelSchema) -> Done
  {
    (h: seq<Statement>, m: ModelSchema) => BackupSpecAsWritten(quote, answer, render, h, m)
  }

  /**
   * As written, `sync({drop: true, keepData: true})` stops at the model it
   * backs up first, the one registered last, when its table has rows: the
   * backup throws, that table is never dropped and no table is created, so
   * only the first step of the plan is taken.
   */
  lemma SyncAsWrittenAborts(quote: string -> string, answer: (seq<Statement>, Statement) -> Response,
                            render: (Option<string>, seq<TableOp>) -> string,
                            h: seq<Statement>, reg: seq<ModelSchema>)
    requires |reg| > 0
    requires |answer(h, Select(SelectOf(reg[|reg| - 1].table, Initial))).rows| > 0
    requires CreatePlan(reg[|reg| - 1]).Success?
    ensures var d := DropPhase(BackupsAsWritten(quote, answer, render), h, [], Reverse(reg), true);
      var s := AfterDrops(answer, render, reg, d);
      && s.error.Some? && s.error.value.TypeError?
      && s.events == [Backup(reg[|reg| - 1].table)]
      && s.events < SyncPlan(reg, true, true)
  {
    var last := reg[|reg| - 1];
    DropPhaseAsWrittenStops(quote, answer, render, h, reg);
    SyncPlanDrops(reg, true, |reg| - 1);
    assert SyncPlan(reg, true, true)[0] == Backup(last.table);
  }

  /** The first step of the as-written drop phase with data kept is the backup
      of the model registered last, and with rows in its table it throws. */
  lemma DropPhaseAsWrittenStops(quote: string -> string, answer: (seq<Statement>, Statement) -> Response,
                                render: (Option<string>, seq<TableOp>) -> string,
                                h: seq<Statement>, reg: seq<ModelSchema>)
    requires |reg| > 0
    requires |answer(h, Select(SelectOf(reg[|reg| - 1].table, Initial))).rows| > 0
    requires CreatePlan(reg[|reg| - 1]).Success?
    ensures var d := DropPhase(BackupsAsWritten(quote, answer, render), h, [], Reverse(reg), true);
      && d.error.Some? && d.error.value.TypeError?
      && d.events == [Backup(reg[|reg| - 1].table)]
  {
    var last := reg[|reg| - 1];
    assert Reverse(reg)[0] == last;
    BackupAsWrittenThrows(quote, answer, render, h, last);
    assert BackupsAsWritten(quote, answer, render)(h, last) == BackupSpecAsWritten(quote, answer, render, h, last);
  }


  /** The create phase extends whatever prefix of the drop steps was taken,
      unless a drop step threw. */
  lemma AfterDropsEvents(answer: (seq<Statement>, Statement) -> Response,
                         render: (Option<string>, seq<TableOp>) -> string,
                         reg: seq<ModelSchema>, d: Synced, drops: seq<SyncEvent>)
    requires d.events <= drops && (d.error.None? ==> d.events == drops)
    ensures var s := AfterDrops(answer, render, reg, d);
      && s.events <= drops + CreateEvents(reg)
      && (s.error.None? ==> s.events == drops + CreateEvents(reg))
  {
    if d.error.None? {
      CreatePhaseEvents(answer, render, d.history, d.events, reg);
    } else {
      assert drops <= drops + CreateEvents(reg);
    }
  }

  // ---------------------------------------------------------------------
  // Connections by slug
  // ---------------------------------------------------------------------

  /** The slug `connect` registers under, given the slugs already taken: a
      truthy slug must be new; none, or "", means the default one. */
  function ConnectSlug(taken: set<string>, slug: Option<string>): (r: Result<string, Error>)
    ensures r.Failure? <==> TruthyText(slug) && slug.value in taken
    ensures r.Failure? ==> r.error == SlugTaken(slug.value)
    ensures r.Success? ==> r.value == if TruthyText(slug) then slug.value else DefaultSlug
  {
    if TruthyText(slug) then
      if slug.value in taken then Failure(SlugTaken(slug.value)) else Success(slug.value)
    else Success(DefaultSlug)
  }

  /** Only an explicit slug is checked for clashes: connecting without one
      replaces the default connection silently, while asking for "default" by
      name when it exists throws. */
  lemma DefaultAlwaysOverwrites(taken: set<string>)
    requires DefaultSlug in taken
    ensures ConnectSlug(taken, None) == Success(DefaultSlug)
    ensures ConnectSlug(taken, Some("")) == Success(DefaultSlug)
    ensures ConnectSlug(taken, Some(DefaultSlug)).Failure?
  {
  }

  // ---------------------------------------------------------------------
  // The database object
  // ---------------------------------------------------------------------

  class Database {
    /** The client and the query renderer, opened by `connect`. */
    const conn: Connection
    /** The slug this connection is registered under. */
    var slug: string
    /** The attached models, keyed by name, in insertion order. */
    var models: seq<ModelSchema>

    constructor (conn: Connection)
      ensures this.conn == conn && slug == DefaultSlug && models == []
    {
      this.conn := conn;
      slug := DefaultSlug;
      models := [];
    }

    /** `runSql(query)`: the script's parts, executed one by one. */
    method RunSql(script: string) returns (rows: Option<seq<Record>>)
      modifies conn
      ensures var spec := RunScript(conn.answer, old(conn.history), script);
        conn.history == spec.history && rows == spec.rows
    {
      var parts := ScriptParts(script);
      ghost var target := RunScript(conn.answer, conn.history, script);
      rows := None;
      for k := 0 to |parts|
        invariant RunParts(conn.answer, conn.history, parts[k..], rows) == target
      {
        assert parts[k..][1..] == parts[k + 1..];
        var resp := conn.Run(Execute(parts[k]));
        rows := Some(resp.rows);
      }
    }

    /** `_createTable(model)`. */
    method CreateTable(m: ModelSchema) returns (err: Option<Error>)
      modifies conn
      ensures var spec := CreateSpec(conn.answer, conn.render, old(conn.history), m);
        conn.history == spec.history && err == spec.error
    {
      var plan := CreatePlan(m);
      if plan.Failure? {
        return Some(plan.error);
      }
      var _ := RunSql(conn.render(m.table, plan.value));
      err := None;
    }

    /** `_tableExists(model)`: whether the existence query returned any row. */
    method TableExists(m: ModelSchema) returns (exists_: bool)
      modifies conn
      ensures conn.history == old(conn.history) + [HasTable(m.table)]
      ensures exists_ <==> |conn.answer(old(conn.history), HasTable(m.table)).rows| > 0
    {
      var resp := conn.Run(HasTable(m.table));
      exists_ := |resp.rows| > 0;
    }

    /** `_dropTable(model)`. */
    method DropTable(m: ModelSchema)
      modifies conn
      ensures conn.history == old(conn.history) + [DropTableIfExists(m.table)]
    {
      var _ := conn.Run(DropTableIfExists(m.table));
    }

    /** `_backupTable(model)`, inserting the fetched rows. */
    method BackupTable(m: ModelSchema) returns (err: Option<Error>)
      modifies conn
      ensures var spec := BackupSpec(conn.quote, conn.answer, conn.render, old(conn.history), m);
        conn.history == spec.history && err == spec.error
    {
      var source := new Builder(m, conn);
      JoinResolver.FetchWithoutJoins(conn.quote, conn.answer, conn.history, source.from, source.State());
      var data := source.Fetch();
      assert data.Success?;
      if |data.value.result.All()| == 0 {
        return None;
      }
      var backup := BackupModel(m);
      DropTable(backup);
      err := CreateTable(backup);
      if err.Some? {
        return;
      }
      var target := new Builder(backup, conn);
      var r := target.Insert(BackupInsert(data.value.result));
      if r.Failure? {
        err := Some(r.error);
      }
    }

    /** `attachModels(...ms)`. Models are values here, so the models as
        attaching changed them are handed back. */
    method AttachModels(ms: seq<ModelSchema>) returns (bound: seq<ModelSchema>, err: Option<Error>)
      modifies this
      ensures var spec := AttachAll(old(models), ms);
        models == spec.registry && bound == spec.bound && err == spec.error
      ensures slug == old(slug)
    {
      ghost var spec := AttachAll(models, ms);
      bound := [];
      err := None;
      var k := 0;
      while k < |ms|
        invariant k <= |ms|
        invariant var rest := AttachAll(models, ms[k..]);
          spec == AttachRun(rest.registry, bound + rest.bound, rest.error)
        invariant err.None? && slug == old(slug)
      {
        var a := Validate(ms[k]);
        if a.error.Some? {
          assert AttachAll(models, ms[k..]) == AttachRun(models, [a.model], a.error) by {
            AttachAllStep(models, ms[k..]);
            assert ms[k..][0] == ms[k];
          }
          bound := bound + [a.model];
          err := a.error;
          return;
        }
        ghost var rest := AttachAll(Put(models, a.model), ms[k + 1..]);
        assert AttachAll(models, ms[k..]) == AttachRun(rest.registry, [a.model] + rest.bound, rest.error) by {
          AttachAllStep(models, ms[k..]);
          assert ms[k..][0] == ms[k] && ms[k..][1..] == ms[k + 1..];
        }
        assert bound + ([a.model] + rest.bound) == bound + [a.model] + rest.bound;
        bound := bound + [a.model];
        models := Put(models, a.model);
        k := k + 1;
      }
      assert bound + [] == bound;
    }

    /** `sync({drop, keepData})`: drop every model's table, last attached
        first, backing it up first when asked, then create them all in order. */
    method Sync(drop: bool, keepData: bool) returns (err: Option<Error>)
      modifies conn
      ensures var spec := SyncSpec(conn.quote, conn.answer, conn.render, old(conn.history), models, drop, keepData);
        conn.history == spec.history && err == spec.error
    {
      ghost var d := if drop then DropPhase(Backups(conn.quote, conn.answer, conn.render), conn.history, [], Reverse(models), keepData)
                     else Synced([], conn.history, None);
      if drop {
        err := DropAll(keepData);
        if err.Some? {
          return;
        }
      }
      err := CreateAll(d.events);
    }

    /** The first loop of `sync`: over the models in reverse, an optional
        backup, then the drop. */
    method DropAll(keepData: bool) returns (err: Option<Error>)
      modifies conn
      ensures var d := DropPhase(Backups(conn.quote, conn.answer, conn.render), old(conn.history), [], Reverse(models), keepData);
        conn.history == d.history && err == d.error
    {
      ghost var target := DropPhase(Backups(conn.quote, conn.answer, conn.render), conn.history, [], Reverse(models), keepData);
      ghost var evs: seq<SyncEvent> := [];
      var rev := Reverse(models);
      var k := 0;
      while k < |rev|
        invariant k <= |rev|
        invariant DropPhase(Backups(conn.quote, conn.answer, conn.render), conn.history, evs, rev[k..], keepData) == target
      {
        var m := rev[k];
        assert rev[k..][1..] == rev[k + 1..];
        ghost var h0, evs0 := conn.history, evs;
        if keepData {
          evs := evs + [Backup(m.table)];
          err := BackupTable(m);
          if err.Some? {
            return;
          }
        }
        assert evs == evs0 + (if keepData then [Backup(m.table)] else []);
        assert conn.history ==
          (if keepData then BackupSpec(conn.quote, conn.answer, conn.render, h0, m) else Done(h0, None)).history;
        DropTable(m);
        evs := evs + [Drop(m.table)];
        k := k + 1;
      }
      err := None;
    }

    /** The second loop of `sync`: every model's table created, in order. */
    method CreateAll(ghost evs: seq<SyncEvent>) returns (err: Option<Error>)
      modifies conn
      ensures var c := CreatePhase(conn.answer, conn.render, old(conn.history), evs, models);
        conn.history == c.history && err == c.error
    {
      ghost var target := CreatePhase(conn.answer, conn.render, conn.history, evs, models);
      ghost var done := evs;
      var k := 0;
      while k < |models|
        invariant k <= |models|
        invariant CreatePhase(conn.answer, conn.render, conn.history, done, models[k..]) == target
      {
        var m := models[k];
        assert models[k..][1..] == models[k + 1..];
        err := CreateTable(m);
        done := done + [Create(m.table)];
        if err.Some? {
          return;
        }
        k := k + 1;
      }
      err := None;
    }
  }

  /** `Database.instances`: every connection by slug. */
  class Instances {
    var instances: map<string, Database>

    constructor ()
      ensures instances == map[]
    {
      instances := map[];
    }

    /** `Database.connect(options, engine, slug)`, with the opened client given
        as `conn`. */
    method Connect(conn: Connection, slug: Option<string>) returns (r: Result<Database, Error>)
      modifies this
      ensures var s := ConnectSlug(old(instances).Keys, slug);
        && (s.Failure? ==> r == Failure(s.error) && instances == old(instances))
        && (s.Success? ==>
              && r.Success? && fresh(r.value)
              && r.value.conn == conn && r.value.slug == s.value && r.value.models == []
              && instances == old(instances)[s.value := r.value])
    {
      var db := new Database(conn);
      if TruthyText(slug) {
        if slug.value in instances {
          return Failure(SlugTaken(slug.value));
        }
        db.slug := slug.value;
      }
      instances := instances[db.slug := db];
      r := Success(db);
    }

    /** `Database.getInstance(model)`: the connection under the model's slug,
        looked up as "undefined" when the slug is unset. */
    function GetInstance(m: ModelSchema): (r: Option<Database>)
      reads this
      ensures r.Some? <==> OrUndefined(m.dbConnSlug) in instances
      ensures r.Some? ==> r.value == instances[OrUndefined(m.dbConnSlug)]
    {
      var key := OrUndefined(m.dbConnSlug);
      if key in instances then Some(instances[key]) else None
    }
  }
}
