/**
 * The query builder: a mutable object that collects a select list, predicates,
 * join chains and paging, and the operations that run it (fetch, insert,
 * update, delete). Every operation that talks to the database is proved
 * against a specification function of the connection's history.
 */
module QueryBuilder {

  import opened Wrappers
  import opened Values
  import opened Schema
  import opened Client
  import opened QueryState
  import opened JoinResolver
  import opened QueryResults

  /** What `whereRaw` accepts: one condition, or a list of them. */
  datatype RawCondition = OneCondition(c: string) | ConditionList(cs: seq<string>) {
    /** A single condition is treated as a one-element list. */
    function AsList(): (r: seq<string>)
      ensures OneCondition? ==> r == [c]
      ensures ConditionList? ==> r == cs
    {
      match this
      case OneCondition(c) => [c]
      case ConditionList(cs) => cs
    }
  }

  /** What `insert` accepts: one record, or a list of them. */
  datatype InsertData = OneRow(row: Record) | RowList(rows: seq<Record>) {
    /** A single record is treated as a one-element list. */
    function Rows(): (r: seq<Record>)
      ensures OneRow? ==> r == [row]
      ensures RowList? ==> r == rows
    {
      match this
      case OneRow(row) => [row]
      case RowList(rows) => rows
    }
  }

  /** What `insert` returns: one entity when exactly one row was supplied,
      otherwise the re-fetched result. */
  datatype Inserted = Single(row: Option<Record>) | Every(result: QueryResult<Record>)

  class Builder {
    /** The model the builder queries. */
    const model: ModelSchema
    /** The table the SELECT reads, fixed to the model's table when the builder is made. */
    const from: Option<string>
    /** The connection the model's slug resolves to. */
    const conn: Connection

    var selects: seq<string>
    var wheres: seq<string>
    var joins: seq<seq<FieldSchema>>
    var limit: Option<int>
    var offset: Option<int>

    /** Everything the builder has collected. */
    function State(): BuilderState
      reads this
    {
      BuilderState(selects, wheres, joins, limit, offset)
    }

    constructor (model: ModelSchema, conn: Connection)
      ensures this.model == model && from == model.table && this.conn == conn
      ensures State() == Initial
    {
      this.model := model;
      this.from := model.table;
      this.conn := conn;
      selects := [];
      wheres := [];
      joins := [];
      limit := None;
      offset := None;
    }

    /** `select(fields)`: appends the fields, in order. */
    method Select(fields: seq<string>)
      modifies this
      ensures State() == old(State()).(selects := old(selects) + fields)
    {
      for k := 0 to |fields|
        invariant State() == old(State()).(selects := old(selects) + fields[..k])
      {
        selects := selects + [fields[k]];
        assert fields[..k + 1] == fields[..k] + [fields[k]];
      }
      assert fields[..|fields|] == fields;
    }

    /**
     * `where(alias, op, value)`: renders one predicate and appends it. The
     * operator "IN" needs an array; any other operand makes it throw before
     * anything is appended.
     */
    method Where(alias: string, op: string, x: Operand) returns (err: Option<Error>)
      modifies this
      ensures match AddWhere(old(State()), conn.quote, alias, op, x)
        case Success(s) => err.None? && State() == s
        case Failure(e) => err == Some(e) && State() == old(State())
    {
      var d := DismemberField(alias);
      var v: string;
      if op == "IN" {
        if x.Scalar? {
          return Some(TypeError("value.join is not a function"));
        }
        v := "('" + JoinText(x.vs) + "')";
      } else if x == Scalar(Null) {
        v := "NULL";
      } else {
        v := "'" + OperandText(x) + "'";
      }
      wheres := wheres + [conn.quote(OrUndefined(d.table) + "." + d.field) + " " + op + " " + v];
      err := None;
    }

    /** `whereIs(field, value)`: a "=" predicate. */
    method WhereIs(field: string, v: Value)
      modifies this
      ensures State() == AddWhere(old(State()), conn.quote, field, "=", Scalar(v)).value
    {
      var _ := Where(field, "=", Scalar(v));
    }

    /** `whereNull(field)`: the operator " IS " with a null value. */
    method WhereNull(field: string)
      modifies this
      ensures State() == AddWhere(old(State()), conn.quote, field, " IS ", Scalar(Null)).value
    {
      var _ := Where(field, " IS ", Scalar(Null));
    }

    method WhereGreater(field: string, v: Value)
      modifies this
      ensures State() == AddWhere(old(State()), conn.quote, field, ">", Scalar(v)).value
    {
      var _ := Where(field, ">", Scalar(v));
    }

    method WhereGreaterOrEqual(field: string, v: Value)
      modifies this
      ensures State() == AddWhere(old(State()), conn.quote, field, ">=", Scalar(v)).value
    {
      var _ := Where(field, ">=", Scalar(v));
    }

    method WhereLower(field: string, v: Value)
      modifies this
      ensures State() == AddWhere(old(State()), conn.quote, field, "<", Scalar(v)).value
    {
      var _ := Where(field, "<", Scalar(v));
    }

    method WhereLowerOrEqual(field: string, v: Value)
      modifies this
      ensures State() == AddWhere(old(State()), conn.quote, field, "<=", Scalar(v)).value
    {
      var _ := Where(field, "<=", Scalar(v));
    }

    /** `whereIn(field, values)`: passes " IN", which is not the operator "IN". */
    method WhereIn(field: string, vs: seq<Value>)
      modifies this
      ensures State() == AddWhere(old(State()), conn.quote, field, " IN", Array(vs)).value
    {
      var _ := Where(field, " IN", Array(vs));
    }

    /** `whereLike(field, expr)`: the operator " LIKE ". */
    method WhereLike(field: string, expr: string)
      modifies this
      ensures State() == AddWhere(old(State()), conn.quote, field, " LIKE ", Scalar(Str(expr))).value
    {
      var _ := Where(field, " LIKE ", Scalar(Str(expr)));
    }

    /** `wherePk(pk)`: one predicate on the model's primary field, and a limit. */
    method WherePk(pk: Operand) returns (err: Option<Error>)
      modifies this
      ensures match AddPk(old(State()), conn.quote, model, pk)
        case Success(s) => err.None? && State() == s
        case Failure(e) => err == Some(e) && State() == old(State())
    {
      var pf := GetPrimaryField(model);
      if pf.Failure? {
        return Some(pf.error);
      }
      if pf.value.None? {
        return Some(TypeError("cannot read '_name' of undefined"));
      }
      if pf.value.value.name.None? {
        return Some(TypeError("cannot read properties of undefined (reading 'split')"));
      }
      var name := NameText(pf.value.value);
      if pk.Array? {
        WhereIn(name, pk.vs);
        Limit(|pk.vs|);
      } else {
        WhereIs(name, pk.v);
        Limit(1);
      }
      err := None;
    }

    /** `whereRaw(condition)`: appends the conditions verbatim, in order. */
    method WhereRaw(condition: RawCondition)
      modifies this
      ensures State() == old(State()).(wheres := old(wheres) + condition.AsList())
    {
      wheres := wheres + condition.AsList();
    }

    /** `join(...fields)`: appends one chain; the predicates stay as they are. */
    method Join(fields: seq<FieldSchema>)
      modifies this
      ensures State() == old(State()).(joins := old(joins) + [fields])
    {
      joins := joins + [fields];
    }

    /** `limit(n)`: replaces any earlier limit. */
    method Limit(n: int)
      modifies this
      ensures State() == old(State()).(limit := Some(n))
    {
      limit := Some(n);
    }

    /** `offset(n)`: replaces any earlier offset. */
    method Offset(n: int)
      modifies this
      ensures State() == old(State()).(offset := Some(n))
    {
      offset := Some(n);
    }

    /**
     * `fetch()`: runs the SELECT, then walks every join chain on every row,
     * attaching looked-up entities under `<field>_model` and caching lookups
     * for this call only.
     */
    method Fetch() returns (r: Result<Fetched, Error>)
      modifies conn
      decreases (if joins == [] then 0 else 1), 1
      ensures var spec := FetchSpec(conn.quote, conn.answer, old(conn.history), from, State());
        && conn.history == spec.w.history
        && r == (if spec.error.Some? then Failure(spec.error.value) else Success(FetchedOf(spec)))
    {
      ghost var target := FetchSpec(conn.quote, conn.answer, conn.history, from, State());
      var resp := conn.Run(Statement.Select(SelectOf(from, State())));
      var rows := resp.rows;
      var cache: map<CacheKey, Option<Record>> := map[];
      ghost var lookups: seq<Lookup> := [];
      ghost var n := |rows|;
      var i := 0;
      while i < |rows|
        invariant i <= |rows| == n
        invariant Rows(conn.quote, conn.answer, Walk(rows, cache, conn.history, lookups), joins, i) == target
      {
        var err;
        rows, cache, lookups, err := WalkJoins(conn, rows, cache, lookups, i, joins);
        if err.Some? {
          return Failure(err.value);
        }
        i := i + 1;
      }
      r := Success(Fetched(QueryResult(rows), cache));
    }

    /** `fetchFirst()`: the first row of `fetch()`, nothing when there is none. */
    method FetchFirst() returns (r: Result<Option<Record>, Error>)
      modifies conn
      decreases (if joins == [] then 0 else 1), 2
      ensures var spec := FetchSpec(conn.quote, conn.answer, old(conn.history), from, State());
        && conn.history == spec.w.history
        && r == (if spec.error.Some? then Failure(spec.error.value) else Success(QueryResult(spec.w.rows).First()))
    {
      var f := Fetch();
      if f.Failure? {
        return Failure(f.error);
      }
      r := Success(f.value.result.First());
    }

    /**
     * `insert(data)`: one INSERT per row, recording `lastInsertId ?? row[pk]`,
     * then a re-fetch of every recorded id through `wherePk`.
     */
    method Insert(data: InsertData) returns (r: Result<Inserted, Error>)
      modifies conn
      ensures var spec := InsertSpec(conn.quote, conn.answer, old(conn.history), model, data);
        conn.history == spec.history && r == spec.result
    {
      var rows := data.Rows();
      var ids, err := InsertAll(rows);
      if err.Some? {
        return Failure(err.value);
      }
      var again := Q(model, conn);
      var e := again.WherePk(Array(ids));
      if e.Some? {
        return Failure(e.value);
      }
      FetchWithoutJoins(conn.quote, conn.answer, conn.history, again.from, again.State());
      var res := again.Fetch();
      assert res.Success?;
      r := Success(InsertReturn(|rows|, res.value.result));
    }

    /** The insert loop: each row inserted in turn and its id recorded; the
        first row whose id cannot be read throws. */
    method InsertAll(rows: seq<Record>) returns (ids: seq<Value>, err: Option<Error>)
      modifies conn
      ensures var run := Inserts(conn.answer, old(conn.history), model, rows, []);
        conn.history == run.history && ids == run.ids && err == run.error
    {
      ghost var target := Inserts(conn.answer, conn.history, model, rows, []);
      ids := [];
      var k := 0;
      while k < |rows|
        invariant k <= |rows|
        invariant Inserts(conn.answer, conn.history, model, rows[k..], ids) == target
      {
        assert rows[k..][1..] == rows[k + 1..];
        var id := InsertOne(rows[k]);
        if id.Failure? {
          return ids, Some(id.error);
        }
        ids := ids + [id.value];
        k := k + 1;
      }
      err := None;
    }

    /** One pass of the insert loop: the row's INSERT, then the id to record
        for it. */
    method InsertOne(row: Record) returns (id: Result<Value, Error>)
      modifies conn
      ensures conn.history == old(conn.history) + [InsertRow(model.table, row)]
      ensures id == InsertedId(model, row, conn.answer(old(conn.history), InsertRow(model.table, row)))
    {
      var resp := conn.Run(InsertRow(model.table, row));
      if resp.lastInsertId.Some? && !Nullish(resp.lastInsertId.value) {
        return Success(resp.lastInsertId.value);
      }
      var pf := GetPrimaryField(model);
      if pf.Failure? {
        return Failure(pf.error);
      }
      if pf.value.None? {
        return Failure(TypeError("cannot read '_name' of undefined"));
      }
      id := Success(Prop(row, NameText(pf.value.value)));
    }

    /** `update(patch)`: one UPDATE under the builder's predicates, then a
        re-fetch with the same predicates. */
    method Update(patch: Record) returns (r: QueryResult<Record>)
      modifies conn
      ensures var spec := Refetched(conn.answer, old(conn.history), model, UpdateRows(model.table, patch, wheres), wheres);
        conn.history == spec.history && Success(r) == spec.result
    {
      var _ := conn.Run(UpdateRows(model.table, patch, wheres));
      r := RefetchWhere(conn, model, wheres);
    }

    /** `delete()`: one DELETE under the builder's predicates, then a re-fetch
        with the same predicates. */
    method Delete() returns (r: QueryResult<Record>)
      modifies conn
      ensures var spec := Refetched(conn.answer, old(conn.history), model, DeleteRows(model.table, wheres), wheres);
        conn.history == spec.history && Success(r) == spec.result
    {
      var _ := conn.Run(DeleteRows(model.table, wheres));
      r := RefetchWhere(conn, model, wheres);
    }
  }

  /** `Model.q()`: a new builder on the model's table with nothing collected. */
  method Q(m: ModelSchema, conn: Connection) returns (b: Builder)
    ensures fresh(b) && b.model == m && b.from == m.table && b.conn == conn
    ensures b.State() == Initial
  {
    b := new Builder(m, conn);
  }

  /** `new QueryBuilder(model).whereRaw(wheres).fetch()`. */
  method RefetchWhere(conn: Connection, m: ModelSchema, wheres: seq<string>) returns (r: QueryResult<Record>)
    modifies conn
    ensures var q := SelectOf(m.table, Initial.(wheres := wheres));
      && conn.history == old(conn.history) + [Select(q)]
      && r == QueryResult(conn.answer(old(conn.history), Select(q)).rows)
  {
    var again := Q(m, conn);
    again.WhereRaw(ConditionList(wheres));
    assert again.State() == Initial.(wheres := wheres);
    FetchWithoutJoins(conn.quote, conn.answer, conn.history, again.from, again.State());
    var res := again.Fetch();
    assert res.Success?;
    r := res.value.result;
  }

  /** Every join chain walked from row `i`, in order; the first chain that
      throws stops it. */
  method WalkJoins(conn: Connection, rows: seq<Record>, cache: map<CacheKey, Option<Record>>, ghost lookups: seq<Lookup>,
                   i: nat, joins: seq<seq<FieldSchema>>)
    returns (rows': seq<Record>, cache': map<CacheKey, Option<Record>>, ghost lookups': seq<Lookup>, err: Option<Error>)
    requires i < |rows|
    modifies conn
    decreases (if joins == [] then 0 else 1), 0
    ensures var r := Joins(conn.quote, conn.answer, Walk(rows, cache, old(conn.history), lookups), joins, i, 0);
      r.w == Walk(rows', cache', conn.history, lookups') && r.error == err
  {
    ghost var target := Joins(conn.quote, conn.answer, Walk(rows, cache, conn.history, lookups), joins, i, 0);
    rows', cache', lookups' := rows, cache, lookups;
    var j := 0;
    while j < |joins|
      invariant j <= |joins| && i < |rows'|
      invariant Joins(conn.quote, conn.answer, Walk(rows', cache', conn.history, lookups'), joins, i, j) == target
    {
      rows', cache', lookups', err := WalkChain(conn, rows', cache', lookups', i, joins[j]);
      if err.Some? {
        return;
      }
      j := j + 1;
    }
    err := None;
  }

  /** One join chain walked from row `i`, hop by hop; the first hop that
      throws stops it. */
  method WalkChain(conn: Connection, rows: seq<Record>, cache: map<CacheKey, Option<Record>>, ghost lookups: seq<Lookup>,
                   i: nat, chain: seq<FieldSchema>)
    returns (rows': seq<Record>, cache': map<CacheKey, Option<Record>>, ghost lookups': seq<Lookup>, err: Option<Error>)
    requires i < |rows|
    modifies conn
    decreases 0, 6
    ensures var c := Chain(conn.quote, conn.answer, Walk(rows, cache, old(conn.history), lookups), AtRow(i), chain, 0);
      c.w == Walk(rows', cache', conn.history, lookups') && c.error == err
  {
    ghost var target := Chain(conn.quote, conn.answer, Walk(rows, cache, conn.history, lookups), AtRow(i), chain, 0);
    rows', cache', lookups' := rows, cache, lookups;
    var cursor := AtRow(i);
    var k := 0;
    while k < |chain|
      invariant k <= |chain|
      invariant CursorOk(Walk(rows', cache', conn.history, lookups'), cursor)
      invariant Chain(conn.quote, conn.answer, Walk(rows', cache', conn.history, lookups'), cursor, chain, k) == target
    {
      rows', cache', lookups', cursor, err := ResolveHop(conn, rows', cache', lookups', cursor, chain[k]);
      if err.Some? {
        return;
      }
      k := k + 1;
    }
    err := None;
  }

  /** One hop of a join chain, on the fetch's rows and cache. */
  method ResolveHop(conn: Connection, rows: seq<Record>, cache: map<CacheKey, Option<Record>>, ghost lookups: seq<Lookup>,
                    cursor: Cursor, f: FieldSchema)
    returns (rows': seq<Record>, cache': map<CacheKey, Option<Record>>, ghost lookups': seq<Lookup>,
             cursor': Cursor, err: Option<Error>)
    requires CursorOk(Walk(rows, cache, conn.history, lookups), cursor)
    modifies conn
    decreases 0, 5
    ensures Hop(conn.quote, conn.answer, Walk(rows, cache, old(conn.history), lookups), cursor, f)
      == Walked(Walk(rows', cache', conn.history, lookups'), cursor', err)
  {
    var name := NameText(f);
    rows', cache', lookups', cursor' := rows, cache, lookups, cursor;
    if cursor.AtUndefined? {
      err := Some(TypeError("cannot read property '" + name + "' of undefined"));
      return;
    }
    var id := if cursor.AtRow? then Prop(rows[cursor.i], name) else Prop(cache[cursor.key].value, name);
    if !Truthy(id) {
      err := Some(JoinFailed(name));
      return;
    }
    var key := CacheKey(RefModelName(f), name, ValueText(id));
    cache', lookups', err := LookUpEntity(conn, rows, cache, lookups, key, f, id);
    if err.Some? {
      return;
    }
    var found := cache'[key].Some?;
    var attached := if found then Entity(key) else Undefined;
    if cursor.AtRow? {
      rows' := rows[cursor.i := rows[cursor.i][name + "_model" := attached]];
    } else {
      cache' := cache'[cursor.key := Some(cache'[cursor.key].value[name + "_model" := attached])];
    }
    cursor' := if found then AtEntity(key) else AtUndefined;
  }

  /** The cached lookup of one key; on a miss, the nested
      `model.q().wherePk(id).fetchFirst()`. */
  method LookUpEntity(conn: Connection, rows: seq<Record>, cache: map<CacheKey, Option<Record>>, ghost lookups: seq<Lookup>,
                      key: CacheKey, f: FieldSchema, id: Value)
    returns (cache': map<CacheKey, Option<Record>>, ghost lookups': seq<Lookup>, err: Option<Error>)
    modifies conn
    decreases 0, 4
    ensures LookUp(conn.quote, conn.answer, Walk(rows, cache, old(conn.history), lookups), key, f, id)
      == Resolved(Walk(rows, cache', conn.history, lookups'), err)
  {
    cache', lookups', err := cache, lookups, None;
    if key in cache && cache[key].Some? {
      return;
    }
    if f.reference.None? {
      cache' := cache[key := None];
      return;
    }
    var nested := Q(f.reference.value.model, conn);
    var e := nested.WherePk(Scalar(id));
    if e.Some? {
      err := e;
      return;
    }
    FetchWithoutJoins(conn.quote, conn.answer, conn.history, nested.from, nested.State());
    var first := nested.FetchFirst();
    assert first.Success?;
    cache' := cache[key := first.value];
    lookups' := lookups + [Lookup(key, first.value.Some?)];
  }

  // ---------------------------------------------------------------------
  // Specifications of insert, update and delete
  // ---------------------------------------------------------------------

  /** The client's last insert id when it reports one that is neither null
      nor undefined. */
  predicate HasInsertId(resp: Response) {
    resp.lastInsertId.Some? && !Nullish(resp.lastInsertId.value)
  }

  /** The id recorded for one inserted row: the client's last insert id, or,
      when that is missing, null or undefined, the row's own primary-key value. */
  function InsertedId(m: ModelSchema, row: Record, resp: Response): (r: Result<Value, Error>)
    ensures HasInsertId(resp) ==> r == Success(resp.lastInsertId.value)
    ensures !HasInsertId(resp) ==>
      (r.Success? <==> GetPrimaryField(m).Success? && GetPrimaryField(m).value.Some?)
    ensures !HasInsertId(resp) && r.Success? ==>
      r.value == Prop(row, NameText(GetPrimaryField(m).value.value))
  {
    if HasInsertId(resp) then Success(resp.lastInsertId.value)
    else
      match GetPrimaryField(m)
      case Failure(e) => Failure(e)
      case Success(None) => Failure(TypeError("cannot read '_name' of undefined"))
      case Success(Some(f)) => Success(Prop(row, NameText(f)))
  }

  /** Where the insert loop stopped: the history, the ids recorded, and the
      error if it threw. */
  datatype InsertRun = InsertRun(history: seq<Statement>, ids: seq<Value>, error: Option<Error>)

  /** One INSERT per row, in order. */
  function InsertRows(table: Option<string>, rows: seq<Record>): (r: seq<Statement>)
    ensures |r| == |rows| && forall n :: 0 <= n < |rows| ==> r[n] == InsertRow(table, rows[n])
  {
    seq(|rows|, n requires 0 <= n < |rows| => InsertRow(table, rows[n]))
  }

  /**
   * The insert loop over `rows`, starting from history `h` with `ids` already
   * recorded: one INSERT per row, in order, each followed by recording its id.
   */
  function Inserts(answer: (seq<Statement>, Statement) -> Response, h: seq<Statement>, m: ModelSchema,
                   rows: seq<Record>, ids: seq<Value>): (r: InsertRun)
    ensures h <= r.history && ids <= r.ids
    ensures |r.history| - |h| == |r.ids| - |ids| + (if r.error.Some? then 1 else 0) <= |rows|
    ensures r.error.None? ==> |r.ids| == |ids| + |rows|
    ensures forall n :: 0 <= n < |r.history| - |h| ==> r.history[|h| + n] == InsertRow(m.table, rows[n])
    decreases |rows|
  {
    if |rows| == 0 then InsertRun(h, ids, None)
    else
      var st := InsertRow(m.table, rows[0]);
      match InsertedId(m, rows[0], answer(h, st))
      case Failure(e) => InsertRun(h + [st], ids, Some(e))
      case Success(id) =>
        var r := Inserts(answer, h + [st], m, rows[1..], ids + [id]);
        assert r.history[..|h|] == h;
        r
  }

  /** Each id the insert loop records is the one its row's response gives:
      the last insert id, or else the row's primary key. */
  lemma {:induction false} InsertsRecordIds(answer: (seq<Statement>, Statement) -> Response, h: seq<Statement>,
                                            m: ModelSchema, rows: seq<Record>, ids: seq<Value>, n: nat)
    requires n < |Inserts(answer, h, m, rows, ids).ids| - |ids|
    ensures var r := Inserts(answer, h, m, rows, ids);
      InsertedId(m, rows[n], answer(r.history[..|h| + n], InsertRow(m.table, rows[n]))) == Success(r.ids[|ids| + n])
    decreases |rows|
  {
    var st := InsertRow(m.table, rows[0]);
    var id := InsertedId(m, rows[0], answer(h, st)).value;
    var r := Inserts(answer, h + [st], m, rows[1..], ids + [id]);
    assert Inserts(answer, h, m, rows, ids) == r;
    if n == 0 {
      assert r.history[..|h|] == h;
    } else {
      InsertsRecordIds(answer, h + [st], m, rows[1..], ids + [id], n - 1);
      assert rows[1..][n - 1] == rows[n];
    }
  }

  /** The value `insert` returns, once the rows are re-fetched: the entity when
      exactly one row was supplied, else the whole result. */
  function InsertReturn(n: nat, result: QueryResult<Record>): (r: Inserted)
    ensures r.Single? <==> n == 1
    ensures r.Single? ==> (r.row.Some? <==> |result.rows| > 0)
    ensures r.Single? && r.row.Some? ==> r.row.value == result.rows[0]
    ensures r.Every? ==> r.result.All() == result.rows
  {
    if n == 1 then Single(result.First()) else Every(result)
  }

  /** `insert` as the code writes its result: `resultData[0]` indexes the
      QueryResult object, which has no property "0", so it is undefined. */
  function InsertReturnAsWritten(n: nat, result: QueryResult<Record>): (r: Inserted)
    ensures r.Single? <==> n == 1
    ensures r.Single? ==> r.row.None?
  {
    if n == 1 then Single(None) else Every(result)
  }

  /** The discrepancy: inserting one row that the re-fetch finds returns
      undefined as written, and the row itself once corrected. */
  lemma InsertOneRowLost(result: QueryResult<Record>)
    requires |result.rows| > 0
    ensures InsertReturnAsWritten(1, result) == Single(None)
    ensures InsertReturn(1, result) == Single(Some(result.rows[0]))
    ensures InsertReturnAsWritten(1, result) != InsertReturn(1, result)
  {
  }

  /**
   * `insert` end to end: the insert loop, then `wherePk(ids)` (one " IN"
   * predicate on the primary field, limited to the number of ids) and one
   * SELECT, whose rows make the return value.
   */
  function InsertSpec(quote: string -> string, answer: (seq<Statement>, Statement) -> Response,
                      h: seq<Statement>, m: ModelSchema, data: InsertData): Ran<Inserted>
  {
    var rows := data.Rows();
    var run := Inserts(answer, h, m, rows, []);
    if run.error.Some? then Ran(Failure(run.error.value), run.history)
    else
      match AddPk(Initial, quote, m, Array(run.ids))
      case Failure(e) => Ran(Failure(e), run.history)
      case Success(s) =>
        var q := SelectOf(m.table, s);
        Ran(Success(InsertReturn(|rows|, QueryResult(answer(run.history, Select(q)).rows))),
            run.history + [Select(q)])
  }

  /**
   * A successful insert issued one INSERT per supplied row, in order, then one
   * SELECT on the model's table whose only predicate is the " IN" predicate on
   * the primary field over the recorded ids (one per row, each the last
   * insert id or else the row's key), limited to the number of rows.
   */
  lemma InsertRefetchesByIds(quote: string -> string, answer: (seq<Statement>, Statement) -> Response,
                             h: seq<Statement>, m: ModelSchema, data: InsertData)
    requires InsertSpec(quote, answer, h, m, data).result.Success?
    ensures var spec := InsertSpec(quote, answer, h, m, data);
      var rows := data.Rows();
      var ids := Inserts(answer, h, m, rows, []).ids;
      && |ids| == |rows|
      && |spec.history| == |h| + |rows| + 1
      && (forall n :: 0 <= n < |rows| ==> spec.history[|h| + n] == InsertRow(m.table, rows[n]))
      && GetPrimaryField(m).Success? && GetPrimaryField(m).value.Some?
      && var pk := NameText(GetPrimaryField(m).value.value);
      && spec.history[|spec.history| - 1] == Select(SelectQuery(m.table, None,
           [RenderPredicate(quote, pk, " IN", Array(ids)).value],
           if |rows| == 0 then None else Some(|rows|), None))
  {
  }

  /** One row supplied, as a record or a one-element list: the return value is
      that single entity (the first re-fetched row), not a list. */
  lemma InsertOneRowIsSingle(quote: string -> string, answer: (seq<Statement>, Statement) -> Response,
                             h: seq<Statement>, m: ModelSchema, data: InsertData)
    requires |data.Rows()| == 1
    requires InsertSpec(quote, answer, h, m, data).result.Success?
    ensures InsertSpec(quote, answer, h, m, data).result.value.Single?
  {
  }

  /** A mutation under `wheres`, then `new QueryBuilder(model).whereRaw(wheres).fetch()`. */
  function Refetched(answer: (seq<Statement>, Statement) -> Response, h: seq<Statement>, m: ModelSchema,
                     mutation: Statement, wheres: seq<string>): Ran<QueryResult<Record>>
  {
    var q := SelectOf(m.table, Initial.(wheres := wheres));
    var h1 := h + [mutation];
    Ran(Success(QueryResult(answer(h1, Select(q)).rows)), h1 + [Select(q)])
  }

  /**
   * After an update or a delete the re-fetch runs right after the mutation, on
   * the model's table, with every column, exactly the same predicate list, and
   * no limit or offset, whatever the original builder had selected or paged.
   */
  lemma RefetchKeepsPredicates(answer: (seq<Statement>, Statement) -> Response, h: seq<Statement>,
                               m: ModelSchema, mutation: Statement, wheres: seq<string>)
    ensures var spec := Refetched(answer, h, m, mutation, wheres);
      && |spec.history| == |h| + 2 && spec.history[..|h|] == h
      && spec.history[|h|] == mutation
      && spec.history[|h| + 1] == Select(SelectQuery(m.table, None, wheres, None, None))
  {
    var spec := Refetched(answer, h, m, mutation, wheres);
    assert spec.history[..|h|] == h;
  }
}
