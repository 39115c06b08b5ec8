/**
 * The database as the core sees it: a connection that executes statements in
 * sequence, an identifier quoter and a table-definition renderer. The SQL
 * renderer and the network client are outside the core, so statements stay
 * structured rather than rendered, and what the server answers is an
 * arbitrary fixed function of every statement it has executed before plus the
 * current one. That covers any deterministic row store without saying how it
 * evaluates SQL.
 */
module Client {

  import opened Wrappers
  import opened Values
  import opened Ddl

  /** What a SELECT carries once rendered: source table, columns (none means
      every column), predicates joined by AND, and the paging bounds applied. */
  datatype SelectQuery = SelectQuery(
    from: Option<string>,
    columns: Option<seq<string>>,
    wheres: seq<string>,
    limit: Option<int>,
    offset: Option<int>)

  datatype Statement =
    | Execute(sql: string)                                       // one part of a script, by `execute`
    | Select(query: SelectQuery)
    | InsertRow(table: Option<string>, row: Record)
    | UpdateRows(table: Option<string>, patch: Record, wheres: seq<string>)
    | DeleteRows(table: Option<string>, wheres: seq<string>)
    | HasTable(table: Option<string>)
    | DropTableIfExists(table: Option<string>)

  /** The client's answer: rows, the last insert id if the client reports
      one (which may itself be null or undefined) and the affected-row count. */
  datatype Response = Response(rows: seq<Record>, lastInsertId: Option<Value>, affectedRows: int)

  /** What an operation returns, and the connection's history after it. */
  datatype Ran<T> = Ran(result: Result<T, Error>, history: seq<Statement>)

  class Connection {
    /** `dex.ref`: quotes a dotted identifier. */
    const quote: string -> string
    /** The server: its answer to a statement given everything executed before. */
    const answer: (seq<Statement>, Statement) -> Response
    /** `dex.schema.createTable(table, …).toString()`: the script for a table definition. */
    const render: (Option<string>, seq<TableOp>) -> string
    /** Every statement executed so far, in order. */
    var history: seq<Statement>

    constructor (quote: string -> string, answer: (seq<Statement>, Statement) -> Response,
                 render: (Option<string>, seq<TableOp>) -> string)
      ensures this.quote == quote && this.answer == answer && this.render == render && history == []
    {
      this.quote := quote;
      this.answer := answer;
      this.render := render;
      history := [];
    }

    /** Executes one statement and returns what the server answers. */
    method Run(s: Statement) returns (resp: Response)
      modifies this
      ensures history == old(history) + [s]
      ensures resp == answer(old(history), s)
    {
      resp := answer(history, s);
      history := history + [s];
    }
  }
}
