/**
 * The pure part of the query builder: splitting a dotted alias, rendering one
 * predicate, and what each builder call does to the builder's state. The class
 * in module QueryBuilder holds that state and its methods are specified by
 * these functions.
 */
module QueryState {

  import opened Wrappers
  import opened Values
  import opened Text
  import opened Schema
  import opened Client

  /** A dismembered alias: the segment before the last, if any, and the last. */
  datatype Dismembered = Dismembered(table: Option<string>, field: string)

  /** `dismemberField`: `[field, table] = alias.split('.').reverse()`. */
  function DismemberField(alias: string): (r: Dismembered)
    ensures '.' !in r.field
    ensures r.table.Some? ==> '.' !in r.table.value
    ensures r.table.None? <==> '.' !in alias
  {
    var parts := Split(alias, '.');
    SplitPartsFree(alias, '.');
    SplitSingle(alias, '.');
    Dismembered(if |parts| >= 2 then Some(parts[|parts| - 2]) else None, parts[|parts| - 1])
  }

  /** Dismembering a dotted path gives its last segment as the field and the one
      before it as the table; earlier segments are dropped. */
  lemma DismemberJoined(parts: seq<string>)
    requires |parts| >= 1 && AllFree(parts, '.')
    ensures DismemberField(JoinWith(parts, '.')).field == parts[|parts| - 1]
    ensures DismemberField(JoinWith(parts, '.')).table ==
      if |parts| >= 2 then Some(parts[|parts| - 2]) else None
  {
    SplitJoin(parts, '.');
    DismemberSplit(JoinWith(parts, '.'), parts);
  }

  /** Dismembering reads the last two segments of the split alias. */
  lemma DismemberSplit(alias: string, parts: seq<string>)
    requires Split(alias, '.') == parts
    ensures DismemberField(alias) ==
      Dismembered(if |parts| >= 2 then Some(parts[|parts| - 2]) else None, parts[|parts| - 1])
  {
  }

  /** An alias with no dot is all field and no table. */
  lemma DismemberUndotted(alias: string)
    requires '.' !in alias
    ensures DismemberField(alias) == Dismembered(None, alias)
  {
    SplitFree(alias, '.');
  }

  /** A predicate operand: one value, or an array of them. */
  datatype Operand = Scalar(v: Value) | Array(vs: seq<Value>)

  /** What a template literal makes of an operand (an array joins with ','). */
  function OperandText(x: Operand): string {
    match x
    case Scalar(v) => ValueText(v)
    case Array(vs) => JoinText(vs)
  }

  /**
   * The right-hand side of a predicate, chosen by exact operator match: the
   * operator "IN" wraps the joined array in `('…')`, a null value is `NULL`, and
   * anything else is wrapped in single quotes with nothing escaped. "IN" with a
   * non-array operand throws, since only arrays have `join`.
   */
  function RenderValue(op: string, x: Operand): (r: Result<string, Error>)
    ensures r.Failure? <==> op == "IN" && x.Scalar?
    ensures r.Success? ==> |r.value| >= 2
    ensures r.Success? ==> (r.value[0] == '(' <==> op == "IN")
    ensures r.Success? && op == "IN" ==> r.value == "('" + JoinText(x.vs) + "')"
    ensures r.Success? ==> (r.value == "NULL" <==> op != "IN" && x == Scalar(Null))
    ensures r.Success? && op != "IN" && x != Scalar(Null) ==>
      r.value[0] == '\'' && r.value[|r.value| - 1] == '\'' && r.value[1..|r.value| - 1] == OperandText(x)
  {
    if op == "IN" then
      match x
      case Array(vs) => Success("('" + JoinText(vs) + "')")
      case Scalar(_) => Failure(TypeError("value.join is not a function"))
    else if x == Scalar(Null) then Success("NULL")
    else Success("'" + OperandText(x) + "'")
  }

  /** `whereIn` passes " IN" with a leading space, which is not "IN": its array
      is quoted as one literal, not parenthesised. */
  lemma WhereInIsQuoted(vs: seq<Value>)
    ensures RenderValue(" IN", Array(vs)) == Success("'" + JoinText(vs) + "'")
    ensures RenderValue(" IN", Array(vs)).value[0] != '('
  {
  }

  /** Quotes inside a value are not escaped: every quote of a string value is
      copied into the literal, where it ends the literal before the value does. */
  lemma QuoteNotEscaped(op: string, v: string, i: nat)
    requires op != "IN" && i < |v| && v[i] == '\''
    ensures var r := RenderValue(op, Scalar(Str(v)));
      && r.Success? && 0 < i + 1 < |r.value| - 1 && r.value[i + 1] == '\''
  {
    var r := RenderValue(op, Scalar(Str(v)));
    assert r.value[1..|r.value| - 1] == v;
    assert r.value[i + 1] == r.value[1..|r.value| - 1][i];
  }

  /** One predicate: `ref(table.field) op value`. An alias with no table gives
      "undefined" as the table, since the code concatenates it unset. */
  function RenderPredicate(quote: string -> string, alias: string, op: string, x: Operand): (r: Result<string, Error>)
    ensures r.Success? <==> RenderValue(op, x).Success?
    ensures r.Success? ==>
      var d := DismemberField(alias);
      var lhs := quote(OrUndefined(d.table) + "." + d.field);
      var v := RenderValue(op, x).value;
      |r.value| == |lhs| + |op| + |v| + 2 &&
      r.value[..|lhs|] == lhs && r.value[|lhs|..|r.value| - |v|] == " " + op + " " &&
      r.value[|r.value| - |v|..] == v
  {
    var d := DismemberField(alias);
    match RenderValue(op, x)
    case Failure(e) => Failure(e)
    case Success(v) => Success(quote(OrUndefined(d.table) + "." + d.field) + " " + op + " " + v)
  }

  /** The state a builder accumulates before it runs. */
  datatype BuilderState = BuilderState(
    selects: seq<string>,
    wheres: seq<string>,
    joins: seq<seq<FieldSchema>>,
    limit: Option<int>,
    offset: Option<int>)

  /** A new builder: nothing selected, no predicates, no joins, no paging. */
  const Initial := BuilderState([], [], [], None, None)

  /** `where(alias, op, value)`: appends exactly one rendered predicate, or
      throws and changes nothing. */
  function AddWhere(s: BuilderState, quote: string -> string, alias: string, op: string, x: Operand): (r: Result<BuilderState, Error>)
    ensures r.Failure? <==> op == "IN" && x.Scalar?
    ensures r.Success? ==>
      && |r.value.wheres| == |s.wheres| + 1
      && r.value.wheres[..|s.wheres|] == s.wheres
      && r.value.wheres[|s.wheres|] == RenderPredicate(quote, alias, op, x).value
      && r.value.selects == s.selects && r.value.joins == s.joins
      && r.value.limit == s.limit && r.value.offset == s.offset
  {
    match RenderPredicate(quote, alias, op, x)
    case Failure(e) => Failure(e)
    case Success(p) => Success(s.(wheres := s.wheres + [p]))
  }

  /**
   * `wherePk(pk)`: one predicate on the primary field and a limit. A scalar is
   * compared with "=" and limits to 1; an array goes through `whereIn` and
   * limits to its length. A model with no primary field throws when the code
   * reads the missing field's name, and a primary field whose name was never
   * bound throws when `where` splits the undefined alias.
   */
  function AddPk(s: BuilderState, quote: string -> string, m: ModelSchema, pk: Operand): (r: Result<BuilderState, Error>)
    ensures r.Success? <==>
      GetPrimaryField(m).Success? && GetPrimaryField(m).value.Some? && GetPrimaryField(m).value.value.name.Some?
    ensures r.Success? ==>
      var name := NameText(GetPrimaryField(m).value.value);
      && |r.value.wheres| == |s.wheres| + 1
      && r.value.wheres[..|s.wheres|] == s.wheres
      && r.value.wheres[|s.wheres|] ==
         (match pk
          case Scalar(_) => RenderPredicate(quote, name, "=", pk).value
          case Array(_) => RenderPredicate(quote, name, " IN", pk).value)
      && r.value.limit == Some(match pk case Scalar(_) => 1 case Array(vs) => |vs|)
      && r.value.selects == s.selects && r.value.joins == s.joins && r.value.offset == s.offset
  {
    match GetPrimaryField(m)
    case Failure(e) => Failure(e)
    case Success(None) => Failure(TypeError("cannot read '_name' of undefined"))
    case Success(Some(f)) =>
      if f.name.None? then Failure(TypeError("cannot read properties of undefined (reading 'split')"))
      else
        match pk
        case Array(vs) =>
          var t := AddWhere(s, quote, NameText(f), " IN", pk).value;
          Success(t.(limit := Some(|vs|)))
        case Scalar(_) =>
          var t := AddWhere(s, quote, NameText(f), "=", pk).value;
          Success(t.(limit := Some(1)))
  }

  /**
   * The SELECT that `fetch` renders from a builder: the column list only when
   * something was selected, every predicate in order, and a limit or offset
   * only when it is set and not 0.
   */
  function SelectOf(from: Option<string>, s: BuilderState): (q: SelectQuery)
    ensures q.from == from && q.wheres == s.wheres
    ensures q.columns.Some? <==> |s.selects| > 0
    ensures q.columns.Some? ==> q.columns.value == s.selects
    ensures q.limit.Some? <==> s.limit.Some? && s.limit.value != 0
    ensures q.limit.Some? ==> q.limit == s.limit
    ensures q.offset.Some? <==> s.offset.Some? && s.offset.value != 0
    ensures q.offset.Some? ==> q.offset == s.offset
  {
    SelectQuery(
      from,
      if |s.selects| > 0 then Some(s.selects) else None,
      s.wheres,
      if s.limit.Some? && s.limit.value != 0 then s.limit else None,
      if s.offset.Some? && s.offset.value != 0 then s.offset else None)
  }

  /** `m.q().wherePk(id)` as it is rendered: the primary-key lookup a join issues. */
  function PkSelect(quote: string -> string, m: ModelSchema, id: Value): (r: Result<SelectQuery, Error>)
    ensures r.Success? <==>
      GetPrimaryField(m).Success? && GetPrimaryField(m).value.Some? && GetPrimaryField(m).value.value.name.Some?
    ensures r.Success? ==>
      && r.value.from == m.table && r.value.columns.None? && r.value.offset.None?
      && r.value.limit == Some(1)
      && r.value.wheres == [RenderPredicate(quote, NameText(GetPrimaryField(m).value.value), "=", Scalar(id)).value]
  {
    match AddPk(Initial, quote, m, Scalar(id))
    case Failure(e) => Failure(e)
    case Success(s) => Success(SelectOf(m.table, s))
  }
}
