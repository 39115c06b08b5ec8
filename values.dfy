/**
 * The JavaScript values that rows, keys and predicate operands are made of,
 * with the two coercions the query code relies on: truthiness (`if (!x)`) and
 * conversion to a string (template literals, object property keys,
 * `Array.prototype.join`). Also the errors the core throws.
 */
module Values {

  import opened Wrappers

  /** Where one join lookup is cached within one fetch: referenced model name,
      foreign-key field name, and the key value as a property name. */
  datatype CacheKey = CacheKey(model: string, field: string, id: string)

  /**
   * A column value or property value. `Entity(k)` is a reference to the object
   * that the join cache holds under `k`: objects attached by a join are shared
   * by every row that reaches them, and this is how the model keeps that
   * sharing. `Opaque` is any other object or array, whose inside the core never
   * reads. Numbers are integers; floating point is not modelled.
   */
  datatype Value =
    | Undefined
    | Null
    | Bool(b: bool)
    | Num(n: int)
    | Str(s: string)
    | Entity(key: CacheKey)
    | Opaque

  /** A row or a plain object: property name to value. */
  type Record = map<string, Value>

  /** The errors the core throws, each with the data its message names. */
  datatype Error =
    | TypeError(message: string)
    | JoinFailed(field: string)
    | SlugTaken(slug: string)
    | TableNotSet(model: string)
    | FieldsNotSet(model: string)
    | MissingReference
    | NoPrimaryKey(model: string)

  /** JavaScript truthiness: undefined, null, false, 0 and "" are falsy. */
  predicate Truthy(v: Value) {
    match v
    case Undefined => false
    case Null => false
    case Bool(b) => b
    case Num(n) => n != 0
    case Str(s) => s != ""
    case Entity(_) => true
    case Opaque => true
  }

  /** The values `??` falls back on: null and undefined. */
  predicate Nullish(v: Value) {
    v.Undefined? || v.Null?
  }

  /** An optional string read as JavaScript does: unset and "" are both falsy. */
  predicate TruthyText(s: Option<string>) {
    s.Some? && s.value != ""
  }

  /** The text JavaScript gives an unset string when it is concatenated. */
  function OrUndefined(s: Option<string>): string {
    match s
    case Some(t) => t
    case None => "undefined"
  }

  function Digit(d: nat): char
    requires d < 10
  {
    "0123456789"[d]
  }

  /** Decimal digits of a natural number, most significant first. */
  function NatText(n: nat): (r: string)
    ensures |r| >= 1
    ensures forall i :: 0 <= i < |r| ==> '0' <= r[i] <= '9'
    decreases n
  {
    if n < 10 then [Digit(n)] else NatText(n / 10) + [Digit(n % 10)]
  }

  function IntText(n: int): string {
    if n < 0 then "-" + NatText(-n) else NatText(n)
  }

  /** `String(v)`: what a template literal or a property key makes of `v`. */
  function ValueText(v: Value): string {
    match v
    case Undefined => "undefined"
    case Null => "null"
    case Bool(b) => if b then "true" else "false"
    case Num(n) => IntText(n)
    case Str(s) => s
    case Entity(_) => "[object Object]"
    case Opaque => "[object Object]"
  }

  /** `vs.join(',')`: null and undefined elements become empty text. */
  function JoinText(vs: seq<Value>): string
    decreases |vs|
  {
    if |vs| == 0 then ""
    else
      var head := if vs[0].Undefined? || vs[0].Null? then "" else ValueText(vs[0]);
      if |vs| == 1 then head else head + "," + JoinText(vs[1..])
  }

  /** `record[name]`: a missing property reads as undefined. */
  function Prop(r: Record, name: string): Value {
    if name in r then r[name] else Undefined
  }

  /** A number and its decimal string name the same property, so the join
      cache cannot tell key 5 from key "5". */
  lemma NumberAndStringKeysCollide(n: nat)
    ensures ValueText(Num(n)) == ValueText(Str(NatText(n)))
    ensures Truthy(Num(n)) <==> n != 0
  {
  }
}
