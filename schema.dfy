/**
 * Schema descriptors: the field record and its closed enumerations, and the
 * model (one table) with its primary-field and foreign-field lookups.
 * A reference names a target model and a target field, and a model holds
 * fields, so the two are declared together.
 */
module Schema {

  import opened Wrappers
  import opened Values

  /** The seventeen semantic column types a field may declare. */
  datatype FieldKind =
    | BigInteger | Boolean | Date | DateTime | Decimal | Enum | ForeignKey
    | Float | Integer | Json | LongText | MediumText | String | Text | Time
    | Timestamp | Uuid

  /** How a referencing model relates to the referenced one. */
  datatype Relation = BelongsTo | HasOne | HasMany

  /**
   * Where a foreign key points: the target model, the target field and the
   * relation (the relation may be omitted by a declaration). Meant for fields of
   * kind ForeignKey.
   */
  datatype Reference = Reference(model: ModelSchema, field: FieldSchema, relation: Option<Relation>)

  /**
   * One column. `name` is unset until the model is attached, which binds it to
   * the field's key. `length` is meant for String, `precision` for Float and
   * Decimal, `values` for Enum members. Unset boolean flags read as false.
   */
  datatype FieldSchema = FieldSchema(
    name: Option<string>,
    kind: FieldKind,
    alias: Option<string>,
    autoIncrement: bool,
    default: Option<Value>,
    index: bool,
    length: Option<int>,
    notNull: bool,
    precision: Option<int>,
    primary: bool,
    reference: Option<Reference>,
    unique: bool,
    values: Option<seq<string>>)

  /**
   * One entry of a model's field map. A model's `fields` is the sequence of
   * entries in the order `Object.entries` and `Object.values` list them:
   * integer-like keys ("0", "7", …) first, in ascending numeric order, then
   * the other keys in the order they were created.
   */
  datatype FieldEntry = FieldEntry(key: string, field: FieldSchema)

  /**
   * One table. `name` is the model's class name. `table` and `fields` may be
   * left unset by a declaration; attaching the model rejects that.
   * `hasStatics` says whether the model is still a class that inherits the
   * static methods of `Model` (`getPrimaryField`, `getForeignFields`, `q`); a
   * plain-object copy of a model's own properties does not have them.
   */
  datatype ModelSchema = ModelSchema(
    name: string,
    dbConnSlug: Option<string>,
    table: Option<string>,
    fields: Option<seq<FieldEntry>>,
    multipleUniques: Option<seq<seq<string>>>,
    multiplePrimary: Option<seq<string>>,
    hasStatics: bool)

  /** `field._name!` as text: an unbound name concatenates as "undefined". */
  function NameText(f: FieldSchema): string {
    OrUndefined(f.name)
  }

  /** The index of the first field with `primary` set, if any. */
  function FirstPrimary(fs: seq<FieldEntry>): (r: Option<nat>)
    ensures r.Some? ==> r.value < |fs| && fs[r.value].field.primary
    ensures r.Some? ==> forall i :: 0 <= i < r.value ==> !fs[i].field.primary
    ensures r.None? <==> forall i :: 0 <= i < |fs| ==> !fs[i].field.primary
    decreases |fs|
  {
    if |fs| == 0 then None
    else if fs[0].field.primary then Some(0)
    else
      var rest := FirstPrimary(fs[1..]);
      if rest.Some? then Some(rest.value + 1) else None
  }

  /**
   * `getPrimaryField()`: the first field in enumeration order (see
   * `FieldEntry`) with `primary` set, or nothing. Calling it on a model without the static methods throws,
   * and so does reading the fields of a model that has none.
   */
  function GetPrimaryField(m: ModelSchema): (r: Result<Option<FieldSchema>, Error>)
    ensures r.Failure? <==> !m.hasStatics || m.fields.None?
    ensures r.Success? && r.value.Some? ==>
      exists i :: 0 <= i < |m.fields.value| && r.value.value == m.fields.value[i].field &&
        r.value.value.primary &&
        forall j :: 0 <= j < i ==> !m.fields.value[j].field.primary
    ensures r.Success? ==>
      (r.value.None? <==> forall i :: 0 <= i < |m.fields.value| ==> !m.fields.value[i].field.primary)
  {
    if !m.hasStatics then Failure(TypeError("getPrimaryField is not a function"))
    else
    match m.fields
    case None => Failure(TypeError("cannot convert undefined to object"))
    case Some(fs) =>
      var i := FirstPrimary(fs);
      if i.Some? then Success(Some(fs[i.value].field)) else Success(None)
  }

  /** The fields of kind ForeignKey, in enumeration order. */
  function ForeignFields(fs: seq<FieldEntry>): (r: seq<FieldSchema>)
    ensures |r| <= |fs|
    ensures forall f :: f in r ==> f.kind == ForeignKey
    decreases |fs|
  {
    if |fs| == 0 then []
    else if fs[0].field.kind == ForeignKey then [fs[0].field] + ForeignFields(fs[1..])
    else ForeignFields(fs[1..])
  }

  /** `getForeignFields()`; calling it on a model without the static methods
      throws, and so does reading the fields of a model that has none. */
  function GetForeignFields(m: ModelSchema): (r: Result<seq<FieldSchema>, Error>)
    ensures r.Failure? <==> !m.hasStatics || m.fields.None?
    ensures r.Success? ==> forall f :: f in r.value ==> f.kind == ForeignKey
  {
    if !m.hasStatics then Failure(TypeError("getForeignFields is not a function"))
    else
    match m.fields
    case None => Failure(TypeError("cannot convert undefined to object"))
    case Some(fs) => Success(ForeignFields(fs))
  }

  /** The foreign-key fields are kept exactly, and in enumeration order: the
      filter is the concatenation of its one-field results. */
  lemma {:induction false} ForeignFieldsAppend(a: seq<FieldEntry>, b: seq<FieldEntry>)
    ensures ForeignFields(a + b) == ForeignFields(a) + ForeignFields(b)
    decreases |a|
  {
    if |a| > 0 {
      assert (a + b)[0] == a[0];
      assert (a + b)[1..] == a[1..] + b;
      ForeignFieldsAppend(a[1..], b);
    } else {
      assert a + b == b;
    }
  }

  /** A field is kept by the filter exactly when it is a foreign key. */
  lemma {:induction false} ForeignFieldsExact(fs: seq<FieldEntry>)
    ensures forall f :: f in ForeignFields(fs) <==>
      exists i :: 0 <= i < |fs| && fs[i].field == f && f.kind == ForeignKey
    decreases |fs|
  {
    if |fs| > 0 {
      ForeignFieldsExact(fs[1..]);
      forall f
        ensures f in ForeignFields(fs) <==>
          exists i :: 0 <= i < |fs| && fs[i].field == f && f.kind == ForeignKey
      {
        if f in ForeignFields(fs) && !(fs[0].field == f && f.kind == ForeignKey) {
          var i :| 0 <= i < |fs[1..]| && fs[1..][i].field == f && f.kind == ForeignKey;
          assert fs[i + 1].field == f;
        }
        if exists i :: 0 <= i < |fs| && fs[i].field == f && f.kind == ForeignKey {
          var i :| 0 <= i < |fs| && fs[i].field == f && f.kind == ForeignKey;
          if i > 0 {
            assert fs[1..][i - 1].field == f;
          }
        }
      }
    }
  }
}
