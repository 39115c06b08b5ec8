/**
 * The table definition `_createTable` builds, as a sequence of abstract
 * operations rather than SQL: one column per field, the foreign-key
 * constraint or primary flag, then the index, not-null and unique modifiers,
 * and finally the multi-column unique groups.
 */
module Ddl {

  import opened Wrappers
  import opened Values
  import opened Schema

  /** The column builders the field kinds map to, with the parameters each takes. */
  datatype ColumnType =
    | BooleanColumn
    | DecimalColumn(precision: Option<int>)
    | FloatColumn(precision: Option<int>)
    | IntegerColumn
    | BigIntegerColumn
    | StringColumn(length: Option<int>)
    | TextColumn
    | MediumTextColumn
    | LongTextColumn
    | DateColumn
    | DateTimeColumn
    | TimeColumn
    | TimestampColumn
    | EnumColumn(values: Option<seq<string>>)
    | JsonColumn
    | UuidColumn

  /** One operation on the table being created. */
  datatype TableOp =
    | AddColumn(name: string, column: ColumnType)
    | AddForeign(name: string, target: string)
    | SetPrimary(name: string)
    | SetIndex(name: string)
    | SetNotNull(name: string)
    | SetUnique(name: string)
    | UniqueGroup(columns: seq<string>)

  /** The kind of field a column type is made for. */
  function KindOf(c: ColumnType): FieldKind {
    match c
    case BooleanColumn => Boolean
    case DecimalColumn(_) => Decimal
    case FloatColumn(_) => Float
    case IntegerColumn => Integer
    case BigIntegerColumn => BigInteger
    case StringColumn(_) => String
    case TextColumn => Text
    case MediumTextColumn => MediumText
    case LongTextColumn => LongText
    case DateColumn => Date
    case DateTimeColumn => DateTime
    case TimeColumn => Time
    case TimestampColumn => Timestamp
    case EnumColumn(_) => Enum
    case JsonColumn => Json
    case UuidColumn => Uuid
  }

  /**
   * The `switch` on the field's type: every kind but ForeignKey has a column,
   * made for that kind, carrying the field's precision, length or enum values
   * where the kind takes one.
   */
  function ColumnOf(f: FieldSchema): (r: Option<ColumnType>)
    ensures r.None? <==> f.kind == ForeignKey
    ensures r.Some? ==> KindOf(r.value) == f.kind
    ensures r.Some? && (f.kind == Decimal || f.kind == Float) ==> r.value.precision == f.precision
    ensures r.Some? && f.kind == String ==> r.value.length == f.length
    ensures r.Some? && f.kind == Enum ==> r.value.values == f.values
  {
    match f.kind
    case Boolean => Some(BooleanColumn)
    case Decimal => Some(DecimalColumn(f.precision))
    case Float => Some(FloatColumn(f.precision))
    case Integer => Some(IntegerColumn)
    case BigInteger => Some(BigIntegerColumn)
    case String => Some(StringColumn(f.length))
    case Text => Some(TextColumn)
    case MediumText => Some(MediumTextColumn)
    case LongText => Some(LongTextColumn)
    case Date => Some(DateColumn)
    case DateTime => Some(DateTimeColumn)
    case Time => Some(TimeColumn)
    case Timestamp => Some(TimestampColumn)
    case Enum => Some(EnumColumn(f.values))
    case Json => Some(JsonColumn)
    case Uuid => Some(UuidColumn)
    case ForeignKey => None
  }

  /** A foreign key that names its reference. */
  predicate IsLinked(f: FieldSchema) {
    f.kind == ForeignKey && f.reference.Some?
  }

  /** The field whose type the column takes: the referenced field for a linked
      foreign key, otherwise the field itself. */
  function TypeSource(f: FieldSchema): FieldSchema {
    if IsLinked(f) then f.reference.value.field else f
  }

  /** `targetTable.targetField`, with unset parts read as "undefined". */
  function ForeignTarget(r: Reference): string {
    OrUndefined(r.model.table) + "." + NameText(r.field)
  }

  /** An operation applied only when its flag is set. */
  function When(c: bool, op: TableOp): seq<TableOp> {
    if c then [op] else []
  }

  /** Whether some modifier that needs a column is set: the primary flag on a
      field that is not a linked foreign key, index, not-null or unique. */
  predicate HasModifier(f: FieldSchema) {
    (!IsLinked(f) && f.primary) || f.index || f.notNull || f.unique
  }

  /** The column, if any, then the foreign constraint or the primary flag. */
  function Head(key: string, f: FieldSchema): seq<TableOp> {
    var col := ColumnOf(TypeSource(f));
    (if col.Some? then [AddColumn(key, col.value)] else [])
    + (if IsLinked(f) then [AddForeign(key, ForeignTarget(f.reference.value))] else [])
    + When(!IsLinked(f) && f.primary, SetPrimary(key))
  }

  /**
   * The operations for one field. When the type source is itself a foreign
   * key no column is made, and the first modifier applied to the missing
   * column throws.
   */
  function FieldOps(key: string, f: FieldSchema): (r: Result<seq<TableOp>, Error>)
  {
    if ColumnOf(TypeSource(f)).None? && HasModifier(f) then Failure(TypeError("cannot read properties of undefined"))
    else Success(Head(key, f) + When(f.index, SetIndex(key)) + When(f.notNull, SetNotNull(key)) + When(f.unique, SetUnique(key)))
  }

  /** Where an operation stands in a field's fixed order. */
  function Rank(op: TableOp): nat {
    match op
    case AddColumn(_, _) => 0
    case AddForeign(_, _) => 1
    case SetPrimary(_) => 1
    case SetIndex(_) => 2
    case SetNotNull(_) => 3
    case SetUnique(_) => 4
    case UniqueGroup(_) => 5
  }

  /** Operations on the column `key`, in strictly increasing rank, each ranked
      below `r`. */
  ghost predicate Ordered(ops: seq<TableOp>, key: string, r: nat) {
    && (forall i :: 0 <= i < |ops| ==> !ops[i].UniqueGroup? && ops[i].name == key && Rank(ops[i]) < r)
    && (forall i, j :: 0 <= i < j < |ops| ==> Rank(ops[i]) < Rank(ops[j]))
  }

  lemma OrderedWhen(ops: seq<TableOp>, key: string, r: nat, c: bool, op: TableOp)
    requires Ordered(ops, key, r)
    requires !op.UniqueGroup? && op.name == key && Rank(op) == r
    ensures Ordered(ops + When(c, op), key, r + 1)
  {
  }

  /**
   * A field's operations all name the field and come in the fixed order:
   * column, then the foreign constraint or the primary flag, then index,
   * not-null and unique, each at most once.
   */
  lemma FieldOpsOrdered(key: string, f: FieldSchema)
    requires FieldOps(key, f).Success?
    ensures var ops := FieldOps(key, f).value;
      && (forall i :: 0 <= i < |ops| ==> !ops[i].UniqueGroup? && ops[i].name == key)
      && (forall i, j :: 0 <= i < j < |ops| ==> Rank(ops[i]) < Rank(ops[j]))
  {
    var s3 := Head(key, f);
    HeadOrdered(key, f);
    var s4 := s3 + When(f.index, SetIndex(key));
    assert Ordered(s4, key, 3) by { OrderedWhen(s3, key, 2, f.index, SetIndex(key)); }
    var s5 := s4 + When(f.notNull, SetNotNull(key));
    assert Ordered(s5, key, 4) by { OrderedWhen(s4, key, 3, f.notNull, SetNotNull(key)); }
    OrderedWhen(s5, key, 4, f.unique, SetUnique(key));
  }

  lemma HeadOrdered(key: string, f: FieldSchema)
    ensures Ordered(Head(key, f), key, 2)
  {
    var col := ColumnOf(TypeSource(f));
    var s1: seq<TableOp> := if col.Some? then [AddColumn(key, col.value)] else [];
    var s2: seq<TableOp> := s1 + if IsLinked(f) then [AddForeign(key, ForeignTarget(f.reference.value))] else [];
    assert Ordered(s1, key, 1);
    if IsLinked(f) {
      OrderedWhen(s1, key, 1, true, AddForeign(key, ForeignTarget(f.reference.value)));
      assert Head(key, f) == s2;
    } else {
      assert s2 == s1;
      OrderedWhen(s2, key, 1, f.primary, SetPrimary(key));
    }
  }

  /**
   * The column takes its type from the referenced field for a linked foreign
   * key, and from the field itself otherwise; a column exists exactly when
   * that source is not a foreign key.
   */
  lemma FieldColumn(key: string, f: FieldSchema)
    requires FieldOps(key, f).Success?
    ensures var ops := FieldOps(key, f).value;
      && (TypeSource(f).kind != ForeignKey <==> |ops| > 0 && ops[0].AddColumn?)
      && (|ops| > 0 && ops[0].AddColumn? ==>
            ops[0] == AddColumn(key, ColumnOf(TypeSource(f)).value)
            && KindOf(ops[0].column) == (if IsLinked(f) then f.reference.value.field.kind else f.kind))
  {
  }

  /** The primary flag is applied only to fields that are not linked foreign
      keys. */
  lemma FieldPrimary(key: string, f: FieldSchema, n: string)
    requires FieldOps(key, f).Success?
    ensures SetPrimary(n) in FieldOps(key, f).value <==> n == key && f.primary && !IsLinked(f)
  {
    var head := Head(key, f);
    var rest := When(f.index, SetIndex(key)) + When(f.notNull, SetNotNull(key)) + When(f.unique, SetUnique(key));
    assert FieldOps(key, f).value == head + rest;
    assert SetPrimary(n) !in rest;
    assert SetPrimary(n) in head <==> SetPrimary(n) in When(!IsLinked(f) && f.primary, SetPrimary(key));
  }

  /** Index, not-null and unique are applied to a field's column exactly when
      their flags are set, and to no other column. */
  lemma FieldModifiers(key: string, f: FieldSchema, n: string)
    requires FieldOps(key, f).Success?
    ensures SetIndex(n) in FieldOps(key, f).value <==> n == key && f.index
    ensures SetNotNull(n) in FieldOps(key, f).value <==> n == key && f.notNull
    ensures SetUnique(n) in FieldOps(key, f).value <==> n == key && f.unique
  {
    var head := Head(key, f);
    var a, b, c := When(f.index, SetIndex(key)), When(f.notNull, SetNotNull(key)), When(f.unique, SetUnique(key));
    assert FieldOps(key, f).value == head + a + b + c;
    assert SetIndex(n) !in head && SetNotNull(n) !in head && SetUnique(n) !in head;
  }

  /** A linked foreign key always gets its constraint, on its target, and no
      other field gets one. */
  lemma FieldForeign(key: string, f: FieldSchema, n: string, t: string)
    requires FieldOps(key, f).Success?
    ensures AddForeign(n, t) in FieldOps(key, f).value <==>
      n == key && IsLinked(f) && t == ForeignTarget(f.reference.value)
  {
    var head := Head(key, f);
    var rest := When(f.index, SetIndex(key)) + When(f.notNull, SetNotNull(key)) + When(f.unique, SetUnique(key));
    assert FieldOps(key, f).value == head + rest;
    assert AddForeign(n, t) !in rest;
    assert AddForeign(n, t) !in When(!IsLinked(f) && f.primary, SetPrimary(key));
  }

  /** A field whose column would be missing makes the definition throw exactly
      when some modifier is set on it. */
  lemma FieldOpsFail(key: string, f: FieldSchema)
    ensures FieldOps(key, f).Failure? <==>
      TypeSource(f).kind == ForeignKey && ((!IsLinked(f) && f.primary) || f.index || f.notNull || f.unique)
  {
  }

  /** Every field's operations, in enumeration order; the first failure wins. */
  function FieldsOps(fs: seq<FieldEntry>): (r: Result<seq<TableOp>, Error>)
    ensures r.Success? <==> forall i :: 0 <= i < |fs| ==> FieldOps(fs[i].key, fs[i].field).Success?
    decreases |fs|
  {
    if |fs| == 0 then Success([])
    else
      match FieldOps(fs[0].key, fs[0].field)
      case Failure(e) => Failure(e)
      case Success(head) =>
        match FieldsOps(fs[1..])
        case Failure(e) => Failure(e)
        case Success(rest) => Success(head + rest)
  }

  /** One unique constraint per multi-column group, in order. */
  function UniqueGroups(groups: Option<seq<seq<string>>>): (r: seq<TableOp>)
    ensures groups.None? ==> r == []
    ensures groups.Some? ==> |r| == |groups.value| && forall i :: 0 <= i < |r| ==> r[i] == UniqueGroup(groups.value[i])
  {
    match groups
    case None => []
    case Some(gs) => seq(|gs|, i requires 0 <= i < |gs| => UniqueGroup(gs[i]))
  }

  /**
   * The definition of a model's table: each field's operations in declaration
   * order, then the unique groups. The multi-column primary key is never
   * applied. A model without fields throws when its fields are enumerated.
   */
  function CreatePlan(m: ModelSchema): (r: Result<seq<TableOp>, Error>)
    ensures r.Success? <==> m.fields.Some? && FieldsOps(m.fields.value).Success?
    ensures r.Success? ==> r.value == FieldsOps(m.fields.value).value + UniqueGroups(m.multipleUniques)
  {
    match m.fields
    case None => Failure(TypeError("cannot convert undefined or null to object"))
    case Some(fs) =>
      match FieldsOps(fs)
      case Failure(e) => Failure(e)
      case Success(ops) => Success(ops + UniqueGroups(m.multipleUniques))
  }

  /** An operation is in the fields' definition exactly when it is among the
      operations of one of the fields. */
  lemma {:induction false} FieldsOpsMembers(fs: seq<FieldEntry>, op: TableOp)
    requires FieldsOps(fs).Success?
    ensures op in FieldsOps(fs).value <==>
      exists i :: 0 <= i < |fs| && op in FieldOps(fs[i].key, fs[i].field).value
    decreases |fs|
  {
    if |fs| > 0 {
      FieldsOpsMembers(fs[1..], op);
      var head := FieldOps(fs[0].key, fs[0].field).value;
      assert FieldsOps(fs).value == head + FieldsOps(fs[1..]).value;
      if exists i :: 0 <= i < |fs| && op in FieldOps(fs[i].key, fs[i].field).value {
        var i :| 0 <= i < |fs| && op in FieldOps(fs[i].key, fs[i].field).value;
        if i > 0 {
          assert fs[1..][i - 1] == fs[i];
        }
      }
      if op in FieldsOps(fs[1..]).value {
        var i :| 0 <= i < |fs[1..]| && op in FieldOps(fs[1..][i].key, fs[1..][i].field).value;
        assert fs[1..][i] == fs[i + 1];
      }
    }
  }

  /** Across the whole table, a column is made primary exactly when a field of
      that key has `primary` set and is not a linked foreign key. */
  lemma PlanPrimary(m: ModelSchema, n: string)
    requires CreatePlan(m).Success?
    ensures var fs := m.fields.value;
      SetPrimary(n) in CreatePlan(m).value <==>
        exists i :: 0 <= i < |fs| && fs[i].key == n && fs[i].field.primary && !IsLinked(fs[i].field)
  {
    var fs := m.fields.value;
    FieldsOpsMembers(fs, SetPrimary(n));
    assert SetPrimary(n) !in UniqueGroups(m.multipleUniques);
    forall i | 0 <= i < |fs|
      ensures SetPrimary(n) in FieldOps(fs[i].key, fs[i].field).value <==>
                fs[i].key == n && fs[i].field.primary && !IsLinked(fs[i].field)
    {
      FieldPrimary(fs[i].key, fs[i].field, n);
    }
  }

  /** Across the whole table, a foreign constraint exists exactly for the linked
      foreign keys, on their targets. */
  lemma PlanForeign(m: ModelSchema, n: string, t: string)
    requires CreatePlan(m).Success?
    ensures var fs := m.fields.value;
      AddForeign(n, t) in CreatePlan(m).value <==>
        exists i :: 0 <= i < |fs| && fs[i].key == n && IsLinked(fs[i].field)
                    && t == ForeignTarget(fs[i].field.reference.value)
  {
    var fs := m.fields.value;
    FieldsOpsMembers(fs, AddForeign(n, t));
    assert AddForeign(n, t) !in UniqueGroups(m.multipleUniques);
    forall i | 0 <= i < |fs|
      ensures AddForeign(n, t) in FieldOps(fs[i].key, fs[i].field).value <==>
                fs[i].key == n && IsLinked(fs[i].field) && t == ForeignTarget(fs[i].field.reference.value)
    {
      FieldForeign(fs[i].key, fs[i].field, n, t);
    }
  }

  /** Across the whole table, an index is applied exactly to the columns of the
      fields that set it. */
  lemma PlanIndex(m: ModelSchema, n: string)
    requires CreatePlan(m).Success?
    ensures var fs := m.fields.value;
      SetIndex(n) in CreatePlan(m).value <==> exists i :: 0 <= i < |fs| && fs[i].key == n && fs[i].field.index
  {
    var fs := m.fields.value;
    FieldsOpsMembers(fs, SetIndex(n));
    assert SetIndex(n) !in UniqueGroups(m.multipleUniques);
    forall i | 0 <= i < |fs|
      ensures SetIndex(n) in FieldOps(fs[i].key, fs[i].field).value <==> fs[i].key == n && fs[i].field.index
    {
      FieldModifiers(fs[i].key, fs[i].field, n);
    }
  }

  /** Across the whole table, not-null is applied exactly to the columns of the
      fields that set it. */
  lemma PlanNotNull(m: ModelSchema, n: string)
    requires CreatePlan(m).Success?
    ensures var fs := m.fields.value;
      SetNotNull(n) in CreatePlan(m).value <==> exists i :: 0 <= i < |fs| && fs[i].key == n && fs[i].field.notNull
  {
    var fs := m.fields.value;
    FieldsOpsMembers(fs, SetNotNull(n));
    assert SetNotNull(n) !in UniqueGroups(m.multipleUniques);
    forall i | 0 <= i < |fs|
      ensures SetNotNull(n) in FieldOps(fs[i].key, fs[i].field).value <==> fs[i].key == n && fs[i].field.notNull
    {
      FieldModifiers(fs[i].key, fs[i].field, n);
    }
  }

  /** Across the whole table, unique is applied exactly to the columns of the
      fields that set it. */
  lemma PlanUnique(m: ModelSchema, n: string)
    requires CreatePlan(m).Success?
    ensures var fs := m.fields.value;
      SetUnique(n) in CreatePlan(m).value <==> exists i :: 0 <= i < |fs| && fs[i].key == n && fs[i].field.unique
  {
    var fs := m.fields.value;
    FieldsOpsMembers(fs, SetUnique(n));
    assert SetUnique(n) !in UniqueGroups(m.multipleUniques);
    forall i | 0 <= i < |fs|
      ensures SetUnique(n) in FieldOps(fs[i].key, fs[i].field).value <==> fs[i].key == n && fs[i].field.unique
    {
      FieldModifiers(fs[i].key, fs[i].field, n);
    }
  }
}
