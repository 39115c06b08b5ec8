/**
 * Attaching models to a database: each model is checked, its connection slug
 * defaulted and its field names bound, and it is put into the database's
 * registry, a map from model name to model that keeps insertion order.
 */
module Registry {

  import opened Wrappers
  import opened Values
  import opened Schema

  /** The slug of the connection used when none is given. */
  const DefaultSlug: string := "default"

  /** A foreign key without a reference, which attaching rejects. */
  predicate Unlinked(f: FieldSchema) {
    f.kind == ForeignKey && f.reference.None?
  }

  /** The index of the first unlinked foreign key, if any. */
  function FirstUnlinked(fs: seq<FieldEntry>): (r: Option<nat>)
    ensures r.Some? ==> r.value < |fs| && Unlinked(fs[r.value].field)
    ensures r.Some? ==> forall i :: 0 <= i < r.value ==> !Unlinked(fs[i].field)
    ensures r.None? <==> forall i :: 0 <= i < |fs| ==> !Unlinked(fs[i].field)
    decreases |fs|
  {
    if |fs| == 0 then None
    else if Unlinked(fs[0].field) then Some(0)
    else
      var rest := FirstUnlinked(fs[1..]);
      if rest.Some? then Some(rest.value + 1) else None
  }

  /** `field._name = slug`. */
  function Named(e: FieldEntry): FieldEntry {
    FieldEntry(e.key, e.field.(name := Some(e.key)))
  }

  /** The fields with the names of the first `k` bound. */
  function BindNames(fs: seq<FieldEntry>, k: nat): (r: seq<FieldEntry>)
    requires k <= |fs|
    ensures |r| == |fs|
    ensures forall i :: 0 <= i < |fs| ==> r[i] == if i < k then Named(fs[i]) else fs[i]
  {
    seq(|fs|, i requires 0 <= i < |fs| => if i < k then Named(fs[i]) else fs[i])
  }

  /** Binding one more name is one update of the list. */
  lemma BindNamesStep(fs: seq<FieldEntry>, k: nat)
    requires k < |fs|
    ensures BindNames(fs, k)[k := Named(fs[k])] == BindNames(fs, k + 1)
  {
    assert BindNames(fs, k)[k := Named(fs[k])][k] == BindNames(fs, k + 1)[k];
  }

  /** A model with its connection slug defaulted when it is falsy. */
  function WithSlug(m: ModelSchema): ModelSchema {
    if TruthyText(m.dbConnSlug) then m else m.(dbConnSlug := Some(DefaultSlug))
  }

  /** The model as attaching leaves it, and the error if it was rejected. */
  datatype Attached = Attached(model: ModelSchema, error: Option<Error>)

  /**
   * Checking one model, in the code's order: the slug is defaulted, the table
   * and the fields must be set, then each field in turn has its name bound and
   * is rejected if it is an unlinked foreign key, and finally at least one
   * field must be primary. The mutations made before a rejection stay.
   */
  function Attach(m: ModelSchema): Attached {
    var m1 := WithSlug(m);
    if !TruthyText(m1.table) then Attached(m1, Some(TableNotSet(m.name)))
    else if m1.fields.None? then Attached(m1, Some(FieldsNotSet(m.name)))
    else
      var fs := m1.fields.value;
      match FirstUnlinked(fs)
      case Some(u) => Attached(m1.(fields := Some(BindNames(fs, u + 1))), Some(MissingReference))
      case None =>
        var bound := m1.(fields := Some(BindNames(fs, |fs|)));
        if FirstPrimary(fs).None? then Attached(bound, Some(NoPrimaryKey(m.name)))
        else Attached(bound, None)
  }

  /**
   * A model is accepted exactly when its table is set, its fields are set,
   * every foreign key has a reference, and at least one field is primary; two
   * or more primary fields are accepted too.
   */
  lemma AttachAcceptsIff(m: ModelSchema)
    ensures Attach(m).error.None? <==>
      && TruthyText(m.table)
      && m.fields.Some?
      && (forall i :: 0 <= i < |m.fields.value| ==> !Unlinked(m.fields.value[i].field))
      && (exists i :: 0 <= i < |m.fields.value| && m.fields.value[i].field.primary)
  {
    if TruthyText(m.table) && m.fields.Some? && FirstUnlinked(m.fields.value).None? {
      var fs := m.fields.value;
      if FirstPrimary(fs).Some? {
        assert fs[FirstPrimary(fs).value].field.primary;
      }
    }
  }

  /** Attaching defaults a falsy slug and keeps any other, and leaves the
      model's name and table as they were. */
  lemma AttachKeepsIdentity(m: ModelSchema)
    ensures var a := Attach(m);
      && TruthyText(a.model.dbConnSlug)
      && (TruthyText(m.dbConnSlug) ==> a.model.dbConnSlug == m.dbConnSlug)
      && a.model.name == m.name && a.model.table == m.table
  {
    var m1 := WithSlug(m);
    assert TruthyText(m1.dbConnSlug) by {
      assert DefaultSlug != "";
    }
    assert Attach(m).model.(fields := m1.fields) == m1;
  }

  /**
   * Once the fields pass the reference check, attaching binds every field's
   * name to its key, even when the primary check then rejects the model; a
   * rejection for an unlinked foreign key leaves the names bound up to and
   * including that field.
   */
  lemma AttachBindsNames(m: ModelSchema)
    ensures var a := Attach(m);
      && (a.error.None? ==> m.fields.Some?)
      && (m.fields.Some? && (a.error.None? || a.error.value.NoPrimaryKey?) ==>
            a.model.fields == Some(BindNames(m.fields.value, |m.fields.value|)))
      && (a.error == Some(MissingReference) ==>
            m.fields.Some? && FirstUnlinked(m.fields.value).Some? &&
            a.model.fields == Some(BindNames(m.fields.value, FirstUnlinked(m.fields.value).value + 1)))
  {
    var m1 := WithSlug(m);
    assert m1.fields == m.fields;
    if TruthyText(m1.table) && m1.fields.Some? {
      var fs := m1.fields.value;
      if FirstUnlinked(fs).Some? {
        assert Attach(m) == Attached(m1.(fields := Some(BindNames(fs, FirstUnlinked(fs).value + 1))), Some(MissingReference));
      } else {
        assert Attach(m).model == m1.(fields := Some(BindNames(fs, |fs|)));
      }
    }
  }

  /**
   * `attachModels`' check of one model, as the code does it: a loop over the
   * fields that binds each name, notes a primary field, and stops at the first
   * unlinked foreign key.
   */
  method Validate(m: ModelSchema) returns (a: Attached)
    ensures a == Attach(m)
  {
    var bound := WithSlug(m);
    if !TruthyText(bound.table) {
      return Attached(bound, Some(TableNotSet(m.name)));
    }
    if bound.fields.None? {
      return Attached(bound, Some(FieldsNotSet(m.name)));
    }
    var fs := bound.fields.value;
    var named, hasPrimary, unlinked := BindFields(fs);
    bound := bound.(fields := Some(named));
    if unlinked.Some? {
      return Attached(bound, Some(MissingReference));
    }
    if !hasPrimary {
      return Attached(bound, Some(NoPrimaryKey(m.name)));
    }
    a := Attached(bound, None);
  }

  /** The loop over one model's fields: each field's name is bound in turn, a
      primary field is noted, and the first unlinked foreign key stops it. */
  method BindFields(fs: seq<FieldEntry>) returns (named: seq<FieldEntry>, hasPrimary: bool, unlinked: Option<nat>)
    ensures unlinked == FirstUnlinked(fs)
    ensures named == BindNames(fs, if unlinked.Some? then unlinked.value + 1 else |fs|)
    ensures unlinked.None? ==> (hasPrimary <==> FirstPrimary(fs).Some?)
  {
    named := fs;
    hasPrimary := false;
    var k := 0;
    assert BindNames(fs, 0) == fs;
    while k < |fs|
      invariant k <= |fs|
      invariant forall i :: 0 <= i < k ==> !Unlinked(fs[i].field)
      invariant hasPrimary <==> exists i :: 0 <= i < k && fs[i].field.primary
      invariant named == BindNames(fs, k)
    {
      BindNamesStep(fs, k);
      named := named[k := Named(fs[k])];
      if fs[k].field.primary {
        hasPrimary := true;
      }
      if Unlinked(fs[k].field) {
        assert FirstUnlinked(fs) == Some(k);
        return named, hasPrimary, Some(k);
      }
      k := k + 1;
    }
    assert FirstUnlinked(fs).None?;
    if hasPrimary {
      assert FirstPrimary(fs).Some? by {
        var i :| 0 <= i < |fs| && fs[i].field.primary;
      }
    }
    unlinked := None;
  }

  // ---------------------------------------------------------------------
  // The registry: an insertion-ordered map from model name to model
  // ---------------------------------------------------------------------

  /** The position of the entry named `name`, the first if there were several. */
  function IndexOf(reg: seq<ModelSchema>, name: string): (r: Option<nat>)
    ensures r.Some? ==> r.value < |reg| && reg[r.value].name == name
    ensures r.Some? ==> forall i :: 0 <= i < r.value ==> reg[i].name != name
    ensures r.None? <==> forall i :: 0 <= i < |reg| ==> reg[i].name != name
    decreases |reg|
  {
    if |reg| == 0 then None
    else if reg[0].name == name then Some(0)
    else
      var rest := IndexOf(reg[1..], name);
      if rest.Some? then Some(rest.value + 1) else None
  }

  /** `models.get(name)`. */
  function Get(reg: seq<ModelSchema>, name: string): Option<ModelSchema> {
    match IndexOf(reg, name)
    case Some(i) => Some(reg[i])
    case None => None
  }

  ghost predicate DistinctNames(reg: seq<ModelSchema>) {
    forall i, j :: 0 <= i < j < |reg| ==> reg[i].name != reg[j].name
  }

  /** The registry's keys, in order. */
  function Names(reg: seq<ModelSchema>): (r: seq<string>)
    ensures |r| == |reg| && forall i :: 0 <= i < |reg| ==> r[i] == reg[i].name
  {
    seq(|reg|, i requires 0 <= i < |reg| => reg[i].name)
  }

  /** `models.set(m.name, m)`: replaces in place when the name is present,
      appends otherwise. */
  function Put(reg: seq<ModelSchema>, m: ModelSchema): seq<ModelSchema> {
    match IndexOf(reg, m.name)
    case Some(i) => reg[i := m]
    case None => reg + [m]
  }

  /**
   * On a registry whose names are distinct, putting a model keeps the names
   * distinct, makes the model the entry for its name, leaves every other name's
   * entry as it was, and keeps the order: a known name stays where it was, a
   * new one goes last.
   */
  lemma PutSemantics(reg: seq<ModelSchema>, m: ModelSchema, n: string)
    requires DistinctNames(reg)
    ensures DistinctNames(Put(reg, m))
    ensures Get(Put(reg, m), m.name) == Some(m)
    ensures n != m.name ==> Get(Put(reg, m), n) == Get(reg, n)
    ensures Names(Put(reg, m)) == if Get(reg, m.name).Some? then Names(reg) else Names(reg) + [m.name]
  {
    var r := Put(reg, m);
    match IndexOf(reg, m.name)
    case Some(i) =>
      assert r == reg[i := m];
      assert Names(r) == Names(reg);
      assert DistinctNames(r);
      IndexOfDistinct(r, i);
      var k0 := IndexOf(reg, n);
      if n != m.name && k0.Some? {
        IndexOfDistinct(r, k0.value);
      }
    case None =>
      assert r == reg + [m];
      assert Names(r) == Names(reg) + [m.name];
      assert DistinctNames(r);
      IndexOfDistinct(r, |reg|);
      var k0 := IndexOf(reg, n);
      if n != m.name && k0.Some? {
        IndexOfDistinct(r, k0.value);
      }
  }

  /** With distinct names, an entry is found at its own position. */
  lemma {:induction false} IndexOfDistinct(reg: seq<ModelSchema>, i: nat)
    requires DistinctNames(reg) && i < |reg|
    ensures IndexOf(reg, reg[i].name) == Some(i)
    decreases i
  {
    if i > 0 {
      assert reg[0].name != reg[i].name;
      assert reg[1..][i - 1] == reg[i];
      IndexOfDistinct(reg[1..], i - 1);
    }
  }

  /** Putting several models, left to right. */
  function PutAll(reg: seq<ModelSchema>, ms: seq<ModelSchema>): seq<ModelSchema>
    decreases |ms|
  {
    if |ms| == 0 then reg else PutAll(Put(reg, ms[0]), ms[1..])
  }

  /** The last model in `ms` with the given name. */
  function LastNamed(ms: seq<ModelSchema>, n: string): Option<ModelSchema>
    decreases |ms|
  {
    if |ms| == 0 then None
    else
      var rest := LastNamed(ms[1..], n);
      if rest.Some? then rest else if ms[0].name == n then Some(ms[0]) else None
  }

  /** After putting several models, a name maps to the last model put under it,
      or to what it mapped to before when none was. */
  lemma {:induction false} PutAllGet(reg: seq<ModelSchema>, ms: seq<ModelSchema>, n: string)
    requires DistinctNames(reg)
    ensures DistinctNames(PutAll(reg, ms))
    ensures Get(PutAll(reg, ms), n) == if LastNamed(ms, n).Some? then LastNamed(ms, n) else Get(reg, n)
    decreases |ms|
  {
    if |ms| > 0 {
      PutSemantics(reg, ms[0], n);
      PutAllGet(Put(reg, ms[0]), ms[1..], n);
    }
  }

  /** Putting one model and then some more is putting them all. */
  lemma PutAllCons(reg: seq<ModelSchema>, m: ModelSchema, ms: seq<ModelSchema>)
    ensures PutAll(reg, [m] + ms) == PutAll(Put(reg, m), ms)
  {
    assert ([m] + ms)[1..] == ms;
  }

  /** Where an `attachModels` call stopped: the registry, the models as it left
      them (the last one rejected when there is an error), and the error. */
  datatype AttachRun = AttachRun(registry: seq<ModelSchema>, bound: seq<ModelSchema>, error: Option<Error>)

  /**
   * `attachModels(...ms)`: each model in turn is checked and put into the
   * registry; the first rejection throws, and the models put before it stay.
   */
  function AttachAll(reg: seq<ModelSchema>, ms: seq<ModelSchema>): (r: AttachRun)
    ensures |r.bound| <= |ms|
    ensures r.error.Some? ==> |r.bound| >= 1
    decreases |ms|
  {
    if |ms| == 0 then AttachRun(reg, [], None)
    else
      var a := Attach(ms[0]);
      if a.error.Some? then AttachRun(reg, [a.model], a.error)
      else
        var rest := AttachAll(Put(reg, a.model), ms[1..]);
        AttachRun(rest.registry, [a.model] + rest.bound, rest.error)
  }

  /** One model of `attachModels`: a rejection ends the call with that model
      last; otherwise the call goes on from the registry with the model put. */
  lemma AttachAllStep(reg: seq<ModelSchema>, ms: seq<ModelSchema>)
    requires |ms| > 0
    ensures var a := Attach(ms[0]); var r := AttachAll(reg, ms);
      && (a.error.Some? ==> r == AttachRun(reg, [a.model], a.error))
      && (a.error.None? ==>
            var rest := AttachAll(Put(reg, a.model), ms[1..]);
            r == AttachRun(rest.registry, [a.model] + rest.bound, rest.error))
  {
  }

  /** `attachModels` leaves the models it reached as attaching left them. */
  lemma {:induction false} AttachAllBinds(reg: seq<ModelSchema>, ms: seq<ModelSchema>)
    ensures var r := AttachAll(reg, ms);
      forall i :: 0 <= i < |r.bound| ==> r.bound[i] == Attach(ms[i]).model
    decreases |ms|
  {
    if |ms| > 0 && Attach(ms[0]).error.None? {
      var a := Attach(ms[0]);
      var rest := AttachAll(Put(reg, a.model), ms[1..]);
      AttachAllBinds(Put(reg, a.model), ms[1..]);
      var b := [a.model] + rest.bound;
      forall i | 0 < i < |b|
        ensures b[i] == Attach(ms[i]).model
      {
        assert b[i] == rest.bound[i - 1] && ms[i] == ms[1..][i - 1];
      }
    }
  }

  /** An `attachModels` call that does not throw accepted every model and put
      each into the registry, in order. */
  lemma {:induction false} AttachAllAccepts(reg: seq<ModelSchema>, ms: seq<ModelSchema>)
    ensures var r := AttachAll(reg, ms);
      r.error.None? ==>
        && |r.bound| == |ms| && r.registry == PutAll(reg, r.bound)
        && forall i :: 0 <= i < |ms| ==> Attach(ms[i]).error.None?
    decreases |ms|
  {
    if |ms| > 0 && Attach(ms[0]).error.None? {
      var a := Attach(ms[0]);
      var rest := AttachAll(Put(reg, a.model), ms[1..]);
      AttachAllAccepts(Put(reg, a.model), ms[1..]);
      assert ([a.model] + rest.bound)[1..] == rest.bound;
      if rest.error.None? {
        forall i | 0 < i < |ms|
          ensures Attach(ms[i]).error.None?
        {
          assert ms[i] == ms[1..][i - 1];
        }
      }
    }
  }

  /** An `attachModels` call that throws does so on the last model it reached,
      after accepting every earlier one. */
  lemma {:induction false} AttachAllStops(reg: seq<ModelSchema>, ms: seq<ModelSchema>)
    ensures var r := AttachAll(reg, ms);
      r.error.Some? ==>
        && r.error == Attach(ms[|r.bound| - 1]).error
        && (forall i :: 0 <= i < |r.bound| - 1 ==> Attach(ms[i]).error.None?)
    decreases |ms|
  {
    if |ms| > 0 && Attach(ms[0]).error.None? {
      var a := Attach(ms[0]);
      var rest := AttachAll(Put(reg, a.model), ms[1..]);
      AttachAllStops(Put(reg, a.model), ms[1..]);
      if rest.error.Some? {
        assert ms[|rest.bound|] == ms[1..][|rest.bound| - 1];
        forall i | 0 < i < |rest.bound|
          ensures Attach(ms[i]).error.None?
        {
          assert ms[i] == ms[1..][i - 1];
        }
      }
    }
  }

  /** A throwing `attachModels` call keeps in the registry the models it put
      before the one it rejected. */
  lemma {:induction false} AttachAllKeepsEarlier(reg: seq<ModelSchema>, ms: seq<ModelSchema>)
    ensures var r := AttachAll(reg, ms);
      r.error.Some? ==> r.registry == PutAll(reg, r.bound[..|r.bound| - 1])
    decreases |ms|
  {
    if |ms| > 0 && Attach(ms[0]).error.None? {
      var a := Attach(ms[0]).model;
      var rest := AttachAll(Put(reg, a), ms[1..]);
      AttachAllKeepsEarlier(Put(reg, a), ms[1..]);
      if rest.error.Some? {
        assert AttachAll(reg, ms) == AttachRun(rest.registry, [a] + rest.bound, rest.error);
        PutAllCons(reg, a, rest.bound[..|rest.bound| - 1]);
        assert ([a] + rest.bound)[..|rest.bound|] == [a] + rest.bound[..|rest.bound| - 1];
      }
    }
  }

  /**
   * Every model an accepted call attached can be looked up under its name, as
   * the last model of that name in the call left it.
   */
  lemma AttachedAreRegistered(reg: seq<ModelSchema>, ms: seq<ModelSchema>, n: string)
    requires DistinctNames(reg)
    requires AttachAll(reg, ms).error.None?
    ensures var r := AttachAll(reg, ms);
      Get(r.registry, n) == if LastNamed(r.bound, n).Some? then LastNamed(r.bound, n) else Get(reg, n)
  {
    AttachAllAccepts(reg, ms);
    PutAllGet(reg, AttachAll(reg, ms).bound, n);
  }

  // ---------------------------------------------------------------------
  // The example schema: an admin and a user that references it
  // ---------------------------------------------------------------------

  /** A field of the given kind with nothing else set. */
  function Plain(kind: FieldKind): FieldSchema {
    FieldSchema(None, kind, None, false, None, false, None, false, None, false, None, false, None)
  }

  const AdminId: FieldSchema := Plain(String).(length := Some(5), primary := true, unique := true)

  const AdminModel: ModelSchema := ModelSchema("Admin", None, Some("admins"),
    Some([FieldEntry("id", AdminId), FieldEntry("description", Plain(Text).(notNull := true))]), None, None, true)

  /** The user's foreign key holds the admin's id field after the admin was
      attached, so its name is bound. */
  const UserModel: ModelSchema := ModelSchema("User", None, Some("users"),
    Some([
      FieldEntry("id", Plain(String).(alias := Some("yo"), length := Some(10), primary := true, unique := true)),
      FieldEntry("email", Plain(String).(length := Some(50), index := true, notNull := true)),
      FieldEntry("adminId", Plain(ForeignKey).(index := true,
        reference := Some(Reference(AdminModel, AdminId.(name := Some("id")), Some(HasOne)))))]),
    None, None, true)

  /** The admin model is accepted. */
  lemma AdminAttaches()
    ensures Attach(AdminModel).error.None?
  {
    AttachAcceptsIff(AdminModel);
    assert AdminModel.fields.value[0].field.primary;
  }

  /** The user model is accepted under the default slug, and its primary field
      is its `id`, with its name bound. */
  lemma UserAttaches()
    ensures Attach(UserModel).error.None?
    ensures Attach(UserModel).model.dbConnSlug == Some(DefaultSlug)
    ensures GetPrimaryField(Attach(UserModel).model) == Success(Some(UserModel.fields.value[0].field.(name := Some("id"))))
  {
    AttachAcceptsIff(UserModel);
    assert UserModel.fields.value[0].field.primary;
    var bound := Attach(UserModel).model;
    assert bound.fields.value[0].field.primary;
  }

  /** Both example models attach, in either order. */
  lemma ExampleModelsAttach()
    ensures AttachAll([], [AdminModel, UserModel]).error.None?
    ensures AttachAll([], [UserModel, AdminModel]).error.None?
  {
    AdminAttaches();
    UserAttaches();
    assert [AdminModel, UserModel][1..] == [UserModel];
    assert [UserModel, AdminModel][1..] == [AdminModel];
  }
}
