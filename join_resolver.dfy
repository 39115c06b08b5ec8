/**
 * Join resolution inside `fetch`, as a specification. For each row and each
 * join chain the walk goes left to right: the current object's foreign-key
 * value must be truthy, the referenced entity is looked up by primary key
 * through a cache that lives for one fetch, it is attached under
 * `<field>_model`, and the walk continues from it.
 *
 * Objects are shared in the source: the entity in the cache is the same object
 * every row that reaches it holds, and a later hop that writes into it writes
 * into the cached object. The model keeps that sharing by storing entities only
 * in the cache and putting `Entity(key)` in the properties that hold them.
 */
module JoinResolver {

  import opened Wrappers
  import opened Values
  import opened Schema
  import opened Client
  import opened QueryState
  import opened QueryResults

  /** Which object the walk stands on: a fetched row, a cached entity, or
      `undefined` (a lookup that found nothing). */
  datatype Cursor = AtRow(i: nat) | AtEntity(key: CacheKey) | AtUndefined

  /** One primary-key lookup the walk issued, and whether it found an entity. */
  datatype Lookup = Lookup(key: CacheKey, found: bool)

  /**
   * The state of one fetch's walk: the fetched rows, the cache (unset entries
   * are absent; `None` is a cached `undefined`), the connection's statement
   * history, and the lookups issued so far.
   */
  datatype Walk = Walk(
    rows: seq<Record>,
    cache: map<CacheKey, Option<Record>>,
    history: seq<Statement>,
    lookups: seq<Lookup>)

  /** Where a walk over one chain stopped, and the error if it threw. */
  datatype Walked = Walked(w: Walk, cursor: Cursor, error: Option<Error>)

  /** Where a walk over rows or chains stopped, and the error if it threw. */
  datatype Resolved = Resolved(w: Walk, error: Option<Error>)

  /** What a fetch returns: the rows, and the entities the rows point into. */
  datatype Fetched = Fetched(result: QueryResult<Record>, entities: map<CacheKey, Option<Record>>)

  ghost predicate CursorOk(w: Walk, c: Cursor) {
    match c
    case AtRow(i) => i < |w.rows|
    case AtEntity(k) => k in w.cache && w.cache[k].Some?
    case AtUndefined => true
  }

  /** The rows stay as many, and a cached entity stays cached. */
  ghost predicate Persists(w: Walk, w': Walk) {
    && |w'.rows| == |w.rows|
    && forall k :: k in w.cache && w.cache[k].Some? ==> k in w'.cache && w'.cache[k].Some?
  }

  /** Property `p` is the same on two objects: set on both with one value, or
      unset on both. */
  predicate SameProp(a: Record, b: Record, p: string) {
    (p in a <==> p in b) && (p in a ==> a[p] == b[p])
  }

  /** The name of the referenced model, as the cache's first key; "undefined"
      when the field has no reference. */
  function RefModelName(f: FieldSchema): string {
    match f.reference
    case Some(r) => r.model.name
    case None => "undefined"
  }

  /** `col[name]` on the object under the cursor. */
  function Read(w: Walk, c: Cursor, name: string): Value
    requires CursorOk(w, c) && !c.AtUndefined?
  {
    match c
    case AtRow(i) => Prop(w.rows[i], name)
    case AtEntity(k) => Prop(w.cache[k].value, name)
  }

  /** `col[name] = v` on the object under the cursor. */
  function Write(w: Walk, c: Cursor, name: string, v: Value): (r: Walk)
    requires CursorOk(w, c) && !c.AtUndefined?
    ensures r.history == w.history && r.lookups == w.lookups && r.cache.Keys == w.cache.Keys
    ensures forall k :: k in w.cache ==> (r.cache[k].Some? <==> w.cache[k].Some?)
    ensures Persists(w, r) && CursorOk(r, c) && Read(r, c, name) == v
    ensures c.AtRow? ==> name in r.rows[c.i] && r.cache == w.cache
    ensures c.AtEntity? ==> r.rows == w.rows
    ensures forall n :: 0 <= n < |w.rows| && c != AtRow(n) ==> r.rows[n] == w.rows[n]
    ensures forall i, p :: 0 <= i < |w.rows| && (c != AtRow(i) || p != name) ==> SameProp(w.rows[i], r.rows[i], p)
  {
    match c
    case AtRow(i) => w.(rows := w.rows[i := w.rows[i][name := v]])
    case AtEntity(k) => w.(cache := w.cache[k := Some(w.cache[k].value[name := v])])
  }

  /**
   * The cached lookup of one key: `m.q().wherePk(id).fetchFirst()` on the
   * referenced model. A key whose cached entity is set is not looked up again.
   * Otherwise the referenced model is queried by primary key and the first row
   * found, or `undefined`, is cached. A field without a reference caches
   * `undefined` and queries nothing, as optional chaining does.
   */
  function LookUp(quote: string -> string, answer: (seq<Statement>, Statement) -> Response,
                  w: Walk, key: CacheKey, f: FieldSchema, id: Value): (r: Resolved)
    ensures Persists(w, r.w) && r.w.rows == w.rows
    ensures r.error.None? ==> key in r.w.cache
    ensures r.error.Some? ==> r.w == w
    ensures key in w.cache && w.cache[key].Some? ==> r == Resolved(w, None)
    ensures forall k :: k in w.cache && k != key ==> k in r.w.cache && r.w.cache[k] == w.cache[k]
    ensures !(key in w.cache && w.cache[key].Some?) && f.reference.None? ==>
      && r.error.None? && r.w.cache[key].None?
      && r.w.history == w.history && r.w.lookups == w.lookups
    ensures !(key in w.cache && w.cache[key].Some?) && f.reference.Some? ==>
      var q := PkSelect(quote, f.reference.value.model, id);
      && (q.Failure? ==> r.error == Some(q.error))
      && (q.Success? ==>
            && r.error.None?
            && r.w.history == w.history + [Select(q.value)]
            && r.w.cache[key] == QueryResult(answer(w.history, Select(q.value)).rows).First()
            && r.w.lookups == w.lookups + [Lookup(key, r.w.cache[key].Some?)])
  {
    if key in w.cache && w.cache[key].Some? then Resolved(w, None)
    else
      match f.reference
      case None => Resolved(w.(cache := w.cache[key := None]), None)
      case Some(rf) =>
        match PkSelect(quote, rf.model, id)
        case Failure(e) => Resolved(w, Some(e))
        case Success(q) =>
          var found := QueryResult(answer(w.history, Select(q)).rows).First();
          Resolved(Walk(w.rows, w.cache[key := found], w.history + [Select(q)],
                        w.lookups + [Lookup(key, found.Some?)]), None)
  }

  /**
   * One hop of a chain from the object under the cursor. Standing on
   * `undefined` throws a TypeError; a falsy key value throws the join error
   * naming the field; otherwise the looked-up entity is attached under
   * `<field>_model` and the cursor moves onto it.
   */
  function Hop(quote: string -> string, answer: (seq<Statement>, Statement) -> Response,
               w: Walk, c: Cursor, f: FieldSchema): (h: Walked)
    requires CursorOk(w, c)
    ensures Persists(w, h.w) && CursorOk(h.w, h.cursor)
    ensures c.AtUndefined? ==> h.error.Some? && h.error.value.TypeError? && h.w == w
    ensures !c.AtUndefined? && !Truthy(Read(w, c, NameText(f))) ==>
      h == Walked(w, c, Some(JoinFailed(NameText(f))))
    ensures h.error.None? ==>
      && !c.AtUndefined? && Truthy(Read(w, c, NameText(f)))
      && var key := CacheKey(RefModelName(f), NameText(f), ValueText(Read(w, c, NameText(f))));
      && key in h.w.cache && CursorOk(h.w, c)
      && h.cursor == (if h.w.cache[key].Some? then AtEntity(key) else AtUndefined)
      && Read(h.w, c, NameText(f) + "_model") == (if h.w.cache[key].Some? then Entity(key) else Undefined)
    ensures !c.AtUndefined? && Truthy(Read(w, c, NameText(f))) ==>
      var key := CacheKey(RefModelName(f), NameText(f), ValueText(Read(w, c, NameText(f))));
      key in w.cache && w.cache[key].Some? ==>
        h.error.None? && h.w.history == w.history && h.cursor == AtEntity(key)
    ensures !c.AtUndefined? && Truthy(Read(w, c, NameText(f))) ==>
      var id := Read(w, c, NameText(f));
      var key := CacheKey(RefModelName(f), NameText(f), ValueText(id));
      var l := LookUp(quote, answer, w, key, f, id);
      && h.error == l.error
      && h.w.history == l.w.history && h.w.lookups == l.w.lookups
      && (h.error.None? ==>
            && (h.w.cache[key].Some? <==> l.w.cache[key].Some?)
            && (c != AtEntity(key) ==> h.w.cache[key] == l.w.cache[key]))
  {
    var name := NameText(f);
    if c.AtUndefined? then Walked(w, c, Some(TypeError("cannot read property '" + name + "' of undefined")))
    else
      var id := Read(w, c, name);
      if !Truthy(id) then Walked(w, c, Some(JoinFailed(name)))
      else
        var key := CacheKey(RefModelName(f), name, ValueText(id));
        var l := LookUp(quote, answer, w, key, f, id);
        if l.error.Some? then Walked(l.w, c, l.error)
        else
          var found := l.w.cache[key].Some?;
          var w' := Write(l.w, c, name + "_model", if found then Entity(key) else Undefined);
          Walked(w', if found then AtEntity(key) else AtUndefined, None)
  }

  /** The walk along one chain, from hop `k` on. */
  function Chain(quote: string -> string, answer: (seq<Statement>, Statement) -> Response,
                 w: Walk, c: Cursor, chain: seq<FieldSchema>, k: nat): (r: Walked)
    requires k <= |chain| && CursorOk(w, c)
    ensures Persists(w, r.w) && CursorOk(r.w, r.cursor)
    decreases |chain| - k
  {
    if k == |chain| then Walked(w, c, None)
    else
      var h := Hop(quote, answer, w, c, chain[k]);
      if h.error.Some? then h else Chain(quote, answer, h.w, h.cursor, chain, k + 1)
  }

  /** Every chain, from chain `j` on, each walked from row `i`. */
  function Joins(quote: string -> string, answer: (seq<Statement>, Statement) -> Response,
                 w: Walk, joins: seq<seq<FieldSchema>>, i: nat, j: nat): (r: Resolved)
    requires i < |w.rows| && j <= |joins|
    ensures Persists(w, r.w)
    decreases |joins| - j
  {
    if j == |joins| then Resolved(w, None)
    else
      var c := Chain(quote, answer, w, AtRow(i), joins[j], 0);
      if c.error.Some? then Resolved(c.w, c.error) else Joins(quote, answer, c.w, joins, i, j + 1)
  }

  /** Every row from row `i` on, each through every chain. */
  function Rows(quote: string -> string, answer: (seq<Statement>, Statement) -> Response,
                w: Walk, joins: seq<seq<FieldSchema>>, i: nat): (r: Resolved)
    requires i <= |w.rows|
    ensures Persists(w, r.w)
    decreases |w.rows| - i
  {
    if i == |w.rows| then Resolved(w, None)
    else
      var r := Joins(quote, answer, w, joins, i, 0);
      if r.error.Some? then r else Rows(quote, answer, r.w, joins, i + 1)
  }

  /** What is left of a row's chains once chain `j` has been walked. */
  function AfterChain(quote: string -> string, answer: (seq<Statement>, Statement) -> Response,
                      c: Walked, joins: seq<seq<FieldSchema>>, i: nat, j: nat): Resolved
    requires i < |c.w.rows| && j < |joins|
  {
    if c.error.Some? then Resolved(c.w, c.error) else Joins(quote, answer, c.w, joins, i, j + 1)
  }

  /** What is left of the rows once row `i` has been through every chain. */
  function AfterJoins(quote: string -> string, answer: (seq<Statement>, Statement) -> Response,
                      r: Resolved, joins: seq<seq<FieldSchema>>, i: nat): Resolved
    requires i < |r.w.rows|
  {
    if r.error.Some? then r else Rows(quote, answer, r.w, joins, i + 1)
  }

  /** The walk a fetch starts: the base select's rows, an empty cache created
      for this fetch alone, and the base select in the history. */
  function StartWalk(answer: (seq<Statement>, Statement) -> Response, h: seq<Statement>, q: SelectQuery): Walk {
    Walk(answer(h, Select(q)).rows, map[], h + [Select(q)], [])
  }

  /** `fetch()`: run the builder's SELECT, then resolve every join chain on
      every row. */
  function FetchSpec(quote: string -> string, answer: (seq<Statement>, Statement) -> Response,
                     h: seq<Statement>, from: Option<string>, s: BuilderState): Resolved
  {
    Rows(quote, answer, StartWalk(answer, h, SelectOf(from, s)), s.joins, 0)
  }

  /** What a successful fetch hands back. */
  function FetchedOf(r: Resolved): Fetched {
    Fetched(QueryResult(r.w.rows), r.w.cache)
  }

  // ---------------------------------------------------------------------
  // The cache: within one fetch, a key whose lookup found an entity is never
  // looked up again, and every lookup is one statement on the connection.
  // ---------------------------------------------------------------------

  /** Every lookup that found an entity left it cached, and no later lookup
      has the same key. */
  ghost predicate CacheSound(w: Walk) {
    && (forall n :: 0 <= n < |w.lookups| && w.lookups[n].found ==>
          w.lookups[n].key in w.cache && w.cache[w.lookups[n].key].Some?)
    && (forall a, b :: 0 <= a < b < |w.lookups| && w.lookups[a].found ==>
          w.lookups[a].key != w.lookups[b].key)
  }

  /** The history and the lookups only grow, and they grow together: one
      statement per lookup. */
  ghost predicate Grows(w: Walk, w': Walk) {
    && w.history <= w'.history
    && w.lookups <= w'.lookups
    && |w'.history| - |w.history| == |w'.lookups| - |w.lookups|
  }

  /** Recording a lookup of a key with no cached entity keeps the cache sound. */
  lemma NewLookupSound(w: Walk, key: CacheKey, found: Option<Record>, st: Statement)
    requires CacheSound(w) && !(key in w.cache && w.cache[key].Some?)
    ensures CacheSound(Walk(w.rows, w.cache[key := found], w.history + [st],
                            w.lookups + [Lookup(key, found.Some?)]))
  {
    var w' := Walk(w.rows, w.cache[key := found], w.history + [st], w.lookups + [Lookup(key, found.Some?)]);
    forall n | 0 <= n < |w'.lookups| && w'.lookups[n].found
      ensures w'.lookups[n].key in w'.cache && w'.cache[w'.lookups[n].key].Some?
    {
      if n < |w.lookups| {
        assert w'.lookups[n] == w.lookups[n];
      }
    }
    forall a, b | 0 <= a < b < |w'.lookups| && w'.lookups[a].found
      ensures w'.lookups[a].key != w'.lookups[b].key
    {
      assert w'.lookups[a] == w.lookups[a];
      if b < |w.lookups| {
        assert w'.lookups[b] == w.lookups[b];
      }
    }
  }

  lemma LookUpSound(quote: string -> string, answer: (seq<Statement>, Statement) -> Response,
                    w: Walk, key: CacheKey, f: FieldSchema, id: Value)
    requires CacheSound(w)
    ensures CacheSound(LookUp(quote, answer, w, key, f, id).w)
    ensures Grows(w, LookUp(quote, answer, w, key, f, id).w)
  {
    if key in w.cache && w.cache[key].Some? {
    } else if f.reference.Some? && PkSelect(quote, f.reference.value.model, id).Success? {
      // a statement is issued only when the key has no cached entity
      var r := LookUp(quote, answer, w, key, f, id);
      var q := PkSelect(quote, f.reference.value.model, id).value;
      var resp := answer(w.history, Select(q));
      var found := if |resp.rows| > 0 then Some(resp.rows[0]) else None;
      assert r.w == Walk(w.rows, w.cache[key := found], w.history + [Select(q)],
                         w.lookups + [Lookup(key, found.Some?)]);
      NewLookupSound(w, key, found, Select(q));
    }
  }

  lemma {:induction false} HopSound(quote: string -> string, answer: (seq<Statement>, Statement) -> Response,
                                    w: Walk, c: Cursor, f: FieldSchema)
    requires CursorOk(w, c) && CacheSound(w)
    ensures CacheSound(Hop(quote, answer, w, c, f).w) && Grows(w, Hop(quote, answer, w, c, f).w)
  {
    if !c.AtUndefined? {
      var name := NameText(f);
      var id := Read(w, c, name);
      if Truthy(id) {
        var key := CacheKey(RefModelName(f), name, ValueText(id));
        LookUpSound(quote, answer, w, key, f, id);
      }
    }
  }

  lemma {:induction false} ChainSound(quote: string -> string, answer: (seq<Statement>, Statement) -> Response,
                                      w: Walk, c: Cursor, chain: seq<FieldSchema>, k: nat)
    requires k <= |chain| && CursorOk(w, c) && CacheSound(w)
    ensures CacheSound(Chain(quote, answer, w, c, chain, k).w) && Grows(w, Chain(quote, answer, w, c, chain, k).w)
    decreases |chain| - k
  {
    if k < |chain| {
      var h := Hop(quote, answer, w, c, chain[k]);
      HopSound(quote, answer, w, c, chain[k]);
      if h.error.None? {
        ChainSound(quote, answer, h.w, h.cursor, chain, k + 1);
      }
    }
  }

  lemma {:induction false} JoinsSound(quote: string -> string, answer: (seq<Statement>, Statement) -> Response,
                                      w: Walk, joins: seq<seq<FieldSchema>>, i: nat, j: nat)
    requires i < |w.rows| && j <= |joins| && CacheSound(w)
    ensures CacheSound(Joins(quote, answer, w, joins, i, j).w) && Grows(w, Joins(quote, answer, w, joins, i, j).w)
    decreases |joins| - j
  {
    if j < |joins| {
      var c := Chain(quote, answer, w, AtRow(i), joins[j], 0);
      ChainSound(quote, answer, w, AtRow(i), joins[j], 0);
      if c.error.None? {
        JoinsSound(quote, answer, c.w, joins, i, j + 1);
      }
    }
  }

  lemma {:induction false} RowsSound(quote: string -> string, answer: (seq<Statement>, Statement) -> Response,
                                     w: Walk, joins: seq<seq<FieldSchema>>, i: nat)
    requires i <= |w.rows| && CacheSound(w)
    ensures CacheSound(Rows(quote, answer, w, joins, i).w) && Grows(w, Rows(quote, answer, w, joins, i).w)
    decreases |w.rows| - i
  {
    if i < |w.rows| {
      var r := Joins(quote, answer, w, joins, i, 0);
      JoinsSound(quote, answer, w, joins, i, 0);
      if r.error.None? {
        RowsSound(quote, answer, r.w, joins, i + 1);
      }
    }
  }

  /**
   * Within one fetch, a key (referenced model, field, key value) whose lookup
   * found an entity is looked up at most once, whether the fetch succeeds or
   * throws; and the statements a fetch issues are the base select followed by
   * exactly one select per lookup.
   */
  lemma FetchLooksUpOnce(quote: string -> string, answer: (seq<Statement>, Statement) -> Response,
                         h: seq<Statement>, from: Option<string>, s: BuilderState)
    ensures var r := FetchSpec(quote, answer, h, from, s);
      && (forall a, b :: 0 <= a < b < |r.w.lookups| && r.w.lookups[a].found ==>
            r.w.lookups[a].key != r.w.lookups[b].key)
      && h + [Select(SelectOf(from, s))] <= r.w.history
      && |r.w.history| == |h| + 1 + |r.w.lookups|
  {
    var w0 := StartWalk(answer, h, SelectOf(from, s));
    RowsSound(quote, answer, w0, s.joins, 0);
  }

  /** Without join chains nothing is looked up: the fetch is its base select. */
  lemma {:induction false} RowsWithoutJoins(quote: string -> string, answer: (seq<Statement>, Statement) -> Response,
                                            w: Walk, i: nat)
    requires i <= |w.rows|
    ensures Rows(quote, answer, w, [], i) == Resolved(w, None)
    decreases |w.rows| - i
  {
    if i < |w.rows| {
      RowsWithoutJoins(quote, answer, w, i + 1);
    }
  }

  /** A fetch with no joins returns the rows of its one select, unchanged. */
  lemma FetchWithoutJoins(quote: string -> string, answer: (seq<Statement>, Statement) -> Response,
                          h: seq<Statement>, from: Option<string>, s: BuilderState)
    requires s.joins == []
    ensures FetchSpec(quote, answer, h, from, s) ==
      Resolved(StartWalk(answer, h, SelectOf(from, s)), None)
  {
    RowsWithoutJoins(quote, answer, StartWalk(answer, h, SelectOf(from, s)), 0);
  }

  /** A falsy key on the first hop of the first chain of the first row makes the
      whole fetch throw the join error naming that field. */
  lemma FetchFailsOnFalsyKey(quote: string -> string, answer: (seq<Statement>, Statement) -> Response,
                             h: seq<Statement>, from: Option<string>, s: BuilderState)
    requires |s.joins| > 0 && |s.joins[0]| > 0
    requires var w0 := StartWalk(answer, h, SelectOf(from, s));
      |w0.rows| > 0 && !Truthy(Prop(w0.rows[0], NameText(s.joins[0][0])))
    ensures FetchSpec(quote, answer, h, from, s).error == Some(JoinFailed(NameText(s.joins[0][0])))
  {
    var w0 := StartWalk(answer, h, SelectOf(from, s));
    var hop := Hop(quote, answer, w0, AtRow(0), s.joins[0][0]);
    assert hop.error == Some(JoinFailed(NameText(s.joins[0][0])));
    assert Chain(quote, answer, w0, AtRow(0), s.joins[0], 0) == hop;
  }

  // ---------------------------------------------------------------------
  // What a fetch attaches to its rows, and where it stops
  // ---------------------------------------------------------------------

  /** The cache key a hop through `f` builds from the row's own key value. */
  function RowKey(row: Record, f: FieldSchema): CacheKey {
    CacheKey(RefModelName(f), NameText(f), ValueText(Prop(row, NameText(f))))
  }

  /** Row `i` holds what a hop through `f` attaches: its `<field>_model`
      property is set, either to `undefined` (the lookup found nothing) or to
      the entity cached under the key built from the row's own value of `f`. */
  ghost predicate Attached(w: Walk, i: nat, f: FieldSchema) {
    && i < |w.rows|
    && NameText(f) + "_model" in w.rows[i]
    && var v := w.rows[i][NameText(f) + "_model"];
       (v == Undefined || (v == Entity(RowKey(w.rows[i], f)) && v.key in w.cache && w.cache[v.key].Some?))
  }

  /** A hop through `g` on a row leaves the attachment of `f` there intact:
      `g` writes neither `f`'s key nor, unless it is the same lookup, `f`'s
      `_model`. */
  ghost predicate Spares(g: FieldSchema, f: FieldSchema) {
    && NameText(g) + "_model" != NameText(f)
    && (NameText(g) == NameText(f) ==> RefModelName(g) == RefModelName(f))
  }

  /** The first fields of the chains spare each other. */
  ghost predicate Compatible(joins: seq<seq<FieldSchema>>) {
    forall a, b :: 0 <= a < |joins| && 0 <= b < |joins| && |joins[a]| > 0 && |joins[b]| > 0 ==>
      Spares(joins[a][0], joins[b][0])
  }

  /** Every attachment of a chain's first field survives from `w` to `w'`. */
  ghost predicate KeepsAttached(w: Walk, w': Walk, joins: seq<seq<FieldSchema>>) {
    forall n, j :: 0 <= j < |joins| && |joins[j]| > 0 && Attached(w, n, joins[j][0]) ==>
      Attached(w', n, joins[j][0])
  }

  lemma KeepsAttachedTrans(a: Walk, b: Walk, c: Walk, joins: seq<seq<FieldSchema>>)
    requires KeepsAttached(a, b, joins) && KeepsAttached(b, c, joins)
    ensures KeepsAttached(a, c, joins)
  {
  }

  /** Two fields whose `_model` properties coincide have the same name. */
  lemma ModelSuffix(a: string, b: string)
    requires a + "_model" == b + "_model"
    ensures a == b
  {
    assert a == (a + "_model")[..|a|];
    assert b == (b + "_model")[..|b|];
  }

  /** A hop keeps every attachment it spares, and a hop from a row that does
      not throw attaches its field on that row. */
  lemma HopAttaches(quote: string -> string, answer: (seq<Statement>, Statement) -> Response,
                    w: Walk, c: Cursor, g: FieldSchema)
    requires CursorOk(w, c)
    ensures var h := Hop(quote, answer, w, c, g);
      && (forall i, f :: Attached(w, i, f) && (c == AtRow(i) ==> Spares(g, f)) ==> Attached(h.w, i, f))
      && (h.error.None? && c.AtRow? ==> Attached(h.w, c.i, g))
  {
    var h := Hop(quote, answer, w, c, g);
    var name := NameText(g);
    if !c.AtUndefined? && Truthy(Read(w, c, name)) {
      var id := Read(w, c, name);
      var key := CacheKey(RefModelName(g), name, ValueText(id));
      var l := LookUp(quote, answer, w, key, g, id);
      if l.error.None? {
        var found := l.w.cache[key].Some?;
        assert h.w == Write(l.w, c, name + "_model", if found then Entity(key) else Undefined);
        forall i: nat, f | Attached(w, i, f) && (c == AtRow(i) ==> Spares(g, f))
          ensures Attached(h.w, i, f)
        {
          var nm := NameText(f);
          assert SameProp(w.rows[i], h.w.rows[i], nm);
          if c == AtRow(i) && nm + "_model" == name + "_model" {
            ModelSuffix(nm, name);
          } else {
            assert SameProp(w.rows[i], h.w.rows[i], nm + "_model");
          }
        }
        if c.AtRow? {
          assert RowKey(h.w.rows[c.i], g) == key by {
            assert SameProp(w.rows[c.i], h.w.rows[c.i], name);
          }
        }
      }
    }
  }

  /** A chain keeps every attachment its first field spares, and a chain
      walked from a row without throwing attaches its first field there. */
  lemma {:induction false} ChainAttaches(quote: string -> string, answer: (seq<Statement>, Statement) -> Response,
                                         w: Walk, c: Cursor, chain: seq<FieldSchema>, k: nat)
    requires k <= |chain| && CursorOk(w, c)
    ensures var r := Chain(quote, answer, w, c, chain, k);
      && (forall i, f :: Attached(w, i, f) && (c == AtRow(i) && k < |chain| ==> Spares(chain[k], f)) ==>
            Attached(r.w, i, f))
      && (r.error.None? && c.AtRow? && k < |chain| ==> Attached(r.w, c.i, chain[k]))
    decreases |chain| - k
  {
    if k < |chain| {
      var h := Hop(quote, answer, w, c, chain[k]);
      HopAttaches(quote, answer, w, c, chain[k]);
      if h.error.None? {
        ChainAttaches(quote, answer, h.w, h.cursor, chain, k + 1);
        assert Chain(quote, answer, w, c, chain, k) == Chain(quote, answer, h.w, h.cursor, chain, k + 1);
        assert !h.cursor.AtRow?;
      }
    }
  }

  /** The chains of one row, from chain `j` on, keep every attachment and,
      when none throws, attach the first field of each on that row. */
  lemma {:induction false} JoinsAttach(quote: string -> string, answer: (seq<Statement>, Statement) -> Response,
                                       w: Walk, joins: seq<seq<FieldSchema>>, i: nat, j: nat)
    requires i < |w.rows| && j <= |joins| && Compatible(joins)
    ensures var r := Joins(quote, answer, w, joins, i, j);
      && KeepsAttached(w, r.w, joins)
      && (r.error.None? ==>
            forall n :: j <= n < |joins| && |joins[n]| > 0 ==> Attached(r.w, i, joins[n][0]))
    decreases |joins| - j
  {
    if j < |joins| {
      var c := Chain(quote, answer, w, AtRow(i), joins[j], 0);
      ChainAttaches(quote, answer, w, AtRow(i), joins[j], 0);
      assert KeepsAttached(w, c.w, joins) by {
        forall n, b | 0 <= b < |joins| && |joins[b]| > 0 && Attached(w, n, joins[b][0])
          ensures Attached(c.w, n, joins[b][0])
        {
          if |joins[j]| > 0 {
            assert Spares(joins[j][0], joins[b][0]);
          }
        }
      }
      if c.error.None? {
        var r := Joins(quote, answer, c.w, joins, i, j + 1);
        JoinsAttach(quote, answer, c.w, joins, i, j + 1);
        assert Joins(quote, answer, w, joins, i, j) == r;
        KeepsAttachedTrans(w, c.w, r.w, joins);
        if r.error.None? {
          forall n | j <= n < |joins| && |joins[n]| > 0
            ensures Attached(r.w, i, joins[n][0])
          {
            if n == j {
              assert Attached(c.w, i, joins[j][0]);
            }
          }
        }
      }
    }
  }

  /** An attachment survives a walk that leaves its row as it was and keeps
      every cached entity. */
  lemma AttachedFramed(w: Walk, w': Walk, n: nat, f: FieldSchema)
    requires Attached(w, n, f) && Persists(w, w') && w'.rows[n] == w.rows[n]
    ensures Attached(w', n, f)
  {
  }

  /** A hop writes no row but the one under the cursor. */
  lemma HopRows(quote: string -> string, answer: (seq<Statement>, Statement) -> Response,
                w: Walk, c: Cursor, g: FieldSchema)
    requires CursorOk(w, c)
    ensures var h := Hop(quote, answer, w, c, g);
      forall n :: 0 <= n < |w.rows| && c != AtRow(n) ==> h.w.rows[n] == w.rows[n]
  {
    var h := Hop(quote, answer, w, c, g);
    var name := NameText(g);
    if !c.AtUndefined? && Truthy(Read(w, c, name)) {
      var id := Read(w, c, name);
      var key := CacheKey(RefModelName(g), name, ValueText(id));
      var l := LookUp(quote, answer, w, key, g, id);
      if l.error.None? {
        var found := l.w.cache[key].Some?;
        assert h.w == Write(l.w, c, name + "_model", if found then Entity(key) else Undefined);
      }
    }
  }

  /** A chain writes no row but the one it starts from. */
  lemma {:induction false} ChainRows(quote: string -> string, answer: (seq<Statement>, Statement) -> Response,
                                     w: Walk, c: Cursor, chain: seq<FieldSchema>, k: nat)
    requires k <= |chain| && CursorOk(w, c)
    ensures var r := Chain(quote, answer, w, c, chain, k);
      forall n :: 0 <= n < |w.rows| && c != AtRow(n) ==> r.w.rows[n] == w.rows[n]
    decreases |chain| - k
  {
    if k < |chain| {
      var h := Hop(quote, answer, w, c, chain[k]);
      HopRows(quote, answer, w, c, chain[k]);
      if h.error.None? {
        ChainRows(quote, answer, h.w, h.cursor, chain, k + 1);
        assert Chain(quote, answer, w, c, chain, k) == Chain(quote, answer, h.w, h.cursor, chain, k + 1);
        assert !h.cursor.AtRow?;
      }
    }
  }

  /** The chains of row `i` write no other row. */
  lemma {:induction false} JoinsRows(quote: string -> string, answer: (seq<Statement>, Statement) -> Response,
                                     w: Walk, joins: seq<seq<FieldSchema>>, i: nat, j: nat)
    requires i < |w.rows| && j <= |joins|
    ensures var r := Joins(quote, answer, w, joins, i, j);
      forall n :: 0 <= n < |w.rows| && n != i ==> r.w.rows[n] == w.rows[n]
    decreases |joins| - j
  {
    if j < |joins| {
      var c := Chain(quote, answer, w, AtRow(i), joins[j], 0);
      ChainRows(quote, answer, w, AtRow(i), joins[j], 0);
      if c.error.None? {
        JoinsRows(quote, answer, c.w, joins, i, j + 1);
      }
    }
  }

  /** The rows from row `i` on leave the rows before `i` as they were. */
  lemma {:induction false} RowsBelow(quote: string -> string, answer: (seq<Statement>, Statement) -> Response,
                                     w: Walk, joins: seq<seq<FieldSchema>>, i: nat)
    requires i <= |w.rows|
    ensures var r := Rows(quote, answer, w, joins, i);
      forall n :: 0 <= n < i ==> r.w.rows[n] == w.rows[n]
    decreases |w.rows| - i
  {
    if i < |w.rows| {
      var r := Joins(quote, answer, w, joins, i, 0);
      JoinsRows(quote, answer, w, joins, i, 0);
      if r.error.None? {
        RowsBelow(quote, answer, r.w, joins, i + 1);
      }
    }
  }

  /** The rows from row `i` on, when none throws, each have the first field of
      every chain attached. */
  lemma {:induction false} RowsAttach(quote: string -> string, answer: (seq<Statement>, Statement) -> Response,
                                      w: Walk, joins: seq<seq<FieldSchema>>, i: nat)
    requires i <= |w.rows| && Compatible(joins)
    ensures var r := Rows(quote, answer, w, joins, i);
      r.error.None? ==>
        forall n, j :: i <= n < |w.rows| && 0 <= j < |joins| && |joins[j]| > 0 ==> Attached(r.w, n, joins[j][0])
    decreases |w.rows| - i
  {
    if i < |w.rows| {
      var r := Joins(quote, answer, w, joins, i, 0);
      JoinsAttach(quote, answer, w, joins, i, 0);
      if r.error.None? {
        var t := Rows(quote, answer, r.w, joins, i + 1);
        RowsAttach(quote, answer, r.w, joins, i + 1);
        RowsBelow(quote, answer, r.w, joins, i + 1);
        assert Rows(quote, answer, w, joins, i) == t;
        if t.error.None? {
          forall n, j | i <= n < |w.rows| && 0 <= j < |joins| && |joins[j]| > 0
            ensures Attached(t.w, n, joins[j][0])
          {
            if n == i {
              AttachedFramed(r.w, t.w, i, joins[j][0]);
            }
          }
        }
      }
    }
  }

  /**
   * A fetch that does not throw walked every chain on every row: each row
   * holds `<field>_model` for the first field of every chain, set to the
   * entity looked up by that row's own key value, which the fetch hands back
   * among its entities, or to `undefined` when the lookup found nothing. The
   * model does not cover chains whose first fields clash: one named like
   * another's `<name>_model`, or two of one name referencing different models.
   */
  lemma FetchAttachesEveryRow(quote: string -> string, answer: (seq<Statement>, Statement) -> Response,
                              h: seq<Statement>, from: Option<string>, s: BuilderState)
    requires Compatible(s.joins)
    ensures var r := FetchSpec(quote, answer, h, from, s);
      r.error.None? ==>
        forall n, j :: 0 <= n < |r.w.rows| && 0 <= j < |s.joins| && |s.joins[j]| > 0 ==>
          Attached(r.w, n, s.joins[j][0])
  {
    RowsAttach(quote, answer, StartWalk(answer, h, SelectOf(from, s)), s.joins, 0);
  }

  /** No hop of any chain writes property `p`. */
  ghost predicate Unwritten(joins: seq<seq<FieldSchema>>, p: string) {
    forall j, k :: 0 <= j < |joins| && 0 <= k < |joins[j]| ==> NameText(joins[j][k]) + "_model" != p
  }

  /** Every row keeps property `p` as it was. */
  ghost predicate KeepsProp(w: Walk, w': Walk, p: string) {
    |w'.rows| == |w.rows| && forall i :: 0 <= i < |w.rows| ==> SameProp(w.rows[i], w'.rows[i], p)
  }

  /** A hop writes no row property but its field's `_model`. */
  lemma HopKeepsProp(quote: string -> string, answer: (seq<Statement>, Statement) -> Response,
                     w: Walk, c: Cursor, f: FieldSchema, p: string)
    requires CursorOk(w, c) && NameText(f) + "_model" != p
    ensures KeepsProp(w, Hop(quote, answer, w, c, f).w, p)
  {
    var name := NameText(f);
    if !c.AtUndefined? && Truthy(Read(w, c, name)) {
      var id := Read(w, c, name);
      var key := CacheKey(RefModelName(f), name, ValueText(id));
      var l := LookUp(quote, answer, w, key, f, id);
      if l.error.None? {
        var found := l.w.cache[key].Some?;
        assert Hop(quote, answer, w, c, f).w == Write(l.w, c, name + "_model", if found then Entity(key) else Undefined);
      }
    }
  }

  lemma {:induction false} ChainKeepsProp(quote: string -> string, answer: (seq<Statement>, Statement) -> Response,
                                          w: Walk, c: Cursor, chain: seq<FieldSchema>, k: nat, p: string)
    requires k <= |chain| && CursorOk(w, c)
    requires forall m :: 0 <= m < |chain| ==> NameText(chain[m]) + "_model" != p
    ensures KeepsProp(w, Chain(quote, answer, w, c, chain, k).w, p)
    decreases |chain| - k
  {
    if k < |chain| {
      var h := Hop(quote, answer, w, c, chain[k]);
      HopKeepsProp(quote, answer, w, c, chain[k], p);
      if h.error.None? {
        ChainKeepsProp(quote, answer, h.w, h.cursor, chain, k + 1, p);
      }
    }
  }

  lemma {:induction false} JoinsKeepProp(quote: string -> string, answer: (seq<Statement>, Statement) -> Response,
                                         w: Walk, joins: seq<seq<FieldSchema>>, i: nat, j: nat, p: string)
    requires i < |w.rows| && j <= |joins| && Unwritten(joins, p)
    ensures KeepsProp(w, Joins(quote, answer, w, joins, i, j).w, p)
    decreases |joins| - j
  {
    if j < |joins| {
      var c := Chain(quote, answer, w, AtRow(i), joins[j], 0);
      ChainKeepsProp(quote, answer, w, AtRow(i), joins[j], 0, p);
      if c.error.None? {
        JoinsKeepProp(quote, answer, c.w, joins, i, j + 1, p);
      }
    }
  }

  /** The chains of row `i` from chain `j0` on throw when chain `j`'s first
      key on that row is falsy. */
  lemma {:induction false} JoinsStopAt(quote: string -> string, answer: (seq<Statement>, Statement) -> Response,
                                       w: Walk, joins: seq<seq<FieldSchema>>, i: nat, j: nat, j0: nat)
    requires i < |w.rows| && j0 <= j < |joins| && |joins[j]| > 0
    requires !Truthy(Prop(w.rows[i], NameText(joins[j][0])))
    requires Unwritten(joins, NameText(joins[j][0]))
    ensures Joins(quote, answer, w, joins, i, j0).error.Some?
    decreases j - j0
  {
    var c := Chain(quote, answer, w, AtRow(i), joins[j0], 0);
    if j0 == j {
      assert Hop(quote, answer, w, AtRow(i), joins[j][0]).error.Some?;
    } else if c.error.None? {
      var name := NameText(joins[j][0]);
      ChainKeepsProp(quote, answer, w, AtRow(i), joins[j0], 0, name);
      assert SameProp(w.rows[i], c.w.rows[i], name);
      JoinsStopAt(quote, answer, c.w, joins, i, j, j0 + 1);
    }
  }

  /** The rows from row `i0` on throw when row `i` has a falsy first key for
      chain `j`. */
  lemma {:induction false} RowsStopAt(quote: string -> string, answer: (seq<Statement>, Statement) -> Response,
                                      w: Walk, joins: seq<seq<FieldSchema>>, i: nat, j: nat, i0: nat)
    requires i0 <= i < |w.rows| && j < |joins| && |joins[j]| > 0
    requires !Truthy(Prop(w.rows[i], NameText(joins[j][0])))
    requires Unwritten(joins, NameText(joins[j][0]))
    ensures Rows(quote, answer, w, joins, i0).error.Some?
    decreases i - i0
  {
    var r := Joins(quote, answer, w, joins, i0, 0);
    if i0 == i {
      JoinsStopAt(quote, answer, w, joins, i, j, 0);
    } else if r.error.None? {
      var name := NameText(joins[j][0]);
      JoinsKeepProp(quote, answer, w, joins, i0, 0, name);
      assert SameProp(w.rows[i], r.w.rows[i], name);
      RowsStopAt(quote, answer, r.w, joins, i, j, i0 + 1);
    }
  }

  /**
   * A falsy key on any fetched row, for the first field of any chain, makes
   * the whole fetch throw instead of returning rows. The one exception the
   * model does not cover is a field named like another field's
   * `<name>_model`, whose value a hop overwrites.
   */
  lemma FetchFailsOnAnyFalsyKey(quote: string -> string, answer: (seq<Statement>, Statement) -> Response,
                                h: seq<Statement>, from: Option<string>, s: BuilderState, i: nat, j: nat)
    requires j < |s.joins| && |s.joins[j]| > 0
    requires var w0 := StartWalk(answer, h, SelectOf(from, s));
      i < |w0.rows| && !Truthy(Prop(w0.rows[i], NameText(s.joins[j][0])))
    requires Unwritten(s.joins, NameText(s.joins[j][0]))
    ensures FetchSpec(quote, answer, h, from, s).error.Some?
  {
    RowsStopAt(quote, answer, StartWalk(answer, h, SelectOf(from, s)), s.joins, i, j, 0);
  }
}
