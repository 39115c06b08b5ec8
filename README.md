# deno-db core in Dafny

A model of the core of deno-db, a small object-relational layer for Deno over
MySQL, with proofs about it. The model covers four parts:

- **Schema descriptors** (`Field.ts`, `Model.ts`): field and model records,
  with the primary-field and foreign-field lookups.
- **Query builder** (`QueryBuilder.ts`): a builder object collects a select
  list, predicates, join chains and paging. `fetch` then resolves foreign-key
  chains row by row through a per-call cache. `insert`, `update` and `delete`
  re-fetch what they changed.
- **Result wrappers** (`QueryResult.ts`).
- **Database object** (`Database.ts`): running SQL scripts, the registry of
  connections by slug, attaching and validating models, and the table
  definition built from a model. Also dropping, backing up and re-creating
  tables in `sync`.

The database is an abstract row store. A `Client.Connection` keeps the list of
statements it has executed (`history`). What the server answers is a fixed but
arbitrary function `answer(history, statement)`. The identifier quoter
(`dex.ref`) and the table-definition renderer (`dex.schema.createTable(…)
.toString()`) are also fixed but arbitrary functions of the connection. SQL
text is never produced: statements stay structured (`Select`, `InsertRow`,
`UpdateRows`, `DeleteRows`, `HasTable`, `DropTableIfExists`, and `Execute` for
one part of a script). A table definition is a sequence of abstract
operations (`Ddl.TableOp`).

A model's `fields` is a sequence of (key, field) entries in the order
`Object.entries` lists the JavaScript object: integer-like keys first, in
ascending numeric order, then the other keys in creation order. Every
operation that walks the fields (the primary-field and foreign-field lookups,
the column order of the table definition, the binding of names when models
are attached) walks that sequence.

Each operation that talks to the database is a method on a class:
`QueryBuilder.Builder` or `Database.Database`. It is proved equal, in its new
history and its result, to a specification function of the history it
started from. The properties are then proved about those functions: the
cache, the order of statements, the sync plan and the registry.

Modules, in dependency order:
- `Wrappers`, `Values` (JavaScript values, truthiness, `String(v)`), `Text`
  (split and join);
- `Schema`, `QueryResults`, `Ddl`, `Client`;
- `QueryState` (pure builder state and predicate rendering) and
  `JoinResolver` (the join walk as a specification);
- `QueryBuilder`, `Registry` (`attachModels`), `Database`.

Where the behaviour of the code differs from what its own description
promises, the model follows the code:

- `where` does not default the table to the builder's table. An alias with
  no dot renders as `undefined.<field>`.
- Values are wrapped in single quotes with no escaping.
- `whereIn` passes `" IN"` with a leading space, so its array takes the quoted
  branch and not the parenthesised one.
- `attachModels` accepts one or more primary fields, not exactly one. It
  rejects an unlinked foreign key during the field loop, before the primary
  check. The slug default and the name binding it did before a rejection stay
  on the model.
- `connect` checks only an explicit, non-empty slug for a clash. Connecting
  without a slug silently replaces the default connection.
- A join hop fails on any falsy key (`0`, `""`, `false`, `null`,
  `undefined`), not only on a missing one.
- `insert` on exactly one row (a record or a one-element array) returns
  `undefined`, not the inserted entity: the code indexes the result wrapper
  with `[0]`. The model returns the first re-fetched row instead (see
  Findings).
- The copy of a model that `_backupTable` makes with `Object.assign` has no
  static methods and no class name, so the insert into the backup table
  throws a `TypeError`. The model backs up every fetched row instead (see
  Findings). The `keepData` option is itself documented as not supported yet
  (Database.ts:21).

## Model

| member | source | states |
|---|---|---|
| `Values.NumberAndStringKeysCollide` | QueryBuilder.ts:304-310 | a numeric key and its decimal string are the same cache slot; a number is truthy iff it is not 0 |
| `Schema.GetPrimaryField` | Model.ts:32-35 | the first field in enumeration order (integer-like keys first, ascending, then the rest in creation order) with `primary` set; nothing iff no field is primary; throws iff the model has no fields or is a plain copy without the static method |
| `Schema.GetForeignFields` | Model.ts:37-47 | only fields of kind foreignKey are returned; throws iff the model has no fields or is a plain copy without the static method |
| `Schema.ForeignFieldsExact` | Model.ts:40-44 | a field is returned iff it is declared and is a foreign key |
| `Schema.ForeignFieldsAppend` | Model.ts:40-44 | the filter keeps enumeration order: on a concatenation it is the concatenation of the results |
| `QueryResults.QueryResult.All` | QueryResult.ts:10-12 | the rows given at construction, element by element |
| `QueryResults.QueryResult.First` | QueryResult.ts:15-17 | element 0, and nothing exactly when there is no row |
| `QueryResults.QueryResult.Last` | QueryResult.ts:20-22 | element `length - 1`, and nothing exactly when there is no row |
| `QueryResults.OneRowFirstIsLast` | QueryResult.ts:15-22 | on a one-row result the first and the last row are that row |
| `QueryResults.BoundaryOfExtended` | QueryResult.ts:15-22 | an appended row becomes the last one, a prepended row the first one, and appending does not change the first |
| `QueryResults.InsertResult.RowsInserted` | QueryResult.ts:28-34 | the count given at construction |
| `QueryResults.UpdateResult.RowsAffected` | QueryResult.ts:40-46 | the count given at construction |
| `QueryResults.DeleteResult.RowsAffected` | QueryResult.ts:52-58 | the count given at construction |
| `Client.Connection.Run` | Database.ts:46-51 | one statement is executed: it is appended to the history, and the answer is the server's answer on the history before it |
| `QueryState.DismemberField` | QueryBuilder.ts:19-22 | neither part contains a dot; there is no table exactly when the alias has no dot |
| `QueryState.DismemberJoined` | QueryBuilder.ts:19-22 | on a dotted path the field is the last segment, the table the one before it, and earlier segments are dropped |
| `QueryState.DismemberUndotted` | QueryBuilder.ts:19-22 | an alias without a dot is all field and no table |
| `QueryState.RenderValue` | QueryBuilder.ts:110-116 | operator exactly "IN" gives `('` + the elements joined by `','` + `')`, a null gives `NULL`, anything else is the value's text between single quotes; "IN" with a non-array throws |
| `QueryState.WhereInIsQuoted` | QueryBuilder.ts:93-116 | the " IN" that `whereIn` passes is not "IN": the joined array is quoted, not parenthesised |
| `QueryState.QuoteNotEscaped` | QueryBuilder.ts:115 | for every operator but "IN", a quote at any position of a value stays a bare quote at the same position inside the rendered quotes |
| `QueryState.RenderPredicate` | QueryBuilder.ts:105-118 | the predicate is the quoted `table.field`, then the operator between single spaces, then the rendered value, and fails exactly when the value rendering does |
| `QueryState.AddWhere` | QueryBuilder.ts:105-120 | exactly one predicate is appended at the end; earlier predicates, selects, joins, limit and offset are unchanged; on a throw nothing changes |
| `QueryState.AddPk` | QueryBuilder.ts:46-54 | one predicate on the primary field ("=" for a scalar, " IN" for an array) and limit 1 or the array's length; fails iff there is no primary field or its name was never bound, the latter as the TypeError of splitting an undefined alias |
| `QueryState.SelectOf` | QueryBuilder.ts:211-271 | the SELECT has the column list only when something was selected, every predicate in order, and a limit or offset only when it is set and not 0 |
| `QueryState.PkSelect` | QueryBuilder.ts:305 | the lookup a join issues: the referenced table, all columns, one "=" predicate on its primary field, limit 1; it throws iff the referenced model has no primary field or that field's name is unbound |
| `QueryBuilder.RawCondition.AsList` | QueryBuilder.ts:123-125 | a single condition is a one-element list |
| `QueryBuilder.InsertData.Rows` | QueryBuilder.ts:153 | a single record is a one-element list |
| `QueryBuilder.Builder.constructor` | QueryBuilder.ts:33-37 | a new builder reads the model's table and has collected nothing |
| `QueryBuilder.Builder.Select` | QueryBuilder.ts:40-43 | the fields are appended in argument order, nothing else changes |
| `QueryBuilder.Builder.Where` | QueryBuilder.ts:105-120 | the new state is `AddWhere` of the old one, or the error with the state unchanged |
| `QueryBuilder.Builder.WhereIs` | QueryBuilder.ts:57-60 | one "=" predicate appended |
| `QueryBuilder.Builder.WhereNull` | QueryBuilder.ts:63-66 | one " IS " NULL predicate appended |
| `QueryBuilder.Builder.WhereGreater` | QueryBuilder.ts:69-72 | one ">" predicate appended |
| `QueryBuilder.Builder.WhereGreaterOrEqual` | QueryBuilder.ts:75-78 | one ">=" predicate appended |
| `QueryBuilder.Builder.WhereLower` | QueryBuilder.ts:81-84 | one "<" predicate appended |
| `QueryBuilder.Builder.WhereLowerOrEqual` | QueryBuilder.ts:87-90 | one "<=" predicate appended |
| `QueryBuilder.Builder.WhereIn` | QueryBuilder.ts:93-96 | one " IN" predicate appended |
| `QueryBuilder.Builder.WhereLike` | QueryBuilder.ts:99-102 | one " LIKE " predicate appended |
| `QueryBuilder.Builder.WherePk` | QueryBuilder.ts:46-54 | the new state is `AddPk` of the old one, or the error with the state unchanged |
| `QueryBuilder.Builder.WhereRaw` | QueryBuilder.ts:123-127 | the conditions are appended verbatim, in order |
| `QueryBuilder.Builder.Join` | QueryBuilder.ts:130-133 | one chain appended; predicates and everything else unchanged |
| `QueryBuilder.Builder.Limit` | QueryBuilder.ts:136-139 | the limit is replaced, nothing else changes |
| `QueryBuilder.Builder.Offset` | QueryBuilder.ts:142-145 | the offset is replaced, nothing else changes |
| `QueryBuilder.Builder.Fetch` | QueryBuilder.ts:208-318 | the history and the result are those of `FetchSpec`: the SELECT, then the join walk over every row and chain |
| `QueryBuilder.Builder.FetchFirst` | QueryBuilder.ts:321-323 | as `Fetch`, returning the first row or nothing |
| `QueryBuilder.Builder.Insert` | QueryBuilder.ts:148-167 | the history and the result are those of `InsertSpec`: the insert loop, then one re-fetch by the recorded ids |
| `QueryBuilder.Builder.InsertAll` | QueryBuilder.ts:155-163 | the loop's history, ids and error are those of `Inserts` |
| `QueryBuilder.Builder.InsertOne` | QueryBuilder.ts:156-162 | one INSERT of the row, and the id `lastInsertId ?? row[pk]` from its answer |
| `QueryBuilder.Builder.Update` | QueryBuilder.ts:170-186 | one UPDATE under the builder's predicates, then the re-fetch with the same predicates |
| `QueryBuilder.Builder.Delete` | QueryBuilder.ts:189-205 | one DELETE under the builder's predicates, then the re-fetch with the same predicates |
| `QueryBuilder.Q` | Model.ts:28-30 | a fresh builder on the model's table with nothing collected |
| `QueryBuilder.RefetchWhere` | QueryBuilder.ts:184 | one SELECT of every column under exactly the given predicates, returning its rows |
| `QueryBuilder.WalkJoins` | QueryBuilder.ts:288-313 | the chains of one row walked in order, as `Joins` specifies |
| `QueryBuilder.WalkChain` | QueryBuilder.ts:290-312 | one chain walked hop by hop, as `Chain` specifies |
| `QueryBuilder.ResolveHop` | QueryBuilder.ts:291-311 | one hop on the rows and the cache, as `Hop` specifies |
| `QueryBuilder.LookUpEntity` | QueryBuilder.ts:297-307 | the cached lookup, and on a miss the nested `wherePk(id).fetchFirst()`, as `LookUp` specifies |
| `QueryBuilder.InsertedId` | QueryBuilder.ts:161 | the client's last insert id unless it is missing, null or undefined, else the row's value under the primary field; throws iff neither exists |
| `QueryBuilder.Inserts` | QueryBuilder.ts:155-163 | one INSERT per row in order, nothing before them is touched, and the ids grow with the inserts; all rows when nothing threw |
| `QueryBuilder.InsertsRecordIds` | QueryBuilder.ts:155-163 | each recorded id is the one its own row's answer gives, on the history of the inserts before it |
| `QueryBuilder.InsertReturn` | QueryBuilder.ts:166 | a single entity (the first re-fetched row) iff exactly one row was supplied, otherwise every re-fetched row |
| `QueryBuilder.InsertReturnAsWritten` | QueryBuilder.ts:166 | as written, the single-row case always yields undefined |
| `QueryBuilder.InsertOneRowLost` | QueryBuilder.ts:165-166 | a single inserted row that the re-fetch finds is lost as written and returned once corrected |
| `QueryBuilder.InsertRefetchesByIds` | QueryBuilder.ts:155-165 | a successful insert issues one INSERT per row in order, then one SELECT on the model's table whose only predicate is " IN" over the recorded ids, limited to the number of rows |
| `QueryBuilder.InsertOneRowIsSingle` | QueryBuilder.ts:153-166 | one row, as a record or as a one-element list, returns a single entity |
| `QueryBuilder.RefetchKeepsPredicates` | QueryBuilder.ts:170-205 | after an update or a delete the re-fetch comes right after the mutation, with exactly the same predicates and no selects, limit or offset |
| `JoinResolver.Write` | QueryBuilder.ts:310 | the property is set on the object under the cursor; the history, the lookups and the set of cached keys are unchanged |
| `JoinResolver.LookUp` | QueryBuilder.ts:297-307 | a key with a cached entity is served from the cache with no statement. On a miss, a field without a reference caches nothing found and issues nothing; a field with one issues exactly the `wherePk(id)` SELECT of the referenced model, caches the first row it answers and records the lookup, or propagates the error of `wherePk`. Other cache entries are kept |
| `JoinResolver.Hop` | QueryBuilder.ts:291-311 | a falsy key throws the join error naming the field; otherwise it does what `LookUp` of that key does (error, statements, lookups) and attaches under `<field>_model` the entity the lookup cached, or undefined when it found nothing; the walk moves onto it |
| `JoinResolver.Chain` | QueryBuilder.ts:290-312 | the rows stay as many and a cached entity stays cached |
| `JoinResolver.Joins` | QueryBuilder.ts:288-313 | the rows stay as many and a cached entity stays cached |
| `JoinResolver.Rows` | QueryBuilder.ts:287-314 | the rows stay as many and a cached entity stays cached |
| `JoinResolver.LookUpSound` | QueryBuilder.ts:297-307 | a lookup keeps every found entity cached, never repeats a found key, and issues one statement per recorded lookup |
| `JoinResolver.FetchLooksUpOnce` | QueryBuilder.ts:286-314 | within one fetch a key whose lookup found an entity is looked up at most once; the statements are the base SELECT then one per lookup |
| `JoinResolver.FetchWithoutJoins` | QueryBuilder.ts:273-317 | without join chains a fetch is its one SELECT and returns its rows unchanged |
| `JoinResolver.FetchFailsOnFalsyKey` | QueryBuilder.ts:292-295 | a falsy key on the first hop makes the fetch throw the join error naming that field |
| `JoinResolver.HopAttaches` | QueryBuilder.ts:291-311 | a hop from a row that does not throw attaches its field there: `<field>_model` is undefined or the entity cached under the key built from that row's own value of the field; every attachment the hop's field spares is kept |
| `JoinResolver.ChainAttaches` | QueryBuilder.ts:290-312 | a chain walked from a row without throwing attaches its first field there, and keeps every attachment its first field spares |
| `JoinResolver.JoinsAttach` | QueryBuilder.ts:288-313 | with chains whose first fields spare each other, the chains of one row keep every attachment and, when none throws, attach the first field of each chain on that row |
| `JoinResolver.HopRows` | QueryBuilder.ts:291-311 | a hop writes no row but the one under the cursor |
| `JoinResolver.ChainRows` | QueryBuilder.ts:290-312 | a chain writes no row but the one it starts from |
| `JoinResolver.JoinsRows` | QueryBuilder.ts:288-313 | the chains of one row write no other row |
| `JoinResolver.RowsBelow` | QueryBuilder.ts:287-314 | the walk from row `i` on leaves the rows before `i` as they were |
| `JoinResolver.RowsAttach` | QueryBuilder.ts:287-314 | when no row from a given one on throws, each of them has the first field of every chain attached |
| `JoinResolver.FetchAttachesEveryRow` | QueryBuilder.ts:286-317 | a fetch that does not throw has, on every row and for every non-empty chain, `<first field>_model` set to undefined or to the entity cached under the key built from that row's own key value, which the fetch returns among its entities |
| `JoinResolver.FetchFailsOnAnyFalsyKey` | QueryBuilder.ts:286-317 | a falsy first key on any row of any chain makes the whole fetch throw, provided no hop writes a property of that name |
| `Ddl.ColumnOf` | Database.ts:64-119 | every kind but foreignKey has a column made for that kind, carrying precision, length or enum values where the kind takes one |
| `Ddl.FieldColumn` | Database.ts:56-119 | a linked foreign key takes the referenced field's type, any other field its own; a column exists iff that source is not a foreign key |
| `Ddl.FieldPrimary` | Database.ts:121-128 | the primary flag is applied iff the field is primary and not a linked foreign key |
| `Ddl.FieldForeign` | Database.ts:121-122 | a foreign constraint on `targetTable.targetField` exists iff the field is a linked foreign key |
| `Ddl.FieldModifiers` | Database.ts:134-142 | index, not-null and unique are applied to a field's column iff its `index`, `notNull` and `unique` flags are set, and to no other column |
| `Ddl.FieldOpsOrdered` | Database.ts:121-143 | a field's operations all name it and come in the order column, foreign or primary, index, not-null, unique, each at most once |
| `Ddl.FieldOpsFail` | Database.ts:126-143 | a field without a column throws iff some modifier is set on it |
| `Ddl.FieldsOps` | Database.ts:55-144 | the definition of the fields succeeds iff each field's does |
| `Ddl.UniqueGroups` | Database.ts:146-148 | one unique constraint per multi-column group, in order, and none when there are no groups |
| `Ddl.CreatePlan` | Database.ts:53-153 | the fields' operations then the unique groups, and never a multi-column primary key; throws iff the fields are unset or a field fails |
| `Ddl.FieldsOpsMembers` | Database.ts:55-144 | an operation is in the table definition iff it is in some field's operations |
| `Ddl.PlanPrimary` | Database.ts:55-152 | across the table a column is made primary iff a field with that key is primary and not a linked foreign key |
| `Ddl.PlanForeign` | Database.ts:55-152 | across the table a foreign constraint exists iff a field with that key is a linked foreign key with that target |
| `Ddl.PlanIndex` | Database.ts:55-152 | across the table a column is indexed iff a field with that key sets `index` |
| `Ddl.PlanNotNull` | Database.ts:55-152 | across the table a column is not nullable iff a field with that key sets `notNull` |
| `Ddl.PlanUnique` | Database.ts:55-152 | across the table a column is unique iff a field with that key sets `unique` |
| `Registry.AttachAcceptsIff` | Database.ts:243-265 | a model is accepted iff its table and fields are set, every foreign key has a reference and at least one field is primary |
| `Registry.AttachKeepsIdentity` | Database.ts:238-243 | a falsy slug becomes "default", a truthy one is kept, name and table are unchanged |
| `Registry.AttachBindsNames` | Database.ts:247-265 | every field's name is bound to its key once the reference check passes, even when the primary check then rejects; a missing reference leaves names bound up to that field |
| `Registry.Validate` | Database.ts:238-265 | the loop over the fields computes exactly `Attach` |
| `Registry.BindFields` | Database.ts:247-265 | the field loop binds every field's name up to and including the first foreign key without a reference, reports that field, and otherwise reports whether some field is primary |
| `Registry.PutSemantics` | Database.ts:267 | `models.set` makes the model the entry for its name, keeps every other entry and the names distinct, keeps a known name's position and appends a new one |
| `Registry.PutAllGet` | Database.ts:235-268 | after several puts a name maps to the last model put under it, or to its earlier entry |
| `Registry.AttachAllBinds` | Database.ts:235-268 | every model reached is left as attaching left it |
| `Registry.AttachAllAccepts` | Database.ts:235-268 | a call that does not throw accepted every model and put each into the registry in order |
| `Registry.AttachAllStops` | Database.ts:235-268 | a call that throws does so on the last model it reached, after accepting every earlier one |
| `Registry.AttachAllKeepsEarlier` | Database.ts:235-268 | a call that throws keeps registered the models it put before the rejected one |
| `Registry.AttachedAreRegistered` | Database.ts:235-268 | after an accepted call each name maps to the last model of that name in the call |
| `Registry.AdminAttaches` | Admin.ts:3-19 | the admin model is accepted |
| `Registry.UserAttaches` | User.ts:3-31 | the user model is accepted under the default slug, and its primary field is `id` with its name bound |
| `Registry.ExampleModelsAttach` | Database.ts:234-269 | the admin and user models attach in either order |
| `Text.NonEmptyAppend` | Database.ts:36 | `filter(v => v)` distributes over concatenation: it keeps the order and the multiplicity of the non-empty parts |
| `Text.SplitAround` | Database.ts:36 | splitting at a separator between two texts gives the parts of the first, then those of the second |
| `Text.JoinAppend` | Database.ts:36 | joining two lists of parts is joining their joins with the separator |
| `Database.ScriptParts` | Database.ts:36 | the parts are exactly the non-empty pieces of the split on ';', none holding a ';'; a text without ';' is its own single part, or none when empty |
| `Database.ScriptsConcatenate` | Database.ts:36 | the parts of `a;b` are the parts of `a` followed by the parts of `b`, in order and with repeats |
| `Database.ScriptOfStatements` | Database.ts:36 | a script joined from non-empty, ';'-free statements splits back into exactly those statements |
| `Database.RunPartsHistory` | Database.ts:37-42 | running parts appends one execute per part, in order, and nothing else |
| `Database.RunPartsRows` | Database.ts:37-43 | the result is the rows of the last part, answered after all the parts before it |
| `Database.RunScriptExecutesEach` | Database.ts:33-44 | a script executes each statement once in order, and returns rows iff it had a statement |
| `Database.SeparatorsRunNothing` | Database.ts:36-43 | a script of separators alone executes nothing and returns nothing |
| `Database.BackupModelAsWritten` | Database.ts:175-176 | as written, the `Object.assign` copy has table `<table>_backup`, no static methods and the class name undefined; everything else is copied |
| `Database.BackupModel` | Database.ts:175-176 | corrected, the copy's table is `<table>_backup` and nothing else of the model differs |
| `Database.BackupInsertAsWritten` | Database.ts:181-183 | as written, the backup inserts one record holding only `rows`, whatever was fetched |
| `Database.BackupInsert` | Database.ts:181-183 | corrected, the backup inserts exactly the fetched rows |
| `Database.BackupInsertsWrapper` | Database.ts:181-183 | as written, two or more fetched rows become one record holding only `rows`, and the id of that record throws a TypeError on the copied model; corrected, every row is inserted |
| `Database.InsertWithoutStatics` | QueryBuilder.ts:155-165 | `insert` of one row on a model without the static methods runs the INSERT and then throws a TypeError |
| `Database.BackupAsWrittenThrows` | Database.ts:169-184 | as written, a backup that finds rows drops and creates the backup table, inserts the one wrapper record and then throws a TypeError |
| `Database.DropPhaseAsWrittenStops` | Database.ts:274-282 | as written, with data kept the drop loop backs up the model registered last, throws, and drops nothing |
| `Database.SyncAsWrittenAborts` | Database.ts:272-288 | as written, `sync({drop: true, keepData: true})` with rows in the last registered table throws a TypeError after its first step, a strict prefix of the plan |
| `Database.BackupOfEmptyTable` | Database.ts:170-173 | a table with no rows is not backed up: only its SELECT runs |
| `Database.BackupRunsInsert` | Database.ts:177-183 | corrected, a backup that finds rows and does not throw creates the backup table, runs a successful insert, and nothing after it |
| `Database.BackupCopiesRows` | Database.ts:169-184 | corrected, a backup that finds rows drops and recreates the backup table, then issues one INSERT per fetched row in the fetched order and one re-fetch |
| `Database.InsertAppendsRows` | QueryBuilder.ts:155-165 | a successful insert keeps the history it started from and appends one INSERT per row, in order, then one SELECT |
| `Database.Reverse` | Database.ts:275 | the models in reverse order |
| `Database.DropEventsAt` | Database.ts:275-281 | with `keepData` a model's backup comes right before its drop; without it only the drop |
| `Database.CreateEvents` | Database.ts:285-287 | one create per model, in registration order |
| `Database.SyncPlanCreates` | Database.ts:284-287 | after the drop steps every model is created in registration order, and nothing follows |
| `Database.SyncPlanDrops` | Database.ts:274-281 | with `drop` the model registered at i is dropped at its reversed position, right after its backup when data is kept |
| `Database.SyncPlanOrder` | Database.ts:272-288 | the last model registered is dropped first, every drop precedes every create, and creates follow registration order |
| `Database.DropPhaseEvents` | Database.ts:274-282 | the drop loop takes its steps in order: always a prefix of them, and all of them when nothing threw |
| `Database.CreatePhaseEvents` | Database.ts:285-287 | the create loop takes its steps in order: always a prefix of them, and all of them when nothing threw |
| `Database.AfterDropsEvents` | Database.ts:284-287 | the create loop extends whatever prefix of the drop steps was taken, unless a drop step threw |
| `Database.SyncFollowsPlan` | Database.ts:272-288 | a sync's steps are always a prefix of its plan, and the whole plan when nothing threw |
| `Database.ConnectSlug` | Database.ts:199-203 | a truthy slug already registered throws; otherwise the slug, or "default" when none or "" is given |
| `Database.DefaultAlwaysOverwrites` | Database.ts:197-229 | without a slug an existing default connection is replaced silently; naming "default" explicitly throws |
| `Database.Database.constructor` | Database.ts:28-31 | a new database has the default slug and no models |
| `Database.Database.RunSql` | Database.ts:33-44 | the history and the rows are those of `RunScript` |
| `Database.Database.CreateTable` | Database.ts:53-156 | the definition is rendered and run as a script, or the error is returned with nothing run |
| `Database.Database.TableExists` | Database.ts:158-162 | one existence query; true iff it answers at least one row |
| `Database.Database.DropTable` | Database.ts:164-167 | exactly one drop-if-exists statement, with no error path |
| `Database.Database.BackupTable` | Database.ts:169-184 | the history and the error are those of `BackupSpec` |
| `Database.Database.AttachModels` | Database.ts:234-269 | the registry, the models as attached and the error are those of `AttachAll`; the slug is unchanged |
| `Database.Database.Sync` | Database.ts:272-288 | the history and the error are those of `SyncSpec` |
| `Database.Database.DropAll` | Database.ts:274-282 | the drop loop's history and error are those of `DropPhase` |
| `Database.Database.CreateAll` | Database.ts:285-287 | the create loop's history and error are those of `CreatePhase` |
| `Database.Instances.Connect` | Database.ts:197-231 | a taken explicit slug throws and changes nothing; otherwise a new database is registered under the slug `ConnectSlug` chooses |
| `Database.Instances.GetInstance` | Database.ts:187-190 | the connection under the model's slug, looked up as "undefined" when the slug is unset |

## Left out

- I/O and scheduling: `async`/`await`, promises and `console.log` are left
  out. Every call is awaited in turn, so each operation is a sequential method.
- Opening the connection: the configuration, the engine choice, the opening
  of the MySQL client and the query renderer in `connect` are left out.
  `Instances.Connect` takes the opened connection as a parameter.
- Client failures: statement errors raised by the client are not modelled.
  The server always answers.
- `runQuery` is `Client.Connection.Run`. Its answer carries rows, the last
  insert id and the affected-row count.
- SQL rendering: the renderer is outside the core. Statements stay
  structured, the quoter `dex.ref` is an arbitrary function, and
  `createTable(…).toString()` is an arbitrary function `render` of the table
  and its operations.
- `Schema.GetPrimaryField`, `Schema.GetForeignFields`, `Ddl.CreatePlan`,
  `Registry.Attach`: these take `fields` as the already-enumerated sequence.
  The model does not itself sort integer-like keys ahead of the others; a
  caller building `fields` from a declaration must list them as
  `Object.entries` would.
- Per-slug routing: each builder and database carries one connection. The
  lookup `Database.instances[model.dbConnSlug]` inside `where` and
  `getInstance` is modelled by `Instances.GetInstance` alone.
- Floating point: numbers are integers. Float and decimal precision pass
  through as opaque values.
- Object identity and prototypes: a JavaScript object is a map from property
  names to values. Objects attached by a join are shared through the cache
  (`Entity(key)`). Other aliasing is not modelled: the rows given to
  `insert`, and models held both by the caller and by the registry.
- Models are values. `attachModels` changes the caller's model objects in
  place; `Database.AttachModels` instead returns the models as attaching
  left them.
- `Database.Database.BackupTable`, `Database.BackupSpec`, `Database.BackupModel`:
  the backup keeps the model's static methods and inserts the fetched rows
  (the corrected behaviour, see Findings). As written, the copy loses the
  statics and the insert throws; that is modelled by
  `Database.BackupSpecAsWritten` and `Database.BackupAsWrittenThrows`.
- `Database.Database.Sync`, `Database.Database.DropAll`, `Database.SyncSpec`:
  with `keepData` these use the corrected backup, so they complete where the
  code throws on the first non-empty table. The as-written abort is
  `Database.SyncAsWrittenAborts`. `keepData` is documented as not supported
  yet (Database.ts:21).
- `Database.BackupRunsInsert`, `Database.BackupCopiesRows`: these state the
  corrected backup. The as-written backup never reaches a successful insert.
- `Schema.Reference`, `Ddl.ForeignTarget`, `JoinResolver.LookUp`,
  `QueryState.PkSelect`: a field's reference holds the
  referenced model as a value snapshot taken when the field was declared. In
  the code it is the live class object, whose `_name` fields `attachModels`
  binds later. So the primary field a lookup uses is the one in the snapshot,
  and the example user model binds the admin id's name itself.
- `JoinResolver.FetchAttachesEveryRow`, `JoinResolver.RowsAttach`,
  `JoinResolver.JoinsAttach` require the first fields of the chains to spare
  each other. They exclude a first field named like another's
  `<name>_model`, which a hop overwrites, and two first fields of one name
  that reference different models, whose hops overwrite each other's
  attachment.
- `JoinResolver.FetchFailsOnAnyFalsyKey` covers the first hop of a chain on
  any row. It excludes a field named like `<other>_model`, which an earlier
  hop could overwrite.
- `QueryBuilder.Builder.Insert`, `QueryBuilder.InsertSpec`: these return the
  first re-fetched row for a single row (the corrected behaviour, see
  Findings). What the code does as written is modelled by
  `QueryBuilder.InsertReturnAsWritten`.
- Inside `sync`, the backup is passed to the drop phase as a function
  (`Database.Backups`), so that lemmas about the order of steps do not depend
  on what a backup does.
- Code that never runs is left out, as if never taken:
  - the commented-out SQL JOIN and row reshaping in `fetch`
    (QueryBuilder.ts:218-258, QueryBuilder.ts:274-285);
  - the disabled `autoIncrement` branch (Database.ts:130);
  - the disabled multi-column primary branch (Database.ts:150).
- `Model.getRealModelInstance` is left out: it returns the class itself, and
  a model is already a value here.
- The `alias` and `default` attributes of a field are kept in the record. The
  core never reads them.
- `build.ts`, `main.ts` and `internal-deps.ts` are not part of this model.
  `List.ts` and `Item.ts` are example schemas, like `User.ts` and `Admin.ts`,
  which serve only as witnesses.

## Findings

| source | as written | input that shows it | evidently intended | confidence | as-written member | corrected member |
|---|---|---|---|---|---|---|
| QueryBuilder.ts:165-166 | `insert` indexes the re-fetched `QueryResult` object with `[0]`. The object has no property "0", so a single-row insert returns `undefined`. | `insert({id: 1})` on a table where the re-fetch by id 1 finds the row | return that row, i.e. the first re-fetched row | high; not executed | `QueryBuilder.InsertOneRowLost` | `QueryBuilder.InsertReturn` |
| Database.ts:175-183 | `_backupTable` copies the model with `Object.assign({}, model)`, which copies neither the inherited static methods nor the class name. It then passes the `QueryResult` object to `insert`, which is not an array, so one record holding only `rows` is inserted. The id lookup (QueryBuilder.ts:161) or `wherePk` (QueryBuilder.ts:47) then calls `getPrimaryField`, which the copy lacks: a TypeError, and `sync` aborts before any drop. | `sync({drop: true, keepData: true})` on a registered table with two rows | insert every fetched row into `<table>_backup`, then drop and re-create the tables | high; not executed | `Database.SyncAsWrittenAborts` | `Database.BackupCopiesRows` |
