# IdReplacer, modelled in Dafny

`IdReplacer` (`src/replace_id.py`) migrates a PostgreSQL database from integer
primary keys to UUID primary keys. `execute` opens one connection and loads two
catalogs from `information_schema`: the integer/bigint primary-key columns and the
integer/bigint foreign-key columns. It then runs, inside a `with conn:` block (one
transaction), these phases in order. Each phase loops over the catalog rows and
sends one statement per row:

1. add a `<key>_temp2replace` UUID column to every key table;
2. fill it with `gen_random_uuid()` (the update is built with a `{value}` placeholder, then passed through `str.format`);
3. add a "serial" column named by `params['serial_name']`, of the key's own type;
4. copy the old key into it;
5. drop every foreign-key constraint (`if exists`);
6. retype every foreign-key column to `varchar`;
7. rewrite every foreign-key value to the temp value of the row it referenced (`update … from … where a.fk::varchar = x.key::varchar`);
8. retype the foreign-key columns to `uuid`;
9. ask the catalog for the primary keys again and cast each one not already `uuid` (`lpad(to_hex(v), 32, '0')`);
10. copy the temp column into the key column;
11. re-create every foreign-key constraint under its old name.

Set-up and tear-down hooks surround the phases. For a call that passes only `params`,
tear-down always runs once the catalogs are loaded. Once `get_connection` has returned a
connection, that connection is always closed. A call with other keyword arguments is covered
in "## Left out".

The model has four layers:

- **SqlBuilder**: every `_build_*` helper as a function producing the exact
  statement text. `str.format` is modelled brace by brace, and lemmas give the
  shape of each statement and the round trips of the temp-column and table-name
  builders.
- **Plan**: what each phase means to do for each row (`PkRowStatements`, `FkRowStatements`), and how a session runs
  against a server that may refuse one chosen statement (`Run`, `Phases`, `Session`). PlanProperties
  proves what every session does: the order of the statements, one statement per row, where a
  failure stops the phases, and that tear-down and close happen exactly once.
- **Store / Replacer**: the imperative program. `Store.Connection` stands in for the database
  connection: a class whose trace and statement counter its methods update.
  `Replacer.IdReplacer` is a class with the two catalog fields and one loop method per phase. Each
  method is proved against the Plan function for its phase, and `Execute` against `Session`.
- **Effects / Correlation**: what the statements do to the data. The database is a
  column-major value: row counts, column values, constraints and the set of columns with a
  default expression. `SessionEffect` proves that a completed session's statements all succeed
  and leave the following, on a database that meets its assumptions. Those assumptions are: one
  key column per table with no default; every foreign key referencing one of those key columns
  and listed once; data that satisfies the constraints. The full list is under "## Left out", on
  the lines starting `Correlation.SessionEffect:`. The statements leave:
  - each key column holding its table's new uuids;
  - the serial column holding the old keys;
  - each foreign-key value equal to the new key of the very row it referenced before (`ForeignKeysFollow`);
  - every constraint re-created.

  `KeyDefaultBlocksSession` proves that the same statements fail on every database in which a
  key column has a default (see "## Findings"), and `SessionEffectDroppingDefaults` that the
  session succeeds on those databases too once the key defaults are dropped first.

What the code does, and what it does not do, as the model has it:

- There are no trigger phases; `_set_up` and `_tear_down` do nothing.
- No key default is dropped or set. `_drop_column_default_value` exists, but `execute` never calls it.
- The temp and serial columns are never dropped.
- Each constraint is re-created without its MATCH, UPDATE and DELETE rules.
- No identifier is quoted.
- Every phase runs inside one `with conn:` block, which commits when the block ends normally and calls rollback when it raises. When `params['autocommit']` is false (`src/replace_id.py:26`), that rollback undoes the partial migration. When it is true, each statement has already taken effect on its own and the rollback undoes nothing.

Both catalog queries select only `integer` and `bigint` columns (`src/replace_id.py:341-365`).
So on a real database the "already `uuid`" skip of phase 9 never applies, since the re-query
returns no uuid column. Likewise, the "already of the type" skips of phases 6 and 8 never apply
to the first catalog's rows.
The model keeps these skips exactly as written (`PkToUuidSkips`, `RetypeFkSkips`).

## Model

| member | source | states |
|---|---|---|
| SqlBuilder.TempColumnNameRoundTrip | src/replace_id.py:367-368 | `KeyColumnOf` recovers the key column from its temp-column name, and only that column's temp name maps back to it |
| SqlBuilder.TempColumnNameInjective | src/replace_id.py:367-368 | distinct key columns get distinct temp columns |
| SqlBuilder.TableNameRoundTrip | src/replace_id.py:370-371 | a dot-free schema and a table are recovered by splitting the qualified name at its first dot |
| SqlBuilder.TableNameInjective | src/replace_id.py:370-371 | with dot-free schemas, distinct (schema, table) pairs give distinct qualified names |
| SqlBuilder.TableNameAmbiguous | src/replace_id.py:370-371 | a dot in a schema name lets two different tables share one qualified name |
| SqlBuilder.SplitTableName | src/replace_id.py:370-371 | the split parts rebuild the name with a dot-free schema; no split exists only when the name has no dot |
| SqlBuilder.DropDefaultShape | src/replace_id.py:120-125 | the drop-default statement starts `alter table if exists <table>` and drops the column's default |
| SqlBuilder.CopyPkValuesToFkShape | src/replace_id.py:136-151 | the propagation update writes the temp value as varchar into the FK column, from the referenced table, matching FK and key as varchar |
| SqlBuilder.AlterColumnDatatypeShape | src/replace_id.py:173-181 | the retype statement alters the column to the type using a cast of the column |
| SqlBuilder.AlterPkColumnToUuidShape | src/replace_id.py:183-191 | the key cast alters the column to uuid through `lpad(to_hex(col), 32, '0')` |
| SqlBuilder.DropConstraintShape | src/replace_id.py:228-233 | the statement drops the named constraint `if exists` on the table |
| SqlBuilder.CreateConstraintShape | src/replace_id.py:235-248 | the statement adds the named constraint as a foreign key from the column to the referenced table and column |
| SqlBuilder.UpdateColumnShape | src/replace_id.py:279-285 | the update sets the column to the value on every row of the table |
| SqlBuilder.AddColumnShape | src/replace_id.py:373-379 | the statement adds the column `if not exists` with the given type |
| SqlBuilder.FormatPlainPrefix | src/replace_id.py:301-302 | `str.format` copies a brace-free prefix through unchanged |
| SqlBuilder.FormatBraceFree | src/replace_id.py:301-302 | `str.format` leaves a brace-free template as it is |
| SqlBuilder.FormatPlaceholder | src/replace_id.py:301-302 | `str.format` replaces the `{value}` placeholder between brace-free parts by the value |
| SqlBuilder.PrimaryKeyUpdateCommandFillsPlaceholder | src/replace_id.py:327-337 | with brace-free names, the formatted temp-column update is the plain `gen_random_uuid()` update |
| Plan.Run | src/replace_id.py:73-112 | the number of statements sent grows by at most the number of steps |
| Plan.Session | src/replace_id.py:67-69 | without `params`, nothing is recorded and `execute` raises `Params not defined` |
| Plan.RunPkStops | src/replace_id.py:397-409 | once a primary-key loop has raised at some row, the later rows send and record nothing |
| Plan.RunFkStops | src/replace_id.py:250-261 | once a foreign-key loop has raised at some row, the later rows send and record nothing |
| Plan.RunExec | src/replace_id.py:41 | sending one statement records it, and raises exactly when it is the refused statement |
| Plan.RunAppend | src/replace_id.py:79-108 | running two batches of steps is running the first, then the second only if the first passed |
| Plan.RunPkIsRun | src/replace_id.py:397-409 | the row-by-row primary-key loop is the run of all its rows' steps in order |
| Plan.RunFkIsRun | src/replace_id.py:250-261 | the row-by-row foreign-key loop is the run of all its rows' steps in order |
| Plan.RunSerialIsRun | src/replace_id.py:381-395 | the serial phases raise the key error before any statement when `serial_name` is missing, and otherwise run their loop |
| Plan.RunRequeryIsRun | src/replace_id.py:211-226 | the uuid-cast phase queries the catalog first and runs its loop only on an answer |
| PlanProperties.RunCleanPasses | src/replace_id.py:79-108 | a run with no raising step passes, recording every statement, unless the store refuses one of them |
| PlanProperties.RunCleanStops | src/replace_id.py:79-108 | when the store refuses statement k, the run stops right after sending it, recording exactly the statements up to it |
| PlanProperties.PhasesIsRun | src/replace_id.py:79-108 | the phases chained one after another are the run of all their steps in the order of the body |
| PlanProperties.ExecsRun | src/replace_id.py:41 | sending statements raises nothing by itself, records them and sends their texts in order |
| PlanProperties.AssignStepPlain | src/replace_id.py:317-339 | with brace-free names the temp-column iteration sends the plain `gen_random_uuid()` update |
| PlanProperties.PkRowStepsAreExecs | src/replace_id.py:397-409 | each primary-key iteration sends the texts of exactly the statements it means |
| PlanProperties.FkRowStepsAreExecs | src/replace_id.py:250-261 | each foreign-key iteration sends the texts of exactly the statements it means |
| PlanProperties.PkStepsAreExecs | src/replace_id.py:304-315 | a primary-key phase sends its statements row after row in catalog order |
| PlanProperties.FkStepsAreExecs | src/replace_id.py:263-277 | a foreign-key phase sends its statements row after row in catalog order |
| PlanProperties.PkOnePerRow | src/replace_id.py:381-395 | every primary-key phase but the uuid cast sends exactly one statement per row, the i-th for the i-th row |
| PlanProperties.FkOnePerRow | src/replace_id.py:153-171 | every foreign-key phase but the retypes sends exactly one statement per row, the i-th for the i-th row |
| PlanProperties.NotUuidMembers | src/replace_id.py:214-217 | a row is cast exactly when it is a catalog row not already of type uuid |
| PlanProperties.PkToUuidSkips | src/replace_id.py:211-226 | the uuid cast is sent for exactly the not-yet-uuid rows, in order, one each |
| PlanProperties.NotOfTypeMembers | src/replace_id.py:198-200 | a foreign key is retyped exactly when it is a catalog row not already of the new type |
| PlanProperties.RetypeFkSkips | src/replace_id.py:193-209 | the retype is sent for exactly the foreign keys not already of the type, in order, one each |
| PlanProperties.PhaseStepsAreStatements | src/replace_id.py:79-108 | with a serial name and an answered re-query, the phases send the early phases' statements, re-query, then the late phases' statements |
| PlanProperties.PhasesComplete | src/replace_id.py:79-108 | when the store refuses nothing the phases reach, they send every statement of every phase in the body's order and pass |
| PlanProperties.SessionCompletes | src/replace_id.py:60-112 | such a session opens, loads both catalogs, sets up, sends everything, tears down, commits and closes |
| PlanProperties.PhasesStopAt | src/replace_id.py:79-108 | when the store refuses statement k, the phases record the full session's trace up to statement k and no further, and fail with that statement |
| PlanProperties.RequeryRunStops | src/replace_id.py:79-108 | two batches around the re-query stop right after the refused statement, wherever it lies |
| PlanProperties.SessionStopsAt | src/replace_id.py:60-112 | such a failed session still tears down, then rolls back and closes |
| PlanProperties.RunEventKinds | src/replace_id.py:79-108 | the phases record only statements and primary-key re-queries |
| PlanProperties.Bracketed | src/replace_id.py:73-112 | a session that loaded the catalog opens, sets up, tears down and closes exactly once, and commits or rolls back, not both |
| PlanProperties.BracketedOrder | src/replace_id.py:73-112 | open, catalog queries and set-up come first; tear-down, the ending and close come last, in that order |
| PlanProperties.SessionShape | src/replace_id.py:73-112 | a session that loaded the catalog records the phases between set-up and tear-down, commits exactly when they passed, then closes |
| PlanProperties.SessionCloses | src/replace_id.py:72-112 | every opened connection is closed exactly once, committing exactly when the session succeeds and rolling back otherwise |
| PlanProperties.SessionTearsDown | src/replace_id.py:78-110 | once the catalog is loaded, set-up and tear-down happen exactly once and every statement lies between them |
| PlanProperties.SessionCatalogFails | src/replace_id.py:76-77 | when a catalog query raises, no set-up, tear-down or statement happens, and the session rolls back and closes |
| PlanProperties.PkLoopCompletes | src/replace_id.py:304-315 | a primary-key loop that meets no refused statement sends exactly the statements its rows mean |
| PlanProperties.FkLoopCompletes | src/replace_id.py:263-277 | a foreign-key loop that meets no refused statement sends exactly the statements its rows mean |
| PlanProperties.PhasesWithoutSerialName | src/replace_id.py:381-383 | without `serial_name`, the session adds and fills the temp columns, then raises the key error, sending nothing more |
| Store.Connection.Open | src/replace_id.py:72 | a new connection has recorded only that it opened, and sent nothing |
| Store.Connection.SelectPrimaryKeys | src/replace_id.py:341-351 | the first primary-key query gets the first catalog, every later one the re-queried catalog; the query is recorded |
| Store.Connection.SelectForeignKeys | src/replace_id.py:353-365 | the foreign-key query gets the catalog and is recorded |
| Store.Connection.Execute | src/replace_id.py:41 | the statement is recorded and counted, and raises exactly when it is the refused one |
| Store.Connection.Record | src/replace_id.py:114-118 | a hook, commit, rollback or close event is recorded and nothing is sent |
| Replacer.IdReplacer.constructor | src/replace_id.py:56-58 | both catalog fields start empty |
| Replacer.IdReplacer.Execute | src/replace_id.py:60-112 | the connection's trace, statement count and outcome are those of `Session`; no connection exists when `params` is missing or connecting fails; the catalog fields hold what was loaded |
| Replacer.IdReplacer.RunPhases | src/replace_id.py:79-108 | the phases do what `Phases` says, in order, the first exception ending them |
| Replacer.IdReplacer.AddTemporaryColumn | src/replace_id.py:397-409 | the loop does what `RunPk(AddTemp, …)` says |
| Replacer.IdReplacer.AssignValueToTemporaryPkColumn | src/replace_id.py:317-339 | the loop does what `RunPk(AssignTemp, …)` says, raising on a malformed template |
| Replacer.IdReplacer.AddSerialColumn | src/replace_id.py:381-395 | the phase does what `RunSerial(…, false, …)` says, raising first when `serial_name` is missing |
| Replacer.IdReplacer.CopyPkColumnToSerialColumn | src/replace_id.py:287-299 | the phase does what `RunSerial(…, true, …)` says |
| Replacer.IdReplacer.DropFkConstraint | src/replace_id.py:250-261 | the loop does what `RunFk(DropFk, …)` says |
| Replacer.IdReplacer.ChangeFkColumnToDatatype | src/replace_id.py:193-209 | the loop does what `RunFk(RetypeFk(type), …)` says, skipping columns already of the type |
| Replacer.IdReplacer.CopyPkValuesToFkColumns | src/replace_id.py:153-171 | the loop does what `RunFk(PropagateToFk, …)` says |
| Replacer.IdReplacer.ChangePkColumnToUuid | src/replace_id.py:211-226 | the phase re-queries the primary keys and does what `RunRequery` says |
| Replacer.IdReplacer.CopyTemporaryColumnToPk | src/replace_id.py:304-315 | the loop does what `RunPk(TempToPk, …)` says |
| Replacer.IdReplacer.CreateFkConstraint | src/replace_id.py:263-277 | the loop does what `RunFk(RecreateFk, …)` says |
| Replacer.IdReplacer.DropColumnDefaultValue | src/replace_id.py:127-134 | the loop does what `RunPk(DropPkDefault, …)` says |
| Effects.Cast | src/replace_id.py:183-191 | the key cast keeps the length, keeps NULL as NULL and casts no other value to NULL, and two values cast equal exactly when they were equal |
| Effects.ApplyAll | src/replace_id.py:73-74 | running statements never changes a table's row count |
| Effects.ApplyAllAppend | src/replace_id.py:73-74 | running two batches is running the first, then the second on its result if it succeeded |
| Effects.NewColumnFrame | src/replace_id.py:279-285 | a rewriting statement computes the same column on databases that agree on the columns it reads |
| Effects.ParallelEffect | src/replace_id.py:279-285 | independent rewrites run in turn act as if run at once, and leave every unwritten column as it was |
| Effects.RetypesKeep | src/replace_id.py:173-181 | retyping existing columns leaves the database as it was |
| Effects.CastsFrame | src/replace_id.py:183-191 | the uuid casts keep every column there is and change only the columns they cast |
| Effects.DropsRemove | src/replace_id.py:228-233 | dropping constraints on existing tables removes exactly those constraints |
| Effects.CreatesAdd | src/replace_id.py:235-248 | creating distinct unused constraints whose columns are referenced adds each of them and changes no column |
| Effects.LookupFinds | src/replace_id.py:140-143 | a value equal to a key picks up the temp value of the first row holding that key |
| Effects.LookupMisses | src/replace_id.py:140-143 | a value matching no key is left as it was |
| Effects.PropagatedMatches | src/replace_id.py:140-143 | with distinct keys, a value equal to key j gets temp value j, and NULL or unmatched values stay |
| Effects.LookupIn | src/replace_id.py:140-143 | a non-NULL value found among the keys picks up one of the temp values |
| Effects.PropagatedReferenced | src/replace_id.py:140-143 | a column whose values all name keys ends up naming only temp values |
| Effects.CastsFail | src/replace_id.py:183-191 | a batch of uuid casts is refused when one of them casts a column that still has a default expression |
| Effects.DropDefaultsRemove | src/replace_id.py:120-134 | dropping the defaults of existing columns succeeds, removes exactly those defaults and changes no value |
| Effects.GenerateDistinct | src/replace_id.py:327 | `gen_random_uuid()` gives each row its own value |
| Correlation.PkCellsApart | src/replace_id.py:367-368 | with one key per table and a serial name of its own, key, temp and serial columns are pairwise apart |
| Correlation.AddTempEffect | src/replace_id.py:397-409 | every key table gets its temp column and nothing else changes |
| Correlation.AssignTempEffect | src/replace_id.py:317-339 | every temp column gets one new uuid per row and nothing else changes |
| Correlation.AddSerialEffect | src/replace_id.py:381-395 | every key table gets the serial column and nothing else changes |
| Correlation.CopyToSerialEffect | src/replace_id.py:287-299 | every serial column gets a copy of its table's key and nothing else changes |
| Correlation.DropFkEffect | src/replace_id.py:250-261 | exactly the listed constraints are gone and no column changes |
| Correlation.RetypeEffect | src/replace_id.py:193-209 | the foreign-key retypes leave the data as it was |
| Correlation.PropagateEffect | src/replace_id.py:153-171 | each foreign-key column holds its values looked up from the referenced keys to their temp values; nothing else changes |
| Correlation.CastEffect | src/replace_id.py:211-226 | the casts keep every column and change only key columns |
| Correlation.TempToPkEffect | src/replace_id.py:304-315 | each key column receives its temp column's values; nothing else changes |
| Correlation.RecreateEffect | src/replace_id.py:263-277 | each listed constraint is back under its name on the same columns, the others and all data unchanged |
| Correlation.PrepStage | src/replace_id.py:83-89 | after the primary-key phases, temp columns hold new uuids, serial columns the old keys, and nothing else changed |
| Correlation.EarlyStage | src/replace_id.py:83-100 | by the re-query, the constraints are dropped and every foreign-key value has been looked up to its temp value |
| Correlation.LateStage | src/replace_id.py:101-108 | the cast, copy and re-creation phases succeed and complete the replacement |
| Correlation.SessionEffect | src/replace_id.py:79-108 | on a database the catalog describes whose key columns have no default, every statement of a completed session succeeds and leaves new keys, serial copies, following foreign keys and re-created constraints |
| Correlation.CastBlocked | src/replace_id.py:211-226 | the uuid-cast phase is refused when a key column that the re-query lists still has a default |
| Correlation.KeyDefaultBlocksSession | src/replace_id.py:79-108 | the statements of a completed session, as `execute` orders them, fail on every database in which some key column has a default |
| Correlation.SessionEffectDroppingDefaults | src/replace_id.py:127-134 | with the key defaults dropped before the first phase, the session succeeds on every database the catalog describes, defaults or not, replaces the keys and leaves no key default |
| Correlation.NewKeysDistinct | src/replace_id.py:304-315 | the new key column's values are distinct: it is still a key |
| Correlation.ForeignKeysFollow | src/replace_id.py:153-171 | a foreign-key value that held row n's old key now holds row n's new key, NULL stays NULL, and every value names a new key |

## Left out

- DatabaseUtils: the psycopg2 connection, `select` and `execute` are replaced by `Store.Connection`. A `Server` value says whether connecting succeeds, how it answers the catalog queries and which statement it refuses.
- Catalog query text: the `information_schema` queries of `_get_primary_keys` and `_get_foreign_keys` are not modelled. Their answers are given as rows, or as a query that raises.
- `print` calls are left out, because they are output only.
- `Params` stands for `kwargs['params']` only. `execute` passes its `*args` and `**kwargs` on to the hooks and phases, so other keyword arguments are not modelled. If the caller passes one of the keywords that the code also passes itself, the call that repeats it raises TypeError:
  - `rows` or `connection` raises at `src/replace_id.py:78`, the `_set_up` call, after the catalogs load. That call lies outside the inner `try` (line 79), so set-up and tear-down never run. The `with` block rolls back, and the connection is closed.
  - `data_type`, `table_schema`, `table_name`, `column_name` or `update_command` raises at lines 328-337, on the first row of phase 2, after phase 1's statements. This happens only when the first catalog has a row.
  - With an empty first catalog, `data_type` raises instead at line 96, after phase 5. The other four keywords then raise nowhere.
- Connection parameters belong to DatabaseUtils. The `autocommit` flag it sets (`src/replace_id.py:26`) is not modelled: `RolledBack` records the rollback call that `with conn` makes, not what the database undoes.
- A `get_connection` that raises is the error `ConnectionFailed`, and no connection object exists then. This also covers the case where `psycopg2.connect` (`src/replace_id.py:25`) succeeds and then `params['autocommit']` (line 26) raises KeyError. The connection opened in that case is never bound to `conn` and is never closed, and the model does not record it.
- Randomness: each value that `gen_random_uuid()` yields is an opaque `Generated(table, column, row)` token. Tokens are distinct by construction, which stands in for the uniqueness of random UUIDs.
- PostgreSQL type semantics: the casts to `varchar`, `uuid` and the hex uuid, and the textual comparison, are not modelled. Values are compared as values.
- Effects.Propagated: when several referenced rows match, the statement's `update … from` picks an arbitrary one; the model picks the first. With distinct keys (a primary key) there is only one.
- Effects.Apply: constraints are checked only when they are created. The dropped constraints cannot fire during the updates.
- Correlation.CastEffect: states only that the casts change no other column, not the cast values, because the next phase overwrites them.
- Correlation.RetypeEffect: a retype keeps the values as they were, since the model does not tell text from integers or uuids.
- Correlation.SessionEffect: a key column that is also a foreign key, as in a one-to-one table, is excluded. Phase 10 would overwrite its propagated value with its own table's temp value.
- Correlation.SessionEffect: composite keys are excluded (one key column per table). Each key column is assumed to hold distinct values, and not to be named `gen_random_uuid()`.
- Correlation.SessionEffect: every foreign key must reference a key column of the first catalog (`ForeignKeysFit`). A foreign key that references a UNIQUE column that is not the primary key is excluded. On such a database phase 7 reads `x.<column>_temp2replace`, a column that phase 1 never added, so the code raises there (`src/replace_id.py:141`, `:165`), and so does the model (`Effects.Apply` gives None).
- Correlation.SessionEffect: each foreign-key column must appear in only one catalog row, under a constraint name of its own (`ForeignKeysFit`). A column that is listed twice is excluded.
- Correlation.SessionEffect: no foreign-key column may be a temp column (`<key>_temp2replace`) or the serial column of a key table (`ForeignKeysFit`). The serial name must also differ from every key column and every temp column (`SerialFits`).
- Correlation.SessionEffect: every foreign-key value is assumed to be NULL or one of the keys it references (`Integrity`), as the constraint guarantees before the migration.
- Correlation.SessionEffect: the re-query is assumed to list the first catalog's keys again, each still an integer (`Requeried`). Phases 1 to 8 change no key column's type, so nothing else is expected.
- Correlation.SessionEffect: it assumes that no key column has a default (`NoKeyDefaults`). A `serial` key breaks that assumption, and the code as written then fails (see "## Findings").
- Correlation.SessionEffect: the theorem is about a session that completes. For a failed session, the Plan layer states only that rollback is called (the `RolledBack` event). What the database then undoes depends on `autocommit`, which is not modelled.
- Replacer.IdReplacer.DropColumnDefaultValue: it is modelled as a loop method, but `execute` never calls it, as in the source. Its effect is used only by the corrected session `DefaultFreeStatements`.
- SqlBuilder.FormatValue: only `{{`, `}}` and `{value}` are modelled. A replacement field of `value` with a conversion, a format spec, an index or an attribute (`{value!r}`, `{value:>40}`, `{value[0]}`, `{value.x}`) gives None (a raise), while Python formats it. The other fields (`{}`, `{0}`, `{other}`) and a lone brace do raise in Python.
- Replacer.IdReplacer.AssignValueToTemporaryPkColumn: it inherits the FormatValue gap. With a table or column name holding a field of `value` such as `{value!r}`, the model raises where the code sends a statement.
- PlanProperties.PhasesComplete, PlanProperties.SessionCompletes, PlanProperties.PhasesStopAt, PlanProperties.SessionStopsAt, PlanProperties.PhasesWithoutSerialName: these require the schema, table and column names of the key rows to be free of braces (`BraceFree`), so that the `str.format` of phase 2 yields the plain update. Names with braces are covered only by the per-phase lemmas, which follow `FormatValue`.

## Findings

| source | as written | input that shows it | evidently intended | confidence | as-written member | corrected member |
|---|---|---|---|---|---|---|
| src/replace_id.py:60-112 | `execute` never calls `_drop_column_default_value` (127-134), so phase 9 casts a key column to uuid while its default expression is still there. PostgreSQL refuses that cast, because it cannot convert the default to uuid. | any key column declared `serial`, whose default is `nextval(...)` | drop every key column's default before the cast | not executed | Correlation.KeyDefaultBlocksSession | Correlation.SessionEffectDroppingDefaults |

The Plan and Replacer layers keep the phase order of `execute` as written, because they state which statements the code sends. Only the Correlation layer states the corrected session, `DefaultFreeStatements`, which runs the drop-default phase first.
