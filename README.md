# OpenERP/Odoo CSV migration engine in Dafny

This project models the id-remapping engine of `odoo.sql.migration`. The engine moves the data of
an OpenERP/Odoo source database into a target database through CSV files, and it has four parts.

1. A YAML **mapping** says, per enabled module, how each `source_table.column` turns into target
   columns. The forms are: a copy, a forgotten column, a moved row, a deferred column, a foreign
   key (`__fk__ T`), a reference (`__ref__ col`), or a user function. The mapping also names
   `__discriminator__` columns, which identify an existing target record. Both `Mapping` classes
   are modelled: `migration/mapping.py` and `anygrate/mapping.py`. They differ in where the fresh
   ids start, in the column filter of the partial wildcard, and in where the type check of a
   directive sits.
2. A **first pass** (`CSVProcessor.process_one`) rewrites every source row into target rows. It
   matches each target row against the existing target records by its discriminator values.
   - A matched row goes to the table's update stream with the existing id, and the id pair is
     recorded in `fk_mapping`.
   - Any other row goes to the insert stream with its id offset past the target's largest id.
     Its deferred columns are split off into the update stream.
3. A **second pass** (`postprocess_one`) rewrites every foreign key, `id` and `__ref__` column of
   both streams. A value is remapped through `fk_mapping`, or offset when it has no entry.
4. An **import** loop loads the resulting files. It retries the files that failed until no file
   loads any more, then disables the update files of those left.

The SQL identifier check that guards `SAVEPOINT` is modelled too.

Files, CSV readers and writers are in-memory values. A source file is its header and its rows; a
stream is the sequence of rows written to it. Database queries are inputs:
- the largest ids per table;
- the existing records;
- the outcome of each `COPY`.

The `exec`-compiled user functions are a function parameter. It returns a value, or the
`__forget_row__` sentinel. Python exceptions are `Err(PyError)` results. Where a result depends on the
order of a Python 2 dictionary or set, the model visits its keys in ascending order; the loops of
the mapping compilation and of the metadata collection pick their next key with `:|`, and their
contracts hold for every order.

| file | module | models |
|---|---|---|
| `wrappers.dfy` | `Wrappers` | `Option`, `Result`, the Python exceptions |
| `values.dfy` | `PyValues` | cell values, `int()`, CSV cells, existing records |
| `strings.dfy` | `Strings` | `split`, `replace`, `int`/`str`, `sorted` on strings |
| `mapping_docs.dfy` | `MappingDocs` | loading, merging, compiling and collecting the YAML mapping, shared by both `Mapping` classes |
| `mapping_migration.dfy` | `MigrationMapping` | `migration/mapping.py` `Mapping` |
| `mapping_anygrate.dfy` | `AnygrateMapping` | `anygrate/mapping.py` `Mapping` |
| `reorder.dfy` | `Reordering` | `reorder_with_discriminators` as written and as intended |
| `transform.dfy` | `Transform` | the column loop of `process_one` |
| `routing.dfy` | `Routing` | the routing loop of `process_one` |
| `postprocess.dfy` | `Postprocess` | `postprocess_one` |
| `processing.dfy` | `Processing` | the `CSVProcessor` class and `process` |
| `importing.dfy` | `Importing` | `anygrate/importing.py` |
| `sql_commands.dfy` | `SqlCommands` | `validate_identifiers`, `make_savepoint` |

The global wildcard key is `.*` (`anygrate/mapping.py:145`, `migration/mapping.py:198`).

The id restoration of the second pass (`anygrate/processing.py:360-362`) looks an inserted row's
id, already offset past the table's largest target id, up among the source ids of
`fk_mapping[table]`. When an offset id equals the source id of a matched record, the inserted row
takes that record's id. The model keeps this lookup as written (`Postprocess.IdFixOffsetCollision`).

## Model

| member | source | states |
|---|---|---|
| Importing.ReorderFilepaths | anygrate/importing.py:12-13 | the reordered list equals the input |
| Importing.RemoveFirst | anygrate/importing.py:32 | `list.remove` takes out exactly one occurrence of a present path, and leaves a list without it unchanged |
| Importing.PassSubsequence | anygrate/importing.py:21-39 | one pass over the pending paths leaves a subsequence of what was pending |
| Importing.PassExtends | anygrate/importing.py:22-33 | one pass only appends to the history of loaded files |
| Importing.PassConserves | anygrate/importing.py:22-39 | after one pass, every pending path is either still pending or newly loaded, with multiplicity |
| Importing.PassNoProgress | anygrate/importing.py:22-40 | a pass that removes nothing loaded nothing, and every path it tried failed against the unchanged history |
| Importing.DisableUpdateFiles | anygrate/importing.py:46-48 | one rename per remaining file, from its `.update2.csv` companion to that name plus `.disabled` |
| Importing.RunSlowImport | anygrate/importing.py:16-50 | the result is a subsequence of the input; loaded and remaining files together are the input; the loop runs at most `len(filepaths)` times; a non-empty result means every remaining file fails; exactly the remaining files' companions are renamed |
| Importing.RunFastImport | anygrate/importing.py:53-64 | no exception iff every file loads in sorted order, and then all files are loaded in sorted order |
| Importing.ImportFromCsv | anygrate/importing.py:67-84 | the savepoint is issued first; in fast mode the result is `[]` or the whole input and nothing is renamed; in slow mode the pending files are a subsequence of the input, every pending file fails against the final history, the history is only extended, pending plus newly loaded files are the input as multisets, and the renames are exactly the pending files' `.update2.csv` companions |
| SqlCommands.ValidateIdentifiersIff | anygrate/sql_commands.py:120-134 | a name validates iff every character is alphanumeric or `_` |
| SqlCommands.EmptyNameAccepted | anygrate/sql_commands.py:129-134 | the empty name is not `isalnum()` yet validates, through the vacuous `all` |
| SqlCommands.ValidateConcatenation | anygrate/sql_commands.py:129-134 | `a + b` validates iff `a` and `b` both validate |
| SqlCommands.MakeSavepoint | anygrate/sql_commands.py:137-139 | at most one statement; `SAVEPOINT name` is issued iff the name validates |
| SqlCommands.DefaultSavepointIssued | anygrate/sql_commands.py:137-139 | the default name issues `SAVEPOINT savepoint` |
| PyValues.PyInt | anygrate/processing.py:262 | `int(v)`: an int is itself; a string converts iff it parses as a decimal integer; `None` raises `TypeError`; otherwise `ValueError` |
| PyValues.IntRoundTrip | anygrate/processing.py:321 | an integer written to a CSV cell reads back as the same integer |
| PyValues.RoundTrip | anygrate/processing.py:133 | a row written by a `DictWriter` over `columns` and read back has exactly those columns, with missing ones empty |
| PyValues.WithoutId | anygrate/processing.py:74 | an existing record without its id: every other field, as its `str()` |
| PyValues.WithoutIds | anygrate/processing.py:73-76 | the records of one table, each without its id, in order |
| Strings.SplitOn | anygrate/processing.py:239 | `split('.')` gives at least one part, and no part holds the separator |
| Strings.JoinSplit | anygrate/processing.py:239 | joining the parts of `split(sep)` with `sep` gives back the string |
| Strings.SplitAfterFirst | migration/mapping.py:77 | splitting `a + sep + b` with no `sep` in `a` gives `a`, then the parts of `b` |
| Strings.TableOfQualified | migration/mapping.py:219-221 | the table part of `table.column` is `table` |
| Strings.Words | migration/mapping.py:82-85 | `split()` gives non-empty words without whitespace |
| Strings.WordsOfPair | migration/mapping.py:82-85 | `"a b".split()` is `[a, b]` for two words |
| Strings.ReplaceChar | anygrate/processing.py:370 | `replace('.', '_')` keeps the length, leaves no `.` and keeps every other character |
| Strings.ReplaceStar | anygrate/mapping.py:142 | replacing `*` in `table.*` with a column gives `table.column` |
| Strings.DigitsValueOfNat | anygrate/processing.py:373 | the decimal digits of `str(n)` denote `n` |
| Strings.ParseIntToString | anygrate/processing.py:373 | `int(str(n)) == n` |
| Strings.SortedSetSorted | anygrate/processing.py:64 | `sorted(set)` is strictly increasing and as long as the set |
| Strings.SortedSet | anygrate/processing.py:64 | `sorted(set)` holds exactly the set's elements |
| Strings.Sort | anygrate/importing.py:55 | `sorted(list)` is ordered and a permutation of the list |
| Strings.LessIsStrictOrder | anygrate/importing.py:55 | Python's string `<` is a strict total order |
| MappingDocs.UpdateAllKeys | migration/mapping.py:31-33 | the loaded documents hold exactly the modules of all files |
| MappingDocs.LastFileWins | migration/mapping.py:31-33 | a module takes its value from the last file that defines it (`anygrate/mapping.py:30-32` alike) |
| MappingDocs.LoadFiles | migration/mapping.py:29-33 | the loop of `dict.update` over the files computes the documents `LastFileWins` describes |
| MappingDocs.MergeKey | migration/mapping.py:46-60 | a forget entry, or an earlier forget marking, gives the forget marking; a dictionary result only merges into nothing or a dictionary |
| MappingDocs.MergeEntries | migration/mapping.py:44-60 | the loop over one module's items merges exactly as `MergeModule` states: column keys merged, `__` keys skipped, a non-dictionary value raising `ValueError` |
| MappingDocs.MergeEnabledModules | migration/mapping.py:37-60 | the loop over the enabled modules computes `MergeModules` (`anygrate/mapping.py:36-59` alike) |
| MappingDocs.MergeErrorPropagates | migration/mapping.py:58-60 | an exception in one module ends the merge with that exception |
| MappingDocs.MergeModulesKeys | migration/mapping.py:37-48 | merged keys are column keys of enabled modules present in the files, with no `__` markers; the documents left are the loaded ones minus enabled `__nothing_to_do__` modules |
| MappingDocs.ForgetIsSticky | migration/mapping.py:49-52 | once an enabled module forgets a column, the merged entry is the forget marking whatever later modules say (`anygrate/mapping.py:48-51` alike) |
| MappingDocs.SpecialLiterals | migration/mapping.py:69-88 | `__copy__`, `__moved__` and `__defer__` match neither prefix, and no directive matches both `__fk__ ` and `__ref__` |
| MappingDocs.CompileString | migration/mapping.py:69-105 | `__copy__`/`__moved__` kept; `__defer__` becomes a copy, recorded as deferred iff `drop_fk` is false, and the target must split in two; `__fk__ T` with two words becomes a copy and records `T`; `__ref__ c` with two words is kept; a wrong word count raises `ValueError`; any other string is a user function |
| MappingDocs.CompileDirective | anygrate/mapping.py:67-93 | `None` compiles to a copy; a non-string raises the variant's exception (`AttributeError` here, from `startswith` before the type check; `ValueError` in `migration/mapping.py:71-73`); a string compiles as `CompileString` |
| MappingDocs.ForeignKeyDirective | migration/mapping.py:81-87 | `__fk__ T` for a one-word table compiles to a copy and records `T` |
| MappingDocs.CompileColumn | migration/mapping.py:67-106 | the loop over one source column's targets records every pair's outcome, or raises the exception of some pair |
| MappingDocs.CompileMapping | migration/mapping.py:62-106 | compiling fails iff some directive fails; on success every pair is compiled, `deferred` holds exactly the deferred targets and `fk2update` exactly the `__fk__` targets |
| MappingDocs.CompiledAll | migration/mapping.py:62-106 | a successful compilation leaves no failing directive |
| MappingDocs.CompiledEntries | migration/mapping.py:62-66 | a forgotten column compiles to `{}`; a dictionary keeps exactly its target keys |
| MappingDocs.CompiledColumns | migration/mapping.py:37-66 | compiled keys come only from enabled modules and carry no `__` marker; a column any enabled module forgets compiles to `{}` |
| MappingDocs.CollectMetadataAsWritten | migration/mapping.py:108-119 | as written, any module value left in the documents that is not a dictionary makes collection fail; on success every `__discriminator__` and `__stored__` key is collected |
| MappingDocs.NothingToDoElsewhereReachesMetadata | migration/mapping.py:41-43 | a `__nothing_to_do__` module that is not enabled stays in the documents after merging |
| MappingDocs.CollectMetadata | migration/mapping.py:108-119 | fails iff a module value is neither a dictionary nor `__nothing_to_do__`, or a marker's value cannot be used; on success `discriminators[t]` is the list of some module's `t.__discriminator__` key (the one visited last, the module order being unspecified), and `stored_fields[t]` holds, with their multiplicity, the names of every `t.__stored__` list, whatever the visiting order (`anygrate/mapping.py:103-109` collects discriminators only) |
| MappingDocs.CollectModule | migration/mapping.py:113-119 | the loop over one module's items, in any order, fails iff one of its `__discriminator__` or `__stored__` values cannot be used, and otherwise adds all of that module's items to the collected metadata |
| MappingDocs.ExpandWildcard | anygrate/mapping.py:142-143 | the partial wildcard's targets with `*` replaced by the column: every key yields one, and each result comes from some key with that key's directive |
| MappingDocs.MaxIdsRecorded | migration/mapping.py:231-249 | after the queries, a table with an id column maps to its largest id or 0, and every other entry is unchanged |
| MigrationMapping.Mapping.constructor | migration/mapping.py:21-119 | the compiled tables and collected metadata are stored, `explicit_columns` is empty and no id is recorded |
| MigrationMapping.Mapping.Create | migration/mapping.py:21-119 | load, merge, compile and the corrected metadata collection `CollectMetadata` (see Findings) in that order; construction fails iff one of them fails |
| MigrationMapping.Mapping.NewId | migration/mapping.py:121-126 | the table's counter rises by exactly one and is returned; no other counter changes; an unknown table raises `KeyError` |
| MigrationMapping.Mapping.GetTargetColumn | migration/mapping.py:174-200 | with `explicit_columns` empty: an explicit entry wins; a non-empty `table.*` yields its targets with `*` replaced; an empty `table.*`, or `.*`, yields `{table.column: None}`; otherwise `None` |
| MigrationMapping.Mapping.GetTargetColumnAsWritten | migration/mapping.py:174-200 | as written, exactly the non-empty partial wildcard case raises `AttributeError`; every other case answers as `GetTargetColumn` |
| MigrationMapping.Mapping.GetSources | migration/mapping.py:216-222 | sorted, no duplicates, exactly the source tables with a target column in `target` |
| MigrationMapping.Mapping.GetTargetTable | migration/mapping.py:202-214 | exactly the target tables of `source`, stored in `target_tables` |
| MigrationMapping.Mapping.SetDatabaseIds | migration/mapping.py:224-254 | the largest source and target ids are recorded per table, and `new_id` is set per target table |
| MigrationMapping.StartIdsFromSource | migration/mapping.py:247-251 | `new_id[t]` starts at `max_source_id.get(t, 0)` for every target table with an id column |
| MigrationMapping.FirstFreshId | migration/mapping.py:121-126 | the first `newid` after `set_database_ids` is the source's largest id plus one, or 1 without one |
| AnygrateMapping.Mapping.constructor | anygrate/mapping.py:21-109 | the compiled tables and discriminators are stored and no id is recorded |
| AnygrateMapping.Mapping.Create | anygrate/mapping.py:21-109 | load, merge, compile (non-strings raise `AttributeError`) and the corrected metadata collection `CollectMetadata` (see Findings); construction fails iff one of them fails |
| AnygrateMapping.Mapping.NewId | anygrate/mapping.py:111-116 | the table's counter rises by exactly one and is returned; no other counter changes; an unknown table raises `KeyError` |
| AnygrateMapping.Mapping.GetTargetColumn | anygrate/mapping.py:128-147 | an explicit entry wins; a non-empty `table.*` yields its targets with `*` replaced, unfiltered; an empty `table.*`, or `.*`, yields `{table.column: None}`; otherwise `None` |
| AnygrateMapping.Mapping.GetSources | anygrate/mapping.py:163-169 | sorted, no duplicates, exactly the source tables with a target column in `target` |
| AnygrateMapping.Mapping.GetTargetTable | anygrate/mapping.py:149-161 | exactly the target tables of `source`, stored in `target_tables` |
| AnygrateMapping.Mapping.SetDatabaseIds | anygrate/mapping.py:171-200 | the largest source and target ids are recorded per table, and `new_id` is set per target table |
| AnygrateMapping.StartIdsFromMaxima | anygrate/mapping.py:193-197 | `new_id[t]` starts at `max_target_id[t] + max_source_id.get(t, 0)` |
| AnygrateMapping.FirstFreshId | anygrate/mapping.py:111-116 | the first fresh id exceeds both the target's and the source's largest id |
| Reordering.Without | anygrate/processing.py:93 | `[t for t in tables if t not in excluded]`: exactly the tables not excluded |
| Reordering.ArrangeFacts | anygrate/processing.py:96-108 | the placement loop places each pointed-to table once, never `ir_property`, which goes to the appended part |
| Reordering.ReorderDropsReferencedTable | anygrate/processing.py:93-108 | as written, `res_partner`, pointed to by `res_users.partner_id` but with no discriminators of its own, is dropped from the order |
| Reordering.ReorderShape | anygrate/processing.py:78-111 | the corrected order is the placed pointed-to tables, then the other tables in input order, then `ir_property` |
| Reordering.ReorderKeepsTables | anygrate/processing.py:78-111 | the corrected order holds exactly the input tables, and `ir_property` is last when present |
| Reordering.ReorderPlacesMovedFirst | anygrate/processing.py:78-111 | the pointed-to tables come first, each once; the rest keep their input order |
| Transform.ColumnJobs | anygrate/processing.py:234-238 | one job per target of the column's mapping, carrying that target's directive; no mapping gives no job |
| Transform.RowJobs | anygrate/processing.py:233-238 | every job belongs to one of the row's columns |
| Transform.Jobs | anygrate/processing.py:232-238 | every job belongs to a column of the row, `_` included |
| Transform.JobStepTable | anygrate/processing.py:239-240 | a target that does not split in two raises `ValueError`; otherwise its table gets a row, and no table is lost |
| Transform.JobStepCopies | anygrate/processing.py:243-249 | a copy, `None` or `__ref__` directive writes the source value into the target column |
| Transform.JobStepMoved | anygrate/processing.py:257-263 | a moved row gets the next id of its table, which is written to the column; `fk_mapping[source_table][int(value)]` is that id plus the table's largest target id; it fails iff the counter, the int or the largest id is missing |
| Transform.MovedStepMissingMaximum | anygrate/processing.py:262-263 | a `__moved__` column of a table without a largest target id raises `KeyError` whatever the source id, since the assigned value is evaluated before its key |
| Transform.JobStepKeepsCounters | anygrate/processing.py:243-269 | no directive but `__moved__` touches the counters, `fk_mapping` or `is_moved` |
| Transform.FreshIdsCounted | anygrate/processing.py:257-263 | over a row's jobs, each table's counter rises by exactly the number of moved-row jobs into it |
| Transform.ForgetMarkPersists | anygrate/processing.py:264-269 | a `__forget_row__` mark, once set, stays for the rest of the row |
| Transform.SentinelMarksRow | anygrate/processing.py:266-268 | a user function returning `__forget_row__` marks its target row for good |
| Transform.FoldJobsErrSticky | anygrate/processing.py:233-269 | an exception in one job ends the row with an exception |
| Routing.DiscriminatorValues | anygrate/processing.py:283 | `{d: target_row[d] for d in discriminators}`: present iff every discriminator is a column, else `KeyError` |
| Routing.FixValueEffects | anygrate/processing.py:286-293 | an empty value or a non-key is kept; a key value is `int`-converted (`ValueError` when it does not parse) and replaced by its `fk_mapping` entry as a string when there is one |
| Routing.FixDiscriminators | anygrate/processing.py:286-293 | every discriminator value is fixed, or the loop fails; the keys are unchanged |
| Routing.FirstMatch | anygrate/processing.py:300-304 | the first existing record whose non-id fields equal the fixed values |
| Routing.UpdateExistingEffects | anygrate/processing.py:299-317 | a matched row goes only to the update stream, with its other columns unchanged and its id the source one or the existing one; `fk_mapping[table][int(id)]` is the existing id |
| Routing.DeferredUpdate | anygrate/processing.py:324-326 | the update row keeps `id` and the non-empty deferred columns, with their values |
| Routing.WithoutDeferred | anygrate/processing.py:329-331 | the insert row loses exactly the deferred columns |
| Routing.InsertNew | anygrate/processing.py:319-338 | `fk_mapping` is unchanged; a row with an id succeeds iff the id parses and the table has a largest target id; a row without one is only written |
| Routing.InsertNewWrites | anygrate/processing.py:319-338 | the insert row has its id offset and no deferred column, unless it is an incomplete m2m row; an update row with the offset id and the non-empty deferred values is written iff it holds more than the id |
| Routing.InsertNewAsWrittenRaises | anygrate/processing.py:321 | as written, every unmatched row with a readable id raises `TypeError` (int plus dict), where `InsertNew` succeeds |
| Routing.Route | anygrate/processing.py:273-277 | a row marked `__forget_row__`, or with no truthy value, is not written and changes nothing |
| Routing.RouteMatched | anygrate/processing.py:295-317 | a row with discriminators, an id and all fixed values non-empty and equal to an existing record goes to no insert stream, and its id maps to that record's id |
| Routing.RouteKeepsStreamsClean | anygrate/processing.py:273-338 | routing keeps the insert streams free of forgotten rows and incomplete m2m rows, and every update row carries an id |
| Routing.RouteAllKeepsStreamsClean | anygrate/processing.py:273-338 | the same over all target rows of a source row |
| Routing.RouteAllErrSticky | anygrate/processing.py:273-338 | an exception on one target row ends the source row with an exception |
| Postprocess.RemapOrOffset | anygrate/processing.py:358-359 | `fk_mapping.get(T, {}).get(v, v + max_target_id[T])`: the mapped id when there is one, else `v` offset; a table without a largest id raises `KeyError` |
| Postprocess.PostValue | anygrate/processing.py:349-378 | an empty value stays empty (unless it is the id of a remapped table), and a value in no key, id or reference column is unchanged |
| Postprocess.PostValueForeignKey | anygrate/processing.py:352-359 | a non-empty foreign key becomes its remapped-or-offset id, and fails iff it does not parse or its table has no largest id |
| Postprocess.PostValueId | anygrate/processing.py:361-363 | the id of a table in `fk_mapping` is restored to its mapped id, else kept |
| Postprocess.IdFixOffsetCollision | anygrate/processing.py:360-362 | an inserted row whose offset id equals a matched source id is given that record's existing id |
| Postprocess.PostValueSelfReference | anygrate/processing.py:367-373 | a `model,id` reference has its id replaced by the remapped-or-offset id of the model's table, dots turned to underscores |
| Postprocess.PostValueSiblingReference | anygrate/processing.py:364-378 | a non-empty `__ref__` value whose model is named by a sibling column becomes the remapped-or-offset id of the table named in that column; it fails iff the value does not parse, the sibling column is missing or that table has no largest id |
| Postprocess.PostRowKeys | anygrate/processing.py:349-378 | succeeds iff every value of the given keys does, and then holds exactly those keys with their values |
| Postprocess.PostRow | anygrate/processing.py:347-378 | the output row has exactly the input row's keys, each postprocessed |
| Postprocess.KeepRow | anygrate/processing.py:380-388 | a row with an id is always written; an id-less row is written iff its discriminator values, as strings, are not an existing record; a missing discriminator raises `KeyError` |
| Postprocess.PostRows | anygrate/processing.py:346-388 | at most one output row per input row |
| Postprocess.PostRowsKeepsRowsWithId | anygrate/processing.py:386-388 | rows that all have an id are all written, each with its keys |
| Postprocess.PostRowsLastKept | anygrate/processing.py:386-388 | a last row with an id is appended, with its keys, after the others' output |
| Postprocess.PostRowsErrSticky | anygrate/processing.py:346-388 | an exception on one row ends the file with that exception |
| Processing.TargetSets | anygrate/processing.py:60-62 | fails with `ValueError` iff some target does not split in two |
| Processing.TargetSetsTables | anygrate/processing.py:60-62 | the tables collected are exactly those of the targets met |
| Processing.TargetSetsColumns | anygrate/processing.py:60-62 | the columns collected per table are exactly those of the targets met |
| Processing.CollectTargets | anygrate/processing.py:60-62 | the loop with `setdefault(...).add(...)` computes `TargetSets` |
| Processing.ColumnsOf | anygrate/processing.py:64-65 | per table, the columns sorted, without duplicates and without `_`, and no other |
| Processing.Headers | anygrate/processing.py:118-119 | the header of each source file in the order given |
| Processing.ReadBack | anygrate/processing.py:184-186 | each written row read back over the table's columns |
| Processing.ProcessRowsCountsLines | anygrate/processing.py:229 | `lines` rises by one per source row |
| Processing.ProcessRowsKeepsStreamsClean | anygrate/processing.py:228-338 | over a file, insert streams never receive a forgotten or incomplete m2m row, and update rows always have an id |
| Processing.ProcessRowsErrSticky | anygrate/processing.py:228-338 | an exception on one source row ends the file with an exception |
| Processing.MigrateAfterColumns | anygrate/processing.py:113-215 | once the target columns are known, `process` is the first pass over the reordered tables followed by the second pass |
| Processing.CSVProcessor.constructor | anygrate/processing.py:23-36 | every table and stream starts empty, with `lines` at 0 |
| Processing.CSVProcessor.GetTargetColumns | anygrate/processing.py:38-66 | the cached columns when there are any; otherwise the sorted columns of the targets met, stored in the cache; a malformed target raises `ValueError` |
| Processing.CSVProcessor.SetExistingData | anygrate/processing.py:68-76 | the records are stored, and per table the same records without ids |
| Processing.CSVProcessor.ReorderWithDiscriminators | anygrate/processing.py:78-111 | the placement loop computes the corrected `Reorder`, which keeps every table and puts `ir_property` last |
| Processing.CSVProcessor.FixDiscriminatorValues | anygrate/processing.py:286-293 | the loop computes `FixDiscriminators` against the current `fk_mapping` |
| Processing.CSVProcessor.FindExisting | anygrate/processing.py:300-304 | the loop stops at the first existing record that matches |
| Processing.CSVProcessor.ApplyJob | anygrate/processing.py:238-269 | one target of one column updates the target rows, `ref_mapping`, `is_moved`, `fk_mapping` and the counters as `JobStep` |
| Processing.CSVProcessor.ApplyMovedRow | anygrate/processing.py:257-263 | the moved-row branch, in source order, updates the state as `MovedStep`; a missing maximum target id raises `KeyError` before the source id is parsed |
| Processing.CSVProcessor.TransformRow | anygrate/processing.py:230-269 | the column loop builds the target rows and updates the state as the fold of `JobStep` over the row's jobs |
| Processing.CSVProcessor.UpdateExistingRow | anygrate/processing.py:299-317 | the matched branch updates `fk_mapping` and the update stream as `UpdateExisting` |
| Processing.CSVProcessor.InsertNewRow | anygrate/processing.py:319-338 | the unmatched branch writes the streams as `InsertNew` |
| Processing.CSVProcessor.RouteTargetRow | anygrate/processing.py:274-338 | one target row is routed as `Route` |
| Processing.CSVProcessor.RouteTargetRows | anygrate/processing.py:273-338 | all target rows of a source row are routed, in table order |
| Processing.CSVProcessor.ProcessRow | anygrate/processing.py:228-338 | one source row changes the whole state as `RowStep` |
| Processing.CSVProcessor.ProcessOne | anygrate/processing.py:217-338 | one source file changes the whole state as `ProcessRows`, whose lemmas bound it |
| Processing.CSVProcessor.FirstPass | anygrate/processing.py:156-159 | the source files are processed in order |
| Processing.CSVProcessor.PostprocessRow | anygrate/processing.py:347-378 | the loop over a row's keys computes `PostRow` |
| Processing.CSVProcessor.PostprocessOne | anygrate/processing.py:340-388 | the rows of one stream are postprocessed and filtered as `PostRows` |
| Processing.CSVProcessor.PostprocessAll | anygrate/processing.py:184-186 | every table's stream is postprocessed, in table order |
| Processing.CSVProcessor.PostprocessPasses | anygrate/processing.py:170-215 | the insert streams, then the update streams, give the second-pass streams |
| Processing.CSVProcessor.RunPasses | anygrate/processing.py:156-215 | first pass, then second pass |
| Processing.CSVProcessor.Process | anygrate/processing.py:113-215 | target columns, reordering, first and second pass, as `Migrate` |

## Findings

| source | as written | input that shows it | evidently intended | confidence | as-written member | corrected member |
|---|---|---|---|---|---|---|
| anygrate/processing.py:321 | `int(target_row['id']) + self.mapping.max_target_id` adds the whole dictionary to an int | any unmatched target row with a readable `id` | offset by `max_target_id[table]`, as lines 263, 359 and 372 do | not executed | Routing.InsertNewAsWrittenRaises | Routing.InsertNewWrites |
| migration/mapping.py:196 | the partial wildcard filter reads `self.explicit_columns`, which no code assigns | a lookup of `res_partner.name` with only a non-empty `res_partner.*` entry | no filter while nothing is declared (`explicit_columns` empty) | not executed | MigrationMapping.Mapping.GetTargetColumnAsWritten | MigrationMapping.Mapping.GetTargetColumn |
| migration/mapping.py:41-43, 112-113; anygrate/mapping.py:40-42, 104-109 | the final loop calls `.items()` on every module value left, and a `__nothing_to_do__` module that is not enabled is never deleted | files with modules `base: {}` and `crm: __nothing_to_do__`, only `base` enabled | skip `__nothing_to_do__` modules when collecting discriminators | not executed | MappingDocs.NothingToDoElsewhereReachesMetadata | MappingDocs.CollectMetadata |
| anygrate/processing.py:93-108 | a table that a foreign-key discriminator points to, but which has no discriminators of its own, is removed from the tables and never placed again; a pointed-to table that is not being processed is added | `res_partner` and `res_users`, with `res_users` matched on `partner_id` (a key to `res_partner`) | every processed table is processed exactly once, the pointed-to ones first | not executed | Reordering.ReorderDropsReferencedTable | Reordering.ReorderKeepsTables |

## Left out

- File I/O is out of the model. Opening, reading and closing files, `csv` parsing and the header row are replaced by in-memory sources and streams. So are `os.remove` (`del_csv`) and `os.rename`; renames are returned as a list.
- The append mode of the output files is not modelled: every stream starts empty.
- A `DictWriter` given a row with a column outside its field names raises `ValueError`; the model keeps such a row. A write to a table without a writer raises `KeyError`; the model creates the stream.
- Database access is out of the model. This covers connections, `COPY`, `ROLLBACK TO savepoint`, `Mapping.sql`, `fk_lookup`, `update_database_sequences` and `CSVProcessor.update_all`. It also covers the `sql_commands.py` helpers other than `validate_identifiers` and `make_savepoint`. The results of the `select max(id)` queries and of each `COPY` are inputs.
- `exec`/`compile` of user functions is left out. A user function is a parameter from the directive body, the source row and the target rows to a value. It has no side effects, so a function that calls `newid` or `sql` is not modelled.
- Logging, `setup.py`, the `migrating.py` command line and the exporters are out of the model.
- Python 2 dictionary and set order is unspecified. The model visits keys in ascending order (`SortedSet`) in routing, postprocessing and `reorder_with_discriminators`. The compile loop and the metadata collection pick each next key with `:|`, and their contracts hold for any order.
- Processing.CSVProcessor.ProcessOne: a source row is a map from column to cell, plus `_` set to `None`. How `csv.DictReader` handles short and long rows is not modelled.
- The class-level dictionaries `max_target_id`, `max_source_id` and `new_id` are shared between instances in the source. In the model they are fields of one `Mapping` object, so sharing across instances is not modelled.
- The deleted-column branch of `process_one` (`anygrate/processing.py:251-253`) cannot be reached: a forgotten column maps to `{}`, so it yields no target. The model has no such directive.
- Existing records: the `id` of an existing record is an integer, and its other fields are compared through their `str()`.
- MappingDocs.CollectMetadata: a `__discriminator__` or `__stored__` value that is not a list of names is rejected with `TypeError`. The source stores such a discriminator value unchanged, and a string `__stored__` value extends the list with its characters.
- Unicode: strings are sequences of characters. `isalnum` is ASCII letters and digits, and `split()` splits on ASCII whitespace.
- MappingDocs.MergeKey: every column entry that is not a dictionary, `null` or a forget marking is rejected with `ValueError`. In the source, `dict.update` accepts a list of key/value pairs for a column that an earlier module already mapped to a dictionary.
- After an exception, the state of the objects is not specified: the run stops, and the model only says which exception is raised.
- The `targets` lookup of `CSVProcessor` is bound once, in the constructor, to the mapping's `get_target_column`.
- `import_from_csv` asserts that every file exists; files are values here, so that assertion is left out.
- A table without an id column is skipped by `set_database_ids`, as in the source; the connection rollback that goes with it is not modelled.
