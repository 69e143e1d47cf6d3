/**
 * The second half of `process_one`: every target row built from a source row is either dropped,
 * matched against an existing record of the target database by its discriminator values and sent
 * to the update stream with its id remapped, or sent to the insert stream with its id offset by
 * the table's maximum target id (its deferred columns split off into the update stream).
 */
module Routing {
  import opened Wrappers
  import opened Strings
  import opened PyValues

  /** What routing changes: the id remapping and the two output streams of every table. */
  datatype RouteState = RouteState(
    fkMapping: map<string, map<int, int>>,  // table -> original id -> id in the target
    inserts: map<string, seq<Row>>,         // rows for `<table>.target.csv`
    updates: map<string, seq<Row>>)         // rows for `<table>.update.csv`

  /** What routing reads: the mapping's tables and the existing records of the target. */
  datatype Env = Env(
    discriminators: map<string, seq<string>>,
    fk2update: map<string, string>,
    deferred: map<string, set<string>>,
    maxTargetId: map<string, int>,
    existing: map<string, seq<Existing>>)

  /** `writer.writerow(row)` on the stream of `t`. */
  function Append(streams: map<string, seq<Row>>, t: string, row: Row): map<string, seq<Row>>
  {
    streams[t := GetRows(streams, t) + [row]]
  }

  /** `self.mapping.discriminators.get(table)`, with `None` read as no discriminators. */
  function Discriminators(env: Env, table: string): seq<string>
  {
    if table in env.discriminators then env.discriminators[table] else []
  }

  /** `self.existing_records_without_id.get(table, [])` */
  function ExistingWithoutId(env: Env, table: string): seq<Row>
  {
    WithoutIds(GetRows(env.existing, table))
  }

  /** `self.fk2update.get(table + '.' + key)`, with a missing entry read as the falsy `""`. */
  function FkTableOf(fk2update: map<string, string>, table: string, key: string): string
  {
    if table + "." + key in fk2update then fk2update[table + "." + key] else ""
  }

  /** `{d: target_row[d] for d in discriminators}`: a discriminator missing from the row raises. */
  function DiscriminatorValues(row: Row, discs: seq<string>): (r: Result<Row>)
    ensures r.Ok? <==> forall d :: d in discs ==> d in row
    ensures r.Err? ==> r.error == KeyError
    ensures r.Ok? ==> (forall d :: d in r.value <==> d in discs) && forall d :: d in r.value ==> r.value[d] == row[d]
  {
    if forall d :: d in discs ==> d in row then Ok(map d | d in discs :: row[d]) else Err(KeyError)
  }

  /**
   * The fix of one discriminator value that is a foreign key: a non-empty value of a column with
   * an `fk2update` table is read as an integer; when that table's rows were remapped, the value
   * becomes the remapped id as a string, and otherwise it is kept.
   */
  function FixValue(value: Value, fkTable: string, fkMapping: map<string, map<int, int>>): Result<Value>
  {
    if Truthy(value) && fkTable != "" then
      var n :- PyInt(value);
      var ids := GetIds(fkMapping, fkTable);
      if n in ids then Ok(Text(IntToString(ids[n]))) else Ok(value)
    else Ok(value)
  }

  /**
   * A value that is empty, or of a column that is not a foreign key, is kept; otherwise the fix
   * raises exactly when the value does not read as an integer `n`, and the fixed value reads back
   * as the remapped id of `n` when there is one, and is the value itself otherwise.
   */
  lemma FixValueEffects(value: Value, fkTable: string, fkMapping: map<string, map<int, int>>)
    ensures var r := FixValue(value, fkTable, fkMapping);
      && (!Truthy(value) || fkTable == "" ==> r == Ok(value))
      && (r.Err? ==> r.error == ValueError && value.Text? && ParseInt(value.s).None?)
      && (Truthy(value) && fkTable != "" ==> (r.Ok? <==> PyInt(value).Ok?))
    ensures var r := FixValue(value, fkTable, fkMapping);
      r.Ok? && Truthy(value) && fkTable != "" ==>
        var n := PyInt(value).value;
        var ids := GetIds(fkMapping, fkTable);
        && (n in ids ==> PyInt(r.value) == Ok(ids[n]) && r.value.Text?)
        && (n !in ids ==> r.value == value)
  {
    if Truthy(value) && fkTable != "" && PyInt(value).Ok? {
      var ids := GetIds(fkMapping, fkTable);
      if PyInt(value).value in ids {
        ParseIntToString(ids[PyInt(value).value]);
      }
    }
  }

  /** The fix of the discriminator value of column `k`. */
  function FixOne(table: string, values: Row, fk2update: map<string, string>,
                  fkMapping: map<string, map<int, int>>, k: string): Result<Value>
    requires k in values
  {
    FixValue(values[k], FkTableOf(fk2update, table, k), fkMapping)
  }

  /** The loop fixing every discriminator value; it raises on the first value that is not an integer. */
  function FixDiscriminators(table: string, values: Row, fk2update: map<string, string>,
                             fkMapping: map<string, map<int, int>>): (r: Result<Row>)
    ensures r.Ok? <==> forall k :: k in values ==> FixOne(table, values, fk2update, fkMapping, k).Ok?
    ensures r.Ok? ==> r.value.Keys == values.Keys
  {
    if forall k :: k in values ==> FixOne(table, values, fk2update, fkMapping, k).Ok? then
      Ok(map k | k in values :: FixOne(table, values, fk2update, fkMapping, k).value)
    else Err(ValueError)
  }

  /**
   * A row matches an existing record when its table has discriminators, it has an `id`, all its
   * (fixed) discriminator values are non-empty and they equal the non-id columns of an existing
   * record.
   */
  predicate Matched(discs: seq<string>, row: Row, fixed: Row, withoutIds: seq<Row>)
  {
    discs != [] && "id" in row && AllTruthy(fixed) && fixed in withoutIds
  }

  /** The position of the first existing record whose non-id columns are `fixed`. */
  function FirstMatch(records: seq<Existing>, fixed: Row): (i: nat)
    requires fixed in WithoutIds(records)
    ensures i < |records| && WithoutId(records[i]) == fixed
    ensures forall j :: 0 <= j < i ==> WithoutId(records[j]) != fixed
  {
    if WithoutId(records[0]) == fixed then 0
    else
      assert WithoutIds(records[1..]) == WithoutIds(records)[1..];
      1 + FirstMatch(records[1..], fixed)
  }

  /**
   * The matched branch: the row's source id is mapped to the existing record's id; when the
   * source table had `__moved__` columns and its own source id was remapped, that remapping and
   * the row's id are pointed at the existing record too. The row goes to the update stream.
   */
  function UpdateExisting(st: RouteState, env: Env, isMoved: set<string>, sourceTable: string,
                          sourceRow: Row, table: string, row: Row, fixed: Row): (r: Result<RouteState>)
    requires "id" in row && fixed in ExistingWithoutId(env, table)
  {
    var records := GetRows(env.existing, table);
    var existingId := records[FirstMatch(records, fixed)].id;
    var id :- PyInt(row["id"]);
    var fk := st.fkMapping[table := GetIds(st.fkMapping, table)[id := existingId]];
    if sourceTable in isMoved then
      if "id" !in sourceRow then Err(KeyError)
      else
        var sourceId :- PyInt(sourceRow["id"]);
        if sourceTable !in fk then Err(KeyError)
        else if sourceId in fk[sourceTable] then
          Ok(RouteState(fk[sourceTable := fk[sourceTable][sourceId := existingId]], st.inserts,
                        Append(st.updates, table, row["id" := Number(existingId)])))
        else Ok(RouteState(fk, st.inserts, Append(st.updates, table, row)))
    else Ok(RouteState(fk, st.inserts, Append(st.updates, table, row)))
  }

  /** The id of the existing record a matched row is remapped to. */
  function ExistingId(env: Env, table: string, fixed: Row): int
    requires fixed in ExistingWithoutId(env, table)
  {
    var records := GetRows(env.existing, table);
    records[FirstMatch(records, fixed)].id
  }

  /**
   * A matched row goes to the update stream only, its other columns unchanged and its id not
   * offset (kept, or set to the existing id), and its source id is remapped to the existing id.
   */
  lemma UpdateExistingEffects(st: RouteState, env: Env, isMoved: set<string>, sourceTable: string,
                              sourceRow: Row, table: string, row: Row, fixed: Row)
    requires "id" in row && fixed in ExistingWithoutId(env, table)
    ensures var r := UpdateExisting(st, env, isMoved, sourceTable, sourceRow, table, row, fixed);
      PyInt(row["id"]).Err? ==> r.Err?
    ensures var r := UpdateExisting(st, env, isMoved, sourceTable, sourceRow, table, row, fixed);
      var existingId := ExistingId(env, table, fixed);
      r.Ok? ==>
        && r.value.inserts == st.inserts
        && table in r.value.fkMapping
        && PyInt(row["id"]).value in r.value.fkMapping[table]
        && r.value.fkMapping[table][PyInt(row["id"]).value] == existingId
        && r.value.updates.Keys == st.updates.Keys + {table}
        && (forall u :: u in st.updates && u != table ==> r.value.updates[u] == st.updates[u])
        && |r.value.updates[table]| == |GetRows(st.updates, table)| + 1
        && r.value.updates[table][..|GetRows(st.updates, table)|] == GetRows(st.updates, table)
        && var w := r.value.updates[table][|GetRows(st.updates, table)|];
           && w.Keys == row.Keys
           && (forall k :: k in row && k != "id" ==> w[k] == row[k])
           && (w["id"] == row["id"] || w["id"] == Number(existingId))
  {
    var r := UpdateExisting(st, env, isMoved, sourceTable, sourceRow, table, row, fixed);
    if r.Ok? {
      var existingId := ExistingId(env, table, fixed);
      var id := PyInt(row["id"]).value;
      var fk := st.fkMapping[table := GetIds(st.fkMapping, table)[id := existingId]];
      var w: Row;
      if sourceTable in isMoved && PyInt(sourceRow["id"]).value in fk[sourceTable] {
        var sourceId := PyInt(sourceRow["id"]).value;
        w := row["id" := Number(existingId)];
        assert r.value == RouteState(fk[sourceTable := fk[sourceTable][sourceId := existingId]], st.inserts,
                                     Append(st.updates, table, w));
      } else {
        w := row;
        assert r.value == RouteState(fk, st.inserts, Append(st.updates, table, w));
      }
      AppendFacts(st.updates, table, w);
    }
  }

  lemma AppendFacts(streams: map<string, seq<Row>>, t: string, row: Row)
    ensures var r := Append(streams, t, row);
      && r.Keys == streams.Keys + {t}
      && (forall u :: u in streams && u != t ==> r[u] == streams[u])
      && |r[t]| == |GetRows(streams, t)| + 1
      && r[t][..|GetRows(streams, t)|] == GetRows(streams, t)
      && r[t][|GetRows(streams, t)|] == row
  {
  }

  /** A row with no `id` and exactly two columns, one of them empty: a half-filled many2many link. */
  predicate IncompleteM2M(row: Row)
  {
    "id" !in row && |row| == 2 && !AllTruthy(row)
  }

  /** The last check before the insert stream: an incomplete many2many row is not written. */
  function WriteInsert(st: RouteState, table: string, row: Row): RouteState
  {
    if IncompleteM2M(row) then st else st.(inserts := Append(st.inserts, table, row))
  }

  /** `{k: v for k, v in target_row.iteritems() if k == 'id' or (k in deferred and v != '')}` */
  function DeferredUpdate(row: Row, deferred: set<string>): (r: Row)
    ensures forall k :: k in r <==> k in row && (k == "id" || (k in deferred && row[k] != Text("")))
    ensures forall k :: k in r ==> r[k] == row[k]
  {
    map k | k in row && (k == "id" || (k in deferred && row[k] != Text(""))) :: row[k]
  }

  /** The insert row once the deferred columns are deleted from it. */
  function WithoutDeferred(row: Row, deferred: set<string>): (r: Row)
    ensures forall k :: k in r <==> k in row && k !in deferred
    ensures forall k :: k in r ==> r[k] == row[k]
  {
    map k | k in row && k !in deferred :: row[k]
  }

  /**
   * The unmatched branch, with the id offset by the table's maximum target id (see
   * `InsertNewAsWritten` for the offset as written). A row with an id of a table with deferred
   * columns emits `id` plus its non-empty deferred values to the update stream when that holds
   * more than the id, and loses its deferred columns; the row goes to the insert stream unless it
   * is an incomplete many2many link.
   */
  function InsertNew(st: RouteState, env: Env, table: string, row: Row): (r: Result<RouteState>)
    ensures r.Ok? ==> r.value.fkMapping == st.fkMapping
    ensures "id" in row ==> (r.Ok? <==> PyInt(row["id"]).Ok? && table in env.maxTargetId)
    ensures "id" !in row ==> r == Ok(WriteInsert(st, table, row))
  {
    if "id" in row then
      var id :- PyInt(row["id"]);
      if table !in env.maxTargetId then Err(KeyError)
      else
        var offset := row["id" := Number(id + env.maxTargetId[table])];
        if table in env.deferred then
          var upd := DeferredUpdate(offset, env.deferred[table]);
          var updates := if |upd| > 1 then Append(st.updates, table, upd) else st.updates;
          Ok(WriteInsert(st.(updates := updates), table, WithoutDeferred(offset, env.deferred[table])))
        else Ok(WriteInsert(st, table, offset))
    else Ok(WriteInsert(st, table, row))
  }

  /**
   * What an unmatched row with an id writes: the insert stream gets the row with its id offset
   * and without its deferred columns (unless that is an incomplete many2many link), and the update
   * stream gets the offset id with the non-empty deferred values when there is at least one.
   */
  lemma InsertNewWrites(st: RouteState, env: Env, table: string, row: Row)
    requires "id" in row && InsertNew(st, env, table, row).Ok?
    ensures var r := InsertNew(st, env, table, row).value;
      var id := Number(PyInt(row["id"]).value + env.maxTargetId[table]);
      var deferred := if table in env.deferred then env.deferred[table] else {};
      var kept := map k | k in row && k !in deferred :: if k == "id" then id else row[k];
      var upd := map k | k in row && (k == "id" || (k in deferred && row[k] != Text(""))) :: if k == "id" then id else row[k];
      && r.inserts == (if IncompleteM2M(kept) then st.inserts else Append(st.inserts, table, kept))
      && r.updates == (if |upd| > 1 then Append(st.updates, table, upd) else st.updates)
  {
    var id := Number(PyInt(row["id"]).value + env.maxTargetId[table]);
    var offset := row["id" := id];
    var deferred := if table in env.deferred then env.deferred[table] else {};
    OffsetColumns(row, id, deferred);
    if table !in env.deferred {
      assert WithoutDeferred(offset, deferred) == offset;
      assert DeferredUpdate(offset, deferred) == map["id" := id];
    }
  }

  /** The columns of the offset row, without the deferred ones and with only them. */
  lemma OffsetColumns(row: Row, id: Value, deferred: set<string>)
    requires "id" in row
    ensures WithoutDeferred(row["id" := id], deferred)
      == map k | k in row && k !in deferred :: if k == "id" then id else row[k]
    ensures DeferredUpdate(row["id" := id], deferred)
      == map k | k in row && (k == "id" || (k in deferred && row[k] != Text(""))) :: if k == "id" then id else row[k]
  {
  }

  /**
   * The unmatched branch as written at processing.py:321: the whole `max_target_id` dict is added
   * to the integer id, which raises `TypeError`.
   */
  function InsertNewAsWritten(st: RouteState, env: Env, table: string, row: Row): Result<RouteState>
  {
    if "id" in row then
      var id :- PyInt(row["id"]);
      Err(TypeError)
    else Ok(WriteInsert(st, table, row))
  }

  /**
   * As written, every unmatched row with a readable id aborts the run, where the corrected branch
   * inserts it with its id offset.
   */
  lemma InsertNewAsWrittenRaises(st: RouteState, env: Env, table: string, row: Row)
    requires "id" in row && PyInt(row["id"]).Ok? && table in env.maxTargetId
    ensures InsertNewAsWritten(st, env, table, row) == Err(TypeError)
    ensures InsertNew(st, env, table, row).Ok?
  {
  }

  /** One target row of `process_one`: the skips, the discriminator match and the two branches. */
  function Route(st: RouteState, env: Env, isMoved: set<string>, sourceTable: string, sourceRow: Row,
                 table: string, row: Row): (r: Result<RouteState>)
    ensures ForgetRowSentinel in row || !AnyTruthy(row) ==> r == Ok(st)
  {
    if ForgetRowSentinel in row || !AnyTruthy(row) then Ok(st)
    else
      var discs := Discriminators(env, table);
      var values :- DiscriminatorValues(row, discs);
      var fixed :- FixDiscriminators(table, values, env.fk2update, st.fkMapping);
      if Matched(discs, row, fixed, ExistingWithoutId(env, table)) then
        UpdateExisting(st, env, isMoved, sourceTable, sourceRow, table, row, fixed)
      else InsertNew(st, env, table, row)
  }

  /** The insert stream never holds a row marked to be forgotten or an incomplete many2many link. */
  predicate CleanInserts(inserts: map<string, seq<Row>>)
  {
    forall t, i :: t in inserts && 0 <= i < |inserts[t]| ==>
      ForgetRowSentinel !in inserts[t][i] && !IncompleteM2M(inserts[t][i])
  }

  /** Every row of the update stream carries its `id`. */
  predicate CleanUpdates(updates: map<string, seq<Row>>)
  {
    forall t, i :: t in updates && 0 <= i < |updates[t]| ==> "id" in updates[t][i]
  }

  lemma AppendKeeps(streams: map<string, seq<Row>>, t: string, row: Row, i: int, u: string)
    requires u in streams && 0 <= i < |streams[u]|
    ensures u in Append(streams, t, row) && i < |Append(streams, t, row)[u]|
    ensures Append(streams, t, row)[u][i] == streams[u][i]
  {
  }

  /**
   * Routing keeps both streams clean: no row marked `__forget_row__` and no incomplete many2many
   * link is ever inserted, and every update row has an id. (That a row whose values are all empty
   * changes nothing is stated by `Route` itself.)
   */
  lemma RouteKeepsStreamsClean(st: RouteState, env: Env, isMoved: set<string>, sourceTable: string,
                               sourceRow: Row, table: string, row: Row)
    requires CleanInserts(st.inserts) && CleanUpdates(st.updates)
    ensures var r := Route(st, env, isMoved, sourceTable, sourceRow, table, row);
      r.Ok? ==> CleanInserts(r.value.inserts) && CleanUpdates(r.value.updates)
  {
    var r := Route(st, env, isMoved, sourceTable, sourceRow, table, row);
    if r.Ok? && !(ForgetRowSentinel in row || !AnyTruthy(row)) {
      var discs := Discriminators(env, table);
      var fixed := FixDiscriminators(table, DiscriminatorValues(row, discs).value, env.fk2update, st.fkMapping).value;
      if Matched(discs, row, fixed, ExistingWithoutId(env, table)) {
        UpdateExistingClean(st, env, isMoved, sourceTable, sourceRow, table, row, fixed);
      } else {
        InsertNewClean(st, env, table, row);
      }
    }
  }

  lemma UpdateExistingClean(st: RouteState, env: Env, isMoved: set<string>, sourceTable: string,
                            sourceRow: Row, table: string, row: Row, fixed: Row)
    requires CleanInserts(st.inserts) && CleanUpdates(st.updates)
    requires "id" in row && fixed in ExistingWithoutId(env, table)
    ensures var r := UpdateExisting(st, env, isMoved, sourceTable, sourceRow, table, row, fixed);
      r.Ok? ==> CleanInserts(r.value.inserts) && CleanUpdates(r.value.updates)
  {
    var r := UpdateExisting(st, env, isMoved, sourceTable, sourceRow, table, row, fixed);
    if r.Ok? {
      UpdateExistingEffects(st, env, isMoved, sourceTable, sourceRow, table, row, fixed);
      var n := |GetRows(st.updates, table)|;
      forall u, i | u in r.value.updates && 0 <= i < |r.value.updates[u]|
        ensures "id" in r.value.updates[u][i]
      {
        if u == table && i < n {
          assert r.value.updates[u][i] == r.value.updates[table][..n][i];
        }
      }
    }
  }

  lemma InsertNewClean(st: RouteState, env: Env, table: string, row: Row)
    requires CleanInserts(st.inserts) && CleanUpdates(st.updates)
    requires ForgetRowSentinel !in row
    ensures var r := InsertNew(st, env, table, row);
      r.Ok? ==> CleanInserts(r.value.inserts) && CleanUpdates(r.value.updates)
  {
    var r := InsertNew(st, env, table, row);
    if r.Ok? {
      if "id" in row {
        var offset := row["id" := Number(PyInt(row["id"]).value + env.maxTargetId[table])];
        assert ForgetRowSentinel !in offset;
        if table in env.deferred {
          var upd := DeferredUpdate(offset, env.deferred[table]);
          var kept := WithoutDeferred(offset, env.deferred[table]);
          assert ForgetRowSentinel !in kept;
          var st' := st.(updates := if |upd| > 1 then Append(st.updates, table, upd) else st.updates);
          assert CleanUpdates(st'.updates) by {
            if |upd| > 1 {
              assert "id" in upd;
              AppendClean(st.updates, table, upd);
            }
          }
          WriteInsertClean(st', table, kept);
          assert r.value == WriteInsert(st', table, kept);
        } else {
          WriteInsertClean(st, table, offset);
          assert r.value == WriteInsert(st, table, offset);
        }
      } else {
        WriteInsertClean(st, table, row);
        assert r.value == WriteInsert(st, table, row);
      }
    }
  }

  lemma AppendClean(updates: map<string, seq<Row>>, t: string, row: Row)
    requires CleanUpdates(updates) && "id" in row
    ensures CleanUpdates(Append(updates, t, row))
  {
    AppendFacts(updates, t, row);
    var r := Append(updates, t, row);
    var n := |GetRows(updates, t)|;
    forall u, i | u in r && 0 <= i < |r[u]|
      ensures "id" in r[u][i]
    {
      if u == t && i < n {
        assert r[u][i] == r[t][..n][i];
      }
    }
  }

  lemma WriteInsertClean(st: RouteState, table: string, row: Row)
    requires CleanInserts(st.inserts) && ForgetRowSentinel !in row
    ensures CleanInserts(WriteInsert(st, table, row).inserts)
    ensures WriteInsert(st, table, row).updates == st.updates
  {
    if !IncompleteM2M(row) {
      AppendFacts(st.inserts, table, row);
      var r := Append(st.inserts, table, row);
      var n := |GetRows(st.inserts, table)|;
      forall u, i | u in r && 0 <= i < |r[u]|
        ensures ForgetRowSentinel !in r[u][i] && !IncompleteM2M(r[u][i])
      {
        if u == table && i < n {
          assert r[u][i] == r[table][..n][i];
        }
      }
    }
  }

  /**
   * Routing a row that matches an existing record: nothing is inserted and the row's source id
   * now maps to the existing record's id.
   */
  lemma RouteMatched(st: RouteState, env: Env, isMoved: set<string>, sourceTable: string,
                     sourceRow: Row, table: string, row: Row)
    requires ForgetRowSentinel !in row && AnyTruthy(row)
    requires DiscriminatorValues(row, Discriminators(env, table)).Ok?
    requires var values := DiscriminatorValues(row, Discriminators(env, table)).value;
      var fixed := FixDiscriminators(table, values, env.fk2update, st.fkMapping);
      fixed.Ok? && Matched(Discriminators(env, table), row, fixed.value, ExistingWithoutId(env, table))
    ensures var values := DiscriminatorValues(row, Discriminators(env, table)).value;
      var fixed := FixDiscriminators(table, values, env.fk2update, st.fkMapping).value;
      var r := Route(st, env, isMoved, sourceTable, sourceRow, table, row);
      r.Ok? ==>
        && r.value.inserts == st.inserts
        && table in r.value.fkMapping
        && PyInt(row["id"]).value in r.value.fkMapping[table]
        && r.value.fkMapping[table][PyInt(row["id"]).value] == ExistingId(env, table, fixed)
  {
    var values := DiscriminatorValues(row, Discriminators(env, table)).value;
    var fixed := FixDiscriminators(table, values, env.fk2update, st.fkMapping).value;
    UpdateExistingEffects(st, env, isMoved, sourceTable, sourceRow, table, row, fixed);
  }

  /** The routing loop over the target rows of one source row, table by table. */
  function RouteAll(st: RouteState, env: Env, isMoved: set<string>, sourceTable: string, sourceRow: Row,
                    rows: map<string, Row>, tables: seq<string>): Result<RouteState>
    requires forall t :: t in tables ==> t in rows
  {
    if tables == [] then Ok(st)
    else
      var prev :- RouteAll(st, env, isMoved, sourceTable, sourceRow, rows, tables[..|tables| - 1]);
      Route(prev, env, isMoved, sourceTable, sourceRow, tables[|tables| - 1], rows[tables[|tables| - 1]])
  }

  /** The whole routing loop keeps both streams clean. */
  lemma {:induction false} RouteAllKeepsStreamsClean(st: RouteState, env: Env, isMoved: set<string>, sourceTable: string,
                                                     sourceRow: Row, rows: map<string, Row>, tables: seq<string>)
    requires forall t :: t in tables ==> t in rows
    requires CleanInserts(st.inserts) && CleanUpdates(st.updates)
    ensures var r := RouteAll(st, env, isMoved, sourceTable, sourceRow, rows, tables);
      r.Ok? ==> CleanInserts(r.value.inserts) && CleanUpdates(r.value.updates)
  {
    if tables != [] {
      var prefix := tables[..|tables| - 1];
      RouteAllKeepsStreamsClean(st, env, isMoved, sourceTable, sourceRow, rows, prefix);
      var prev := RouteAll(st, env, isMoved, sourceTable, sourceRow, rows, prefix);
      if prev.Ok? {
        var t := tables[|tables| - 1];
        RouteKeepsStreamsClean(prev.value, env, isMoved, sourceTable, sourceRow, t, rows[t]);
      }
    }
  }

  /** Once a target row has failed to route, the routing of the whole source row fails. */
  lemma {:induction false} RouteAllErrSticky(st: RouteState, env: Env, isMoved: set<string>, sourceTable: string,
                                             sourceRow: Row, rows: map<string, Row>, tables: seq<string>, k: int)
    requires forall t :: t in tables ==> t in rows
    requires 0 <= k <= |tables|
    requires RouteAll(st, env, isMoved, sourceTable, sourceRow, rows, tables[..k]).Err?
    ensures RouteAll(st, env, isMoved, sourceTable, sourceRow, rows, tables).Err?
    decreases |tables| - k
  {
    if k == |tables| {
      assert tables[..k] == tables;
    } else {
      assert tables[..k + 1][..k] == tables[..k];
      RouteAllErrSticky(st, env, isMoved, sourceTable, sourceRow, rows, tables, k + 1);
    }
  }

  /** The routing loop over one more table is one more `Route`. */
  lemma RouteAllSnoc(st: RouteState, env: Env, isMoved: set<string>, sourceTable: string,
                     sourceRow: Row, rows: map<string, Row>, tables: seq<string>, i: int)
    requires forall t :: t in tables ==> t in rows
    requires 0 <= i < |tables|
    ensures forall t :: t in tables[..i] ==> t in rows
    ensures forall t :: t in tables[..i + 1] ==> t in rows
    ensures RouteAll(st, env, isMoved, sourceTable, sourceRow, rows, tables[..i + 1])
      == match RouteAll(st, env, isMoved, sourceTable, sourceRow, rows, tables[..i])
         case Ok(prev) => Route(prev, env, isMoved, sourceTable, sourceRow, tables[i], rows[tables[i]])
         case Err(e) => Err(e)
  {
    assert forall t :: t in tables[..i + 1] ==> t in tables;
    assert tables[..i + 1][..i] == tables[..i];
  }
}
