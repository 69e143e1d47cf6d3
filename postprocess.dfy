/**
 * `postprocess_one`: the second pass over a written stream. Every foreign-key value, every id of
 * a remapped table and every `__ref__` value is rewritten with remap-or-offset: a source id that
 * was matched to an existing record becomes that record's id, any other id is shifted past the
 * table's maximum target id. Id-less rows whose discriminator values already exist are dropped.
 */
module Postprocess {
  import opened Wrappers
  import opened Strings
  import opened PyValues
  import opened Routing

  /** A row as `csv.DictReader` reads it back: every value a string. */
  type CsvRow = map<string, string>

  /** The id remapping gathered by the first pass. */
  datatype Remapping = Remapping(
    fkMapping: map<string, map<int, int>>,   // table -> original id -> id in the target
    refMapping: map<string, string>)         // `table.column` -> column naming the referenced table

  /**
   * `fk_mapping.get(t, {}).get(n, n + max_target_id[t])`: the remapped id when there is one, the
   * offset id otherwise. The default is evaluated first, so a table without a maximum raises.
   */
  function RemapOrOffset(fkMapping: map<string, map<int, int>>, t: string, n: int,
                         maxTargetId: map<string, int>): (r: Result<int>)
    ensures r.Ok? <==> t in maxTargetId
    ensures r.Err? ==> r.error == KeyError
    ensures r.Ok? && n in GetIds(fkMapping, t) ==> r.value == fkMapping[t][n]
    ensures r.Ok? && n !in GetIds(fkMapping, t) ==> r.value - maxTargetId[t] == n
  {
    if t !in maxTargetId then Err(KeyError)
    else if n in GetIds(fkMapping, t) then Ok(fkMapping[t][n])
    else Ok(n + maxTargetId[t])
  }

  /** The fix of a foreign key: `(value, output)` after `if value and fk_table`. */
  function FkFix(value: Value, fkTable: string, remap: Remapping, env: Env): (r: Result<(Value, Value)>)
  {
    if Truthy(value) && fkTable != "" then
      var n :- PyInt(value);
      var m :- RemapOrOffset(remap.fkMapping, fkTable, n, env.maxTargetId);
      Ok((Number(n), Number(m)))
    else Ok((value, value))
  }

  /**
   * The restoration of the id of a remapped table: `if key == 'id' and table in fk_mapping`. The
   * id of an inserted row was already offset past the table's maximum target id, while the keys
   * of `fk_mapping[table]` are source ids; the lookup is kept as the source does it, so an offset
   * id equal to a matched source id takes that record's id (see `IdFixOffsetCollision`).
   */
  function IdFix(table: string, key: string, value: Value, out: Value, remap: Remapping): Result<(Value, Value)>
  {
    if key == "id" && table in remap.fkMapping then
      var n :- PyInt(value);
      Ok((Number(n), Number(if n in remap.fkMapping[table] then remap.fkMapping[table][n] else n)))
    else Ok((value, out))
  }

  /**
   * Source record 5 of `res_partner` was matched to existing record 2, and source record 3 was
   * inserted with the id 3 + 2 = 5 (the table's maximum target id being 2): postprocessing the
   * inserted row gives it the existing record's id 2.
   */
  lemma IdFixOffsetCollision()
    ensures IdFix("res_partner", "id", Number(5), Number(5), Remapping(map["res_partner" := map[5 := 2]], map[]))
      == Ok((Number(5), Number(2)))
  {
  }

  /** The table a `__ref__` names, with dots turned into underscores (`res.partner` -> `res_partner`). */
  function RefTable(model: string): string
  {
    Replace(model, ".", "_")
  }

  /**
   * The fix of a `__ref__` column. When the column names itself (like `ir_property.value_reference`)
   * its value is `model,id` and the id inside it is rewritten; otherwise the value is an id and the
   * sibling column `ref_column` names the model.
   */
  function RefFix(table: string, key: string, value: Value, out: Value, row: CsvRow, remap: Remapping,
                  env: Env): Result<(Value, Value)>
  {
    var record := table + "." + key;
    if Truthy(value) && record in remap.refMapping then
      var refColumn := remap.refMapping[record];
      if refColumn == key then
        if !value.Text? then Err(AttributeError)  // `int` has no `split`
        else
          var parts := SplitOn(value.s, ',');
          if |parts| != 2 then Err(ValueError)
          else if parts[1] == "" then Err(ValueError)  // `int('')`
          else
            var fkId :- PyInt(Text(parts[1]));
            var newId :- RemapOrOffset(remap.fkMapping, RefTable(parts[0]), fkId, env.maxTargetId);
            Ok((value, Text(Replace(value.s, parts[1], IntToString(newId)))))
      else
        var n :- PyInt(value);
        if refColumn !in row then Err(KeyError)
        else
          var m :- RemapOrOffset(remap.fkMapping, RefTable(row[refColumn]), n, env.maxTargetId);
          Ok((Number(n), Number(m)))
    else Ok((value, out))
  }

  /** The postprocessed value of column `key` of `row` in `table`: the three fixes in turn. */
  function PostValue(table: string, key: string, row: CsvRow, remap: Remapping, env: Env): (r: Result<Value>)
    requires key in row
    ensures row[key] == "" && !(key == "id" && table in remap.fkMapping) ==> r == Ok(Text(""))
    ensures (FkTableOf(env.fk2update, table, key) == "" && !(key == "id" && table in remap.fkMapping)
             && table + "." + key !in remap.refMapping) ==> r == Ok(Text(row[key]))
  {
    var v0 := Text(row[key]);
    var (v1, o1) :- FkFix(v0, FkTableOf(env.fk2update, table, key), remap, env);
    var (v2, o2) :- IdFix(table, key, v1, o1, remap);
    var (_, o3) :- RefFix(table, key, v2, o2, row, remap, env);
    Ok(o3)
  }

  /**
   * A non-empty foreign key `v` to table `T` (not an id, not a reference) becomes
   * `fk_mapping[T].get(v, v + max_target_id[T])`; a value that is not an integer raises
   * `ValueError`, a table without a maximum `KeyError`.
   */
  lemma PostValueForeignKey(table: string, key: string, row: CsvRow, remap: Remapping, env: Env)
    requires key in row && row[key] != ""
    requires FkTableOf(env.fk2update, table, key) != "" && key != "id"
    requires table + "." + key !in remap.refMapping
    ensures var r := PostValue(table, key, row, remap, env);
      var fkTable := FkTableOf(env.fk2update, table, key);
      && (r.Ok? <==> PyInt(Text(row[key])).Ok? && fkTable in env.maxTargetId)
      && (r.Ok? ==> r.value == Number(RemapOrOffset(remap.fkMapping, fkTable, PyInt(Text(row[key])).value, env.maxTargetId).value))
  {
  }

  /**
   * The id of a row of a remapped table is read as an integer and restored to the existing
   * record's id when it was matched, and kept otherwise.
   */
  lemma PostValueId(table: string, row: CsvRow, remap: Remapping, env: Env)
    requires "id" in row && table in remap.fkMapping
    requires FkTableOf(env.fk2update, table, "id") == "" && table + ".id" !in remap.refMapping
    ensures var r := PostValue(table, "id", row, remap, env);
      var n := PyInt(Text(row["id"]));
      && (r.Ok? <==> n.Ok?)
      && (r.Ok? ==> r.value == Number(if n.value in remap.fkMapping[table] then remap.fkMapping[table][n.value] else n.value))
  {
    assert table + "." + "id" == table + ".id";
  }

  /**
   * A reference column that names itself holds `model,id`: the id part is replaced by the
   * remapped or offset id of the model's table.
   */
  lemma PostValueSelfReference(table: string, key: string, model: string, id: string, remap: Remapping, env: Env,
                               row: CsvRow)
    requires key in row && row[key] == model + "," + id && ',' !in model && ',' !in id
    requires FkTableOf(env.fk2update, table, key) == "" && key != "id"
    requires table + "." + key in remap.refMapping && remap.refMapping[table + "." + key] == key
    ensures var r := PostValue(table, key, row, remap, env);
      var n := PyInt(Text(id));
      && (r.Ok? <==> id != "" && n.Ok? && RefTable(model) in env.maxTargetId)
      && (r.Ok? ==>
            r.value == Text(Replace(row[key], id, IntToString(RemapOrOffset(remap.fkMapping, RefTable(model), n.value, env.maxTargetId).value))))
  {
    SplitPair(model, id);
  }

  /**
   * A reference column whose model is named by a sibling column holds an id: it is remapped or
   * offset against the table named in the sibling column, which must be present.
   */
  lemma PostValueSiblingReference(table: string, key: string, row: CsvRow, remap: Remapping, env: Env)
    requires key in row && row[key] != ""
    requires FkTableOf(env.fk2update, table, key) == "" && key != "id"
    requires table + "." + key in remap.refMapping && remap.refMapping[table + "." + key] != key
    ensures var r := PostValue(table, key, row, remap, env);
      var c := remap.refMapping[table + "." + key];
      var n := PyInt(Text(row[key]));
      && (r.Ok? <==> n.Ok? && c in row && RefTable(row[c]) in env.maxTargetId)
      && (r.Ok? ==> r.value == Number(RemapOrOffset(remap.fkMapping, RefTable(row[c]), n.value, env.maxTargetId).value))
  {
  }

  lemma SplitPair(a: string, b: string)
    requires ',' !in a && ',' !in b
    ensures SplitOn(a + "," + b, ',') == [a, b]
  {
    SplitAfterFirst(a, ',', b);
  }

  /** The postprocessed row over `keys`, the keys visited in order and the first error raised. */
  function PostRowKeys(table: string, row: CsvRow, keys: seq<string>, remap: Remapping, env: Env): (r: Result<Row>)
    requires forall k :: k in keys ==> k in row
    ensures r.Ok? <==> forall k :: k in keys ==> PostValue(table, k, row, remap, env).Ok?
    ensures r.Ok? ==> (forall k :: k in r.value <==> k in keys)
    ensures r.Ok? ==> forall k :: k in r.value ==> r.value[k] == PostValue(table, k, row, remap, env).value
  {
    if keys == [] then Ok(map[])
    else
      var k := keys[|keys| - 1];
      assert forall x :: x in keys <==> x in keys[..|keys| - 1] || x == k;
      var prev :- PostRowKeys(table, row, keys[..|keys| - 1], remap, env);
      var v :- PostValue(table, k, row, remap, env);
      Ok(prev[k := v])
  }

  /** The first key that fails decides the error of the whole row. */
  lemma {:induction false} PostRowKeysErrSticky(table: string, row: CsvRow, keys: seq<string>, remap: Remapping, env: Env,
                                                k: int, e: PyError)
    requires forall x :: x in keys ==> x in row
    requires 0 <= k <= |keys| && PostRowKeys(table, row, keys[..k], remap, env) == Err(e)
    ensures PostRowKeys(table, row, keys, remap, env) == Err(e)
    decreases |keys| - k
  {
    if k == |keys| {
      assert keys[..k] == keys;
    } else {
      assert keys[..k + 1][..k] == keys[..k];
      PostRowKeysErrSticky(table, row, keys, remap, env, k + 1, e);
    }
  }

  /** The postprocessed row: exactly the input's keys, each value postprocessed. */
  function PostRow(table: string, row: CsvRow, remap: Remapping, env: Env): (r: Result<Row>)
    ensures r.Ok? <==> forall k :: k in row ==> PostValue(table, k, row, remap, env).Ok?
    ensures r.Ok? ==> r.value.Keys == row.Keys
    ensures r.Ok? ==> forall k :: k in r.value ==> r.value[k] == PostValue(table, k, row, remap, env).value
  {
    PostRowKeys(table, row, SortedSet(row.Keys), remap, env)
  }

  /**
   * Whether a postprocessed row is written: always when it has an id; otherwise only when its
   * discriminator values (as strings) are not the non-id columns of an existing record. A
   * discriminator missing from the row raises `KeyError`.
   */
  function KeepRow(table: string, out: Row, env: Env): (r: Result<bool>)
    ensures r.Ok? <==> forall d :: d in Discriminators(env, table) ==> d in out
    ensures r.Ok? && "id" in out ==> r.value
    ensures r.Ok? && "id" !in out ==>
      (r.value <==> (map d | d in Discriminators(env, table) :: Text(Str(out[d]))) !in ExistingWithoutId(env, table))
  {
    var discs := Discriminators(env, table);
    if forall d :: d in discs ==> d in out then
      var values := map d | d in discs :: Text(Str(out[d]));
      Ok("id" in out || values !in ExistingWithoutId(env, table))
    else Err(KeyError)
  }

  /** `postprocess_one` over the rows of one stream: the written rows, in order. */
  function PostRows(table: string, rows: seq<CsvRow>, remap: Remapping, env: Env): (r: Result<seq<Row>>)
    ensures r.Ok? ==> |r.value| <= |rows|
  {
    if rows == [] then Ok([])
    else
      var prev :- PostRows(table, rows[..|rows| - 1], remap, env);
      var out :- PostRow(table, rows[|rows| - 1], remap, env);
      var keep :- KeepRow(table, out, env);
      Ok(if keep then prev + [out] else prev)
  }

  /** The first row that fails decides the error of the whole stream. */
  lemma {:induction false} PostRowsErrSticky(table: string, rows: seq<CsvRow>, remap: Remapping, env: Env, k: int, e: PyError)
    requires 0 <= k <= |rows| && PostRows(table, rows[..k], remap, env) == Err(e)
    ensures PostRows(table, rows, remap, env) == Err(e)
    decreases |rows| - k
  {
    if k == |rows| {
      assert rows[..k] == rows;
    } else {
      var longer := rows[..k + 1];
      assert longer[..|longer| - 1] == rows[..k];
      PostRowsPrefixErr(table, longer, remap, env);
      PostRowsErrSticky(table, rows, remap, env, k + 1, e);
    }
  }

  /** A stream whose rows before the last already fail fails with the same error. */
  lemma PostRowsPrefixErr(table: string, rows: seq<CsvRow>, remap: Remapping, env: Env)
    requires rows != [] && PostRows(table, rows[..|rows| - 1], remap, env).Err?
    ensures PostRows(table, rows, remap, env) == PostRows(table, rows[..|rows| - 1], remap, env)
  {
  }

  /**
   * Rows that carry an id are never dropped: postprocessing a stream of such rows writes one
   * row per input row, with the same keys.
   */
  lemma {:induction false} PostRowsKeepsRowsWithId(table: string, rows: seq<CsvRow>, remap: Remapping, env: Env)
    requires forall i :: 0 <= i < |rows| ==> "id" in rows[i]
    requires PostRows(table, rows, remap, env).Ok?
    ensures |PostRows(table, rows, remap, env).value| == |rows|
    ensures forall i :: 0 <= i < |rows| ==> PostRows(table, rows, remap, env).value[i].Keys == rows[i].Keys
  {
    if rows != [] {
      var prefix := rows[..|rows| - 1];
      PostRowsKeepsRowsWithId(table, prefix, remap, env);
      PostRowsLastKept(table, rows, remap, env);
      var prev := PostRows(table, prefix, remap, env).value;
      var r := PostRows(table, rows, remap, env).value;
      forall i | 0 <= i < |rows|
        ensures r[i].Keys == rows[i].Keys
      {
        if i < |rows| - 1 {
          assert r[i] == prev[i] && rows[i] == prefix[i];
        }
      }
    }
  }

  /** The last row of a stream, when it has an id, is written after the rows before it. */
  lemma PostRowsLastKept(table: string, rows: seq<CsvRow>, remap: Remapping, env: Env)
    requires rows != [] && "id" in rows[|rows| - 1]
    requires PostRows(table, rows, remap, env).Ok?
    ensures PostRows(table, rows[..|rows| - 1], remap, env).Ok?
    ensures PostRow(table, rows[|rows| - 1], remap, env).Ok?
    ensures var out := PostRow(table, rows[|rows| - 1], remap, env).value;
      && out.Keys == rows[|rows| - 1].Keys
      && PostRows(table, rows, remap, env).value == PostRows(table, rows[..|rows| - 1], remap, env).value + [out]
  {
    var out := PostRow(table, rows[|rows| - 1], remap, env).value;
    assert "id" in out;
  }
}
