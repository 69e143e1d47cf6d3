/**
 * `Mapping` of the `anygrate` package, the one the row processor uses: the compiled column mapping
 * of the enabled modules, the discriminator lists, and the per-table id counters used by
 * `__moved__` rows.
 *
 * The database queries of `set_database_ids` are inputs (one `MaxIdQuery` per table), and the
 * `exec`-compiled functions stay as their bodies (`UserFunction`).
 */
module AnygrateMapping {
  import opened Wrappers
  import opened Strings
  import opened MappingDocs

  /**
   * `new_id` after `set_database_ids` visited the target tables: it starts past both the target
   * maximum and the source maximum of the table.
   */
  function StartIds(start: map<string, int>, tables: seq<string>, query: string -> MaxIdQuery,
                    maxSource: map<string, int>): map<string, int>
  {
    if tables == [] then start
    else
      var last := tables[|tables| - 1];
      var earlier := StartIds(start, tables[..|tables| - 1], query, maxSource);
      if query(last).MaxId? then earlier[last := Recorded(query(last)) + GetId(maxSource, last)] else earlier
  }

  /**
   * The counter of a queried target table with an `id` column starts at the sum of its target
   * maximum and its source maximum (0 when the source table was not recorded); other counters are
   * unchanged.
   */
  lemma {:induction false} StartIdsFromMaxima(start: map<string, int>, tables: seq<string>, query: string -> MaxIdQuery,
                                              maxSource: map<string, int>, t: string)
    ensures t in StartIds(start, tables, query, maxSource) <==> t in start || (t in tables && query(t).MaxId?)
    ensures t in tables && query(t).MaxId? ==>
      StartIds(start, tables, query, maxSource)[t] == Recorded(query(t)) + GetId(maxSource, t)
    ensures !(t in tables && query(t).MaxId?) && t in start ==> StartIds(start, tables, query, maxSource)[t] == start[t]
    decreases |tables|
  {
    if tables != [] {
      var prefix := tables[..|tables| - 1];
      StartIdsFromMaxima(start, prefix, query, maxSource, t);
      assert forall x :: x in tables <==> x in prefix || x == tables[|tables| - 1];
    }
  }

  class Mapping {
    /** Source `table.column` -> target `table.column` -> compiled directive; a forgotten column maps to `{}`. */
    const mapping: map<string, map<string, Compiled>>
    /** Target table -> the columns whose `__defer__` directive postpones them to the update pass. */
    const deferred: map<string, set<string>>
    /** Target `table.column` -> the table its `__fk__` directive names. */
    const fk2update: map<string, string>
    const discriminators: map<string, seq<string>>
    var maxSourceId: map<string, int>
    var maxTargetId: map<string, int>
    /** The last id handed out per target table by `newid`. */
    var newId: map<string, int>
    var targetTables: seq<string>

    constructor (st: Compilation, meta: Metadata)
      ensures mapping == st.mapping && deferred == st.deferred && fk2update == st.fk2update
      ensures discriminators == meta.discriminators
      ensures maxSourceId == map[] && maxTargetId == map[] && newId == map[] && targetTables == []
    {
      mapping := st.mapping;
      deferred := st.deferred;
      fk2update := st.fk2update;
      discriminators := meta.discriminators;
      maxSourceId := map[];
      maxTargetId := map[];
      newId := map[];
      targetTables := [];
    }

    /**
     * `Mapping(modules, filenames, drop_fk)`: loads the documents (a later file replacing a module
     * of an earlier one), merges the enabled modules, compiles every directive (a non-string
     * directive other than null fails on `startswith` with `AttributeError` before the type check
     * is reached) and collects the discriminator lists of every dictionary module left in the
     * documents.
     */
    static method Create(modules: seq<string>, files: seq<Docs>, dropFk: bool) returns (r: Result<Mapping>)
      ensures MergeModules(UpdateAll(files), modules).Err? ==> r == Err(MergeModules(UpdateAll(files), modules).error)
      ensures MergeModules(UpdateAll(files), modules).Ok? ==>
        var (merged, docs) := MergeModules(UpdateAll(files), modules).value;
        && (r.Err? <==>
              (exists p :: p in AllPairs(merged) && Outcome(merged, p, dropFk, AttributeError).Err?)
              || (exists m :: m in docs && docs[m].NotAMapping?)
              || (exists p :: p in DocPairs(docs) && StepFails(docs, p, false)))
        && (r.Ok? ==>
              && CompiledPairs(merged, dropFk, AttributeError, AllPairs(merged),
                               Compilation(r.value.mapping, r.value.deferred, r.value.fk2update))
              && CollectedPairs(docs, false, DocPairs(docs),
                                Metadata(r.value.discriminators, map[])))
      ensures r.Ok? ==>
        (fresh(r.value)
         && r.value.newId == map[] && r.value.maxSourceId == map[] && r.value.maxTargetId == map[])
    {
      var full := LoadFiles(files);
      var merged := MergeEnabledModules(full, modules);
      if merged.Err? {
        return Err(merged.error);
      }
      var (columns, docs) := merged.value;
      var compiled := CompileMapping(columns, dropFk, AttributeError);
      if compiled.Err? {
        return Err(compiled.error);
      }
      var meta := CollectMetadata(docs, false);
      if meta.Err? {
        return Err(meta.error);
      }
      var m := new Mapping(compiled.value, meta.value);
      return Ok(m);
    }

    /**
     * `newid(target_table)`: the table's counter goes up by exactly one and is returned; a table
     * `set_database_ids` did not initialise raises `KeyError`. No other counter changes.
     */
    method NewId(table: string) returns (r: Result<int>)
      modifies this`newId
      ensures table in old(newId) <==> r.Ok?
      ensures r.Ok? ==> r.value == old(newId)[table] + 1 && newId == old(newId)[table := r.value]
      ensures r.Err? ==> r.error == KeyError && newId == old(newId)
    {
      if table !in newId {
        return Err(KeyError);
      }
      newId := newId[table := newId[table] + 1];
      return Ok(newId[table]);
    }

    /**
     * `get_target_column(source, column)`: an explicit `source.column` entry wins (a forgotten
     * column gives `{}`); otherwise a non-empty `source.*` gives its targets with `*` replaced by
     * the column, with no column filter; an empty `source.*`, or a global `.*` when there is no
     * `source.*`, gives a copy to `source.column`; otherwise `None`.
     */
    function GetTargetColumn(source: string, column: string): (r: Option<map<string, Compiled>>)
      ensures var tblCol := source + "." + column;
        var partial := source + ".*";
        && (tblCol in mapping ==> r == Some(mapping[tblCol]))
        && (tblCol !in mapping && partial in mapping && mapping[partial] != map[] ==>
              r.Some?
              && (forall k :: k in mapping[partial] ==> Replace(k, "*", column) in r.value)
              && (forall t :: t in r.value ==>
                    exists k :: k in mapping[partial] && Replace(k, "*", column) == t && r.value[t] == mapping[partial][k]))
        && (tblCol !in mapping && partial in mapping && mapping[partial] == map[] ==> r == Some(map[tblCol := NoneValue]))
        && (tblCol !in mapping && partial !in mapping && ".*" in mapping ==> r == Some(map[tblCol := NoneValue]))
        && (tblCol !in mapping && partial !in mapping && ".*" !in mapping ==> r == None)
    {
      var tblCol := source + "." + column;
      var partial := source + ".*";
      if tblCol in mapping then Some(mapping[tblCol])
      else if partial in mapping then
        if mapping[partial] != map[] then Some(ExpandWildcard(mapping[partial], column))
        else Some(map[tblCol := NoneValue])
      else if ".*" in mapping then Some(map[tblCol := NoneValue])
      else None
    }

    /**
     * `get_sources(target)`: the source tables with at least one target column in `target`,
     * sorted and each once.
     */
    function GetSources(target: string): (r: seq<string>)
      ensures StrictlySorted(r)
      ensures forall s :: s in r <==>
        exists i, o :: i in mapping && o in mapping[i] && TableOf(i) == s && TableOf(o) == target
    {
      var sources := set i, o | i in mapping && o in mapping[i] && TableOf(o) == target :: TableOf(i);
      SortedSetSorted(sources);
      SortedSet(sources)
    }

    /**
     * `get_target_table(source)`: the target tables the columns of `source` map into, each once
     * (in ascending order here; the source leaves the order to a set), also stored in
     * `target_tables`.
     */
    method GetTargetTable(source: string) returns (r: seq<string>)
      modifies this`targetTables
      ensures targetTables == r
      ensures StrictlySorted(r)
      ensures forall t :: t in r <==>
        exists i, o :: i in mapping && o in mapping[i] && TableOf(i) == source && TableOf(o) == t
    {
      var tables := set i, o | i in mapping && o in mapping[i] && TableOf(i) == source :: TableOf(o);
      SortedSetSorted(tables);
      r := SortedSet(tables);
      targetTables := r;
    }

    /**
     * The id bookkeeping of `set_database_ids`: every source table with an `id` column records its
     * maximum (0 for an empty table), then every target table with one records its maximum and
     * starts its counter at that maximum plus the source maximum of the same table.
     */
    method SetDatabaseIds(sources: seq<string>, sourceQuery: string -> MaxIdQuery,
                          targets: seq<string>, targetQuery: string -> MaxIdQuery)
      modifies this`maxSourceId, this`maxTargetId, this`newId
      ensures maxSourceId == RecordMaxIds(old(maxSourceId), sources, sourceQuery)
      ensures maxTargetId == RecordMaxIds(old(maxTargetId), targets, targetQuery)
      ensures newId == StartIds(old(newId), targets, targetQuery, maxSourceId)
    {
      for i := 0 to |sources|
        invariant maxSourceId == RecordMaxIds(old(maxSourceId), sources[..i], sourceQuery)
        invariant maxTargetId == old(maxTargetId) && newId == old(newId)
      {
        assert sources[..i + 1][..i] == sources[..i];
        var q := sourceQuery(sources[i]);
        if q.MaxId? {
          maxSourceId := maxSourceId[sources[i] := q.max.GetOr(0)];
        }
      }
      assert sources[..|sources|] == sources;
      for i := 0 to |targets|
        invariant maxSourceId == RecordMaxIds(old(maxSourceId), sources, sourceQuery)
        invariant maxTargetId == RecordMaxIds(old(maxTargetId), targets[..i], targetQuery)
        invariant newId == StartIds(old(newId), targets[..i], targetQuery, maxSourceId)
      {
        assert targets[..i + 1][..i] == targets[..i];
        var q := targetQuery(targets[i]);
        if q.MaxId? {
          var maxid := q.max.GetOr(0);
          maxTargetId := maxTargetId[targets[i] := maxid];
          newId := newId[targets[i] := maxid + GetId(maxSourceId, targets[i])];
        }
      }
      assert targets[..|targets|] == targets;
    }
  }

  /**
   * After `set_database_ids`, every id `newid` hands out for a target table with an `id` column
   * exceeds the table's target maximum and its source maximum, when both are non-negative: moved
   * rows never collide with existing target rows nor with offset source rows.
   */
  method FirstFreshId(m: Mapping, sources: seq<string>, sourceQuery: string -> MaxIdQuery,
                      targets: seq<string>, targetQuery: string -> MaxIdQuery, table: string)
    returns (r: Result<int>)
    requires table in targets && targetQuery(table).MaxId? && Recorded(targetQuery(table)) >= 0
    requires table in sources && sourceQuery(table).MaxId? && Recorded(sourceQuery(table)) >= 0
    modifies m
    ensures r.Ok? && r.value == Recorded(targetQuery(table)) + Recorded(sourceQuery(table)) + 1
    ensures table in m.maxTargetId && r.value > m.maxTargetId[table]
    ensures table in m.maxSourceId && r.value > m.maxSourceId[table]
  {
    m.SetDatabaseIds(sources, sourceQuery, targets, targetQuery);
    StartIdsFromMaxima(old(m.newId), targets, targetQuery, m.maxSourceId, table);
    MaxIdsRecorded(old(m.maxSourceId), sources, sourceQuery, table);
    MaxIdsRecorded(old(m.maxTargetId), targets, targetQuery, table);
    r := m.NewId(table);
  }
}
