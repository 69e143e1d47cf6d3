/**
 * `CSVProcessor`: turns the CSV export of the source database into the CSV files loaded into the
 * target. A first pass (`process_one`) rewrites every source row into target rows and routes each
 * into an insert or an update stream of its table, recording how source ids map to target ids; a
 * second pass (`postprocess_one`) rewrites the foreign keys of every written row with that
 * mapping.
 *
 * Files are in-memory values: a source file is its header and its rows, a stream the sequence of
 * rows written to it. Dictionaries and sets are visited in ascending order of their keys.
 */
module Processing {
  import opened Wrappers
  import opened Strings
  import opened MappingDocs
  import opened PyValues
  import opened AnygrateMapping
  import opened Reordering
  import opened Transform
  import opened Routing
  import opened Postprocess

  /** The targets met by `get_target_columns`: each file's header and `_`, looked up in turn. */
  function AllTargets(targets: TargetLookup, headers: seq<(string, seq<string>)>): seq<Job>
  {
    if headers == [] then []
    else
      var (source, header) := headers[|headers| - 1];
      AllTargets(targets, headers[..|headers| - 1]) + RowJobs(targets, source, header + ["_"])
  }

  lemma {:induction false} AllTargetsContains(targets: TargetLookup, headers: seq<(string, seq<string>)>, i: int, j: Job)
    requires 0 <= i < |headers| && j in RowJobs(targets, headers[i].0, headers[i].1 + ["_"])
    ensures j in AllTargets(targets, headers)
  {
    if i < |headers| - 1 {
      AllTargetsContains(targets, headers[..|headers| - 1], i, j);
    }
  }

  /** One more source file's targets: collected after those of the files before it. */
  lemma AllTargetsStep(targets: TargetLookup, headers: seq<(string, seq<string>)>, i: int)
    requires 0 <= i < |headers| && TargetSets(map[], AllTargets(targets, headers[..i])).Ok?
    ensures var jobs := RowJobs(targets, headers[i].0, headers[i].1 + ["_"]);
      TargetSets(map[], AllTargets(targets, headers[..i + 1]))
        == TargetSets(TargetSets(map[], AllTargets(targets, headers[..i])).value, jobs)
  {
    var jobs := RowJobs(targets, headers[i].0, headers[i].1 + ["_"]);
    assert headers[..i + 1][..i] == headers[..i];
    assert AllTargets(targets, headers[..i + 1]) == AllTargets(targets, headers[..i]) + jobs;
    TargetSetsConcat(map[], AllTargets(targets, headers[..i]), jobs);
  }

  /** A malformed target in one source file's header fails the collection over all files. */
  lemma AllTargetsFail(targets: TargetLookup, headers: seq<(string, seq<string>)>, i: int)
    requires 0 <= i < |headers| && TargetSets(map[], AllTargets(targets, headers[..i])).Ok?
    requires TargetSets(TargetSets(map[], AllTargets(targets, headers[..i])).value,
                        RowJobs(targets, headers[i].0, headers[i].1 + ["_"])).Err?
    ensures TargetColumnsOf(map[], targets, headers).Err?
  {
    var jobs := RowJobs(targets, headers[i].0, headers[i].1 + ["_"]);
    var j :| j in jobs && !WellFormedTarget(j.target);
    AllTargetsContains(targets, headers, i, j);
  }

  /**
   * `self.target_columns.setdefault(t, set()).add(c)` for every target `t.c` of `jobs`; a target
   * that is not `table.column` raises `ValueError`.
   */
  function TargetSets(sets: map<string, set<string>>, jobs: seq<Job>): (r: Result<map<string, set<string>>>)
    ensures r.Ok? <==> forall j :: j in jobs ==> WellFormedTarget(j.target)
    ensures r.Err? ==> r.error == ValueError
  {
    if jobs == [] then Ok(sets)
    else
      var last := jobs[|jobs| - 1];
      assert forall j :: j in jobs <==> j in jobs[..|jobs| - 1] || j == last;
      var prev :- TargetSets(sets, jobs[..|jobs| - 1]);
      var parts := SplitOn(last.target, '.');
      if |parts| != 2 then Err(ValueError)
      else Ok(prev[parts[0] := (if parts[0] in prev then prev[parts[0]] else {}) + {parts[1]}])
  }

  lemma TargetSetsStep(sets: map<string, set<string>>, jobs: seq<Job>)
    requires jobs != [] && TargetSets(sets, jobs).Ok?
    ensures TargetSets(sets, jobs[..|jobs| - 1]).Ok?
    ensures var p := TargetSets(sets, jobs[..|jobs| - 1]).value;
      var parts := SplitOn(jobs[|jobs| - 1].target, '.');
      && parts == [parts[0], parts[1]]
      && TargetSets(sets, jobs).value == p[parts[0] := (if parts[0] in p then p[parts[0]] else {}) + {parts[1]}]
  {
    var parts := SplitOn(jobs[|jobs| - 1].target, '.');
    assert parts == [parts[0], parts[1]];
  }

  /** One more target: its column is added to its table's set. */
  lemma TargetSetsSnoc(sets: map<string, set<string>>, done: seq<Job>, j: Job)
    requires TargetSets(sets, done).Ok?
    ensures var p := TargetSets(sets, done).value;
      var parts := SplitOn(j.target, '.');
      TargetSets(sets, done + [j])
        == if |parts| != 2 then Err(ValueError)
           else Ok(p[parts[0] := (if parts[0] in p then p[parts[0]] else {}) + {parts[1]}])
  {
    assert (done + [j])[..|done|] == done;
  }

  /** The targets of two stretches of jobs are collected one stretch after the other. */
  lemma {:induction false} TargetSetsConcat(sets: map<string, set<string>>, a: seq<Job>, b: seq<Job>)
    requires TargetSets(sets, a).Ok?
    ensures TargetSets(sets, a + b) == TargetSets(TargetSets(sets, a).value, b)
  {
    if b != [] {
      var b' := b[..|b| - 1];
      assert (a + b)[..|a + b| - 1] == a + b';
      assert (a + b)[|a + b| - 1] == b[|b| - 1];
      TargetSetsConcat(sets, a, b');
    } else {
      assert a + b == a;
    }
  }

  /** The tables met are exactly the keys of the result. */
  lemma {:induction false} TargetSetsTables(sets: map<string, set<string>>, jobs: seq<Job>)
    requires TargetSets(sets, jobs).Ok?
    ensures var r := TargetSets(sets, jobs).value;
      forall t :: t in r <==> t in sets || exists j :: j in jobs && SplitOn(j.target, '.')[0] == t
  {
    if jobs != [] {
      var prefix := jobs[..|jobs| - 1];
      var last := jobs[|jobs| - 1];
      TargetSetsTables(sets, prefix);
      var p := TargetSets(sets, prefix).value;
      var r := TargetSets(sets, jobs).value;
      var parts := SplitOn(last.target, '.');
      TargetSetsStep(sets, jobs);
      forall t
        ensures t in r <==> t in sets || exists j :: j in jobs && SplitOn(j.target, '.')[0] == t
      {
        if exists j :: j in jobs && SplitOn(j.target, '.')[0] == t {
          var j :| j in jobs && SplitOn(j.target, '.')[0] == t;
          if j != last {
            assert j in prefix;
          }
        }
        if exists j :: j in prefix && SplitOn(j.target, '.')[0] == t {
          var j :| j in prefix && SplitOn(j.target, '.')[0] == t;
          assert j in jobs;
        }
      }
    }
  }

  /** Each table's set holds exactly the columns met in that table. */
  lemma {:induction false} TargetSetsColumns(sets: map<string, set<string>>, jobs: seq<Job>)
    requires TargetSets(sets, jobs).Ok?
    ensures var r := TargetSets(sets, jobs).value;
      forall t, c :: t in r && c in r[t] <==> (t in sets && c in sets[t]) || exists j :: j in jobs && SplitOn(j.target, '.') == [t, c]
  {
    if jobs != [] {
      var prefix := jobs[..|jobs| - 1];
      var last := jobs[|jobs| - 1];
      TargetSetsColumns(sets, prefix);
      var p := TargetSets(sets, prefix).value;
      var r := TargetSets(sets, jobs).value;
      var parts := SplitOn(last.target, '.');
      TargetSetsStep(sets, jobs);
      forall t, c
        ensures t in r && c in r[t] <==> (t in sets && c in sets[t]) || exists j :: j in jobs && SplitOn(j.target, '.') == [t, c]
      {
        TargetMetSnoc(jobs, t, c);
      }
    }
  }

  lemma TargetMetSnoc(jobs: seq<Job>, t: string, c: string)
    requires jobs != []
    ensures (exists j :: j in jobs && SplitOn(j.target, '.') == [t, c])
      <==> (exists j :: j in jobs[..|jobs| - 1] && SplitOn(j.target, '.') == [t, c])
           || SplitOn(jobs[|jobs| - 1].target, '.') == [t, c]
  {
    var prefix := jobs[..|jobs| - 1];
    if exists j :: j in jobs && SplitOn(j.target, '.') == [t, c] {
      var j :| j in jobs && SplitOn(j.target, '.') == [t, c];
      if j != jobs[|jobs| - 1] {
        assert j in prefix;
      }
    }
    if exists j :: j in prefix && SplitOn(j.target, '.') == [t, c] {
      var j :| j in prefix && SplitOn(j.target, '.') == [t, c];
      assert j in jobs;
    }
  }

  /**
   * The loop of `get_target_columns` over the targets of one source file: each `table.column`
   * target is added to the set of its table, in order; the first malformed target raises.
   */
  method CollectTargets(sets: map<string, set<string>>, jobs: seq<Job>) returns (r: Result<map<string, set<string>>>)
    ensures r == TargetSets(sets, jobs)
  {
    var acc := sets;
    for k := 0 to |jobs|
      invariant TargetSets(sets, jobs[..k]) == Ok(acc)
    {
      var parts := SplitOn(jobs[k].target, '.');
      assert jobs[..k + 1] == jobs[..k] + [jobs[k]];
      TargetSetsSnoc(sets, jobs[..k], jobs[k]);
      if |parts| != 2 {
        TargetSetsErrSticky(sets, jobs, k + 1);
        return Err(ValueError);
      }
      acc := acc[parts[0] := (if parts[0] in acc then acc[parts[0]] else {}) + {parts[1]}];
    }
    assert jobs[..|jobs|] == jobs;
    return Ok(acc);
  }

  /** A malformed target fails the whole collection, with `ValueError`. */
  lemma TargetSetsErrSticky(sets: map<string, set<string>>, jobs: seq<Job>, k: int)
    requires 0 <= k <= |jobs| && TargetSets(sets, jobs[..k]).Err?
    ensures TargetSets(sets, jobs) == Err(ValueError)
  {
    var j :| j in jobs[..k] && !WellFormedTarget(j.target);
    assert j in jobs;
  }

  /** `{k: sorted([c for c in v if c != '_']) for k, v in self.target_columns.items()}` */
  function ColumnsOf(sets: map<string, set<string>>): (r: map<string, seq<string>>)
    ensures r.Keys == sets.Keys
    ensures forall t :: t in r ==> StrictlySorted(r[t]) && "_" !in r[t]
    ensures forall t, c :: t in r ==> (c in r[t] <==> c in sets[t] && c != "_")
  {
    forall t | t in sets {
      SortedSetSorted(sets[t] - {"_"});
    }
    map t | t in sets :: SortedSet(sets[t] - {"_"})
  }

  /** A CSV file of the source export: its header and its rows. */
  datatype SourceFile = SourceFile(header: seq<string>, rows: seq<Row>)

  /** What the first pass changes, across the processor and its mapping's `new_id` counters. */
  datatype ProcState = ProcState(
    fkMapping: map<string, map<int, int>>,
    refMapping: map<string, string>,
    isMoved: set<string>,
    newId: map<string, int>,
    inserts: map<string, seq<Row>>,
    updates: map<string, seq<Row>>,
    lines: nat)

  /** What the first pass reads: the target lookup, the routing tables and the user functions. */
  datatype Context = Context(targets: TargetLookup, env: Env, fn: UserFn)

  /** One source row of `process_one`: the column loop, then the routing of every target row. */
  function RowStep(ps: ProcState, ctx: Context, sourceTable: string, sourceRow: Row): Result<ProcState>
  {
    var tr :- TransformOf(ps, ctx, sourceTable, sourceRow);
    RoutedOf(ps, tr, RouteOf(ps, ctx, sourceTable, sourceRow, tr))
  }

  /** The column loop over the jobs of a source row, from the bookkeeping of `ps`. */
  function TransformOf(ps: ProcState, ctx: Context, sourceTable: string, sourceRow: Row): Result<TransformState>
  {
    FoldJobs(TransformState(map[], ps.isMoved, ps.fkMapping, ps.refMapping, ps.newId), sourceTable,
             WithPlaceholder(sourceRow), Jobs(ctx.targets, sourceTable, sourceRow), ctx.env.maxTargetId, ctx.fn)
  }

  /** The routing of the target rows `tr` built from a source row, table by table. */
  function RouteOf(ps: ProcState, ctx: Context, sourceTable: string, sourceRow: Row, tr: TransformState): Result<RouteState>
  {
    RouteAll(RouteState(tr.fkMapping, ps.inserts, ps.updates), ctx.env, tr.isMoved, sourceTable,
             WithPlaceholder(sourceRow), tr.rows, SortedSet(tr.rows.Keys))
  }

  /** The state after a source row, once its routing `rt` is known; the row is counted. */
  function RoutedOf(ps: ProcState, tr: TransformState, rt: Result<RouteState>): Result<ProcState>
  {
    var st :- rt;
    Ok(ProcState(st.fkMapping, tr.refMapping, tr.isMoved, tr.newId, st.inserts, st.updates, ps.lines + 1))
  }

  /** Once the column loop has built `tr`, the row's step is the routing of `tr`. */
  lemma RowStepStages(ps: ProcState, ctx: Context, sourceTable: string, sourceRow: Row, tr: TransformState)
    requires TransformOf(ps, ctx, sourceTable, sourceRow) == Ok(tr)
    ensures RowStep(ps, ctx, sourceTable, sourceRow) == RoutedOf(ps, tr, RouteOf(ps, ctx, sourceTable, sourceRow, tr))
  {
  }

  /** `process_one` over the rows of one source file. */
  function ProcessRows(ps: ProcState, ctx: Context, sourceTable: string, rows: seq<Row>): Result<ProcState>
  {
    if rows == [] then Ok(ps)
    else
      var prev :- ProcessRows(ps, ctx, sourceTable, rows[..|rows| - 1]);
      RowStep(prev, ctx, sourceTable, rows[|rows| - 1])
  }

  /** Every source row read is counted in `lines`. */
  lemma {:induction false} ProcessRowsCountsLines(ps: ProcState, ctx: Context, sourceTable: string, rows: seq<Row>)
    requires ProcessRows(ps, ctx, sourceTable, rows).Ok?
    ensures ProcessRows(ps, ctx, sourceTable, rows).value.lines == ps.lines + |rows|
  {
    if rows != [] {
      ProcessRowsCountsLines(ps, ctx, sourceTable, rows[..|rows| - 1]);
    }
  }

  /** The streams stay clean over a whole source file (see `Routing.RouteKeepsStreamsClean`). */
  lemma {:induction false} ProcessRowsKeepsStreamsClean(ps: ProcState, ctx: Context, sourceTable: string, rows: seq<Row>)
    requires CleanInserts(ps.inserts) && CleanUpdates(ps.updates)
    requires ProcessRows(ps, ctx, sourceTable, rows).Ok?
    ensures var ps' := ProcessRows(ps, ctx, sourceTable, rows).value;
      CleanInserts(ps'.inserts) && CleanUpdates(ps'.updates)
  {
    if rows != [] {
      ProcessRowsKeepsStreamsClean(ps, ctx, sourceTable, rows[..|rows| - 1]);
      var prev := ProcessRows(ps, ctx, sourceTable, rows[..|rows| - 1]).value;
      var sourceRow := rows[|rows| - 1];
      var src := WithPlaceholder(sourceRow);
      var tr := FoldJobs(TransformState(map[], prev.isMoved, prev.fkMapping, prev.refMapping, prev.newId), sourceTable, src,
                         Jobs(ctx.targets, sourceTable, sourceRow), ctx.env.maxTargetId, ctx.fn).value;
      RouteAllKeepsStreamsClean(RouteState(tr.fkMapping, prev.inserts, prev.updates), ctx.env, tr.isMoved, sourceTable, src,
                                tr.rows, SortedSet(tr.rows.Keys));
    }
  }

  /** Once a source row has failed, the pass over the whole file fails. */
  lemma {:induction false} ProcessRowsErrSticky(ps: ProcState, ctx: Context, sourceTable: string, rows: seq<Row>, k: int)
    requires 0 <= k <= |rows|
    requires ProcessRows(ps, ctx, sourceTable, rows[..k]).Err?
    ensures ProcessRows(ps, ctx, sourceTable, rows).Err?
    decreases |rows| - k
  {
    if k == |rows| {
      assert rows[..k] == rows;
    } else {
      assert rows[..k + 1][..k] == rows[..k];
      ProcessRowsErrSticky(ps, ctx, sourceTable, rows, k + 1);
    }
  }

  /** The first pass over the source files in processing order. */
  function ProcessTables(ps: ProcState, ctx: Context, files: map<string, SourceFile>, tables: seq<string>): Result<ProcState>
    requires forall t :: t in tables ==> t in files
  {
    if tables == [] then Ok(ps)
    else
      var prev :- ProcessTables(ps, ctx, files, tables[..|tables| - 1]);
      ProcessRows(prev, ctx, tables[|tables| - 1], files[tables[|tables| - 1]].rows)
  }

  /** The second pass over the streams of the tables `tables`, each read back through its CSV file. */
  function PostprocessStreams(streams: map<string, seq<Row>>, columns: map<string, seq<string>>, tables: seq<string>,
                              remap: Remapping, env: Env): Result<map<string, seq<Row>>>
    requires forall t :: t in tables ==> t in columns
  {
    if tables == [] then Ok(map[])
    else
      var t := tables[|tables| - 1];
      var prev :- PostprocessStreams(streams, columns, tables[..|tables| - 1], remap, env);
      var rows :- PostRows(t, ReadBack(GetRows(streams, t), columns[t]), remap, env);
      Ok(prev[t := GetRows(prev, t) + rows])
  }

  /** Once a source file has failed, the first pass fails. */
  lemma {:induction false} ProcessTablesErrSticky(ps: ProcState, ctx: Context, files: map<string, SourceFile>,
                                                  tables: seq<string>, k: int)
    requires forall t :: t in tables ==> t in files
    requires 0 <= k <= |tables| && ProcessTables(ps, ctx, files, tables[..k]).Err?
    ensures ProcessTables(ps, ctx, files, tables).Err?
    decreases |tables| - k
  {
    if k == |tables| {
      assert tables[..k] == tables;
    } else {
      assert tables[..k + 1][..k] == tables[..k];
      ProcessTablesErrSticky(ps, ctx, files, tables, k + 1);
    }
  }

  /** The first stream that fails decides the error of the second pass. */
  lemma {:induction false} PostprocessStreamsErrSticky(streams: map<string, seq<Row>>, columns: map<string, seq<string>>,
                                                       tables: seq<string>, remap: Remapping, env: Env, k: int, e: PyError)
    requires forall t :: t in tables ==> t in columns
    requires 0 <= k <= |tables| && PostprocessStreams(streams, columns, tables[..k], remap, env) == Err(e)
    ensures PostprocessStreams(streams, columns, tables, remap, env) == Err(e)
    decreases |tables| - k
  {
    if k == |tables| {
      assert tables[..k] == tables;
    } else {
      assert tables[..k + 1][..k] == tables[..k];
      PostprocessStreamsErrSticky(streams, columns, tables, remap, env, k + 1, e);
    }
  }

  /** One more stream: its rows are postprocessed and appended to the second pass's stream of its table. */
  lemma PostprocessStreamsSnoc(streams: map<string, seq<Row>>, columns: map<string, seq<string>>, tables: seq<string>,
                               remap: Remapping, env: Env, i: int)
    requires forall t :: t in tables ==> t in columns
    requires 0 <= i < |tables|
    ensures tables[i] in columns
    ensures PostprocessStreams(streams, columns, tables[..i + 1], remap, env)
      == match PostprocessStreams(streams, columns, tables[..i], remap, env)
         case Err(e) => Err(e)
         case Ok(prev) =>
           match PostRows(tables[i], ReadBack(GetRows(streams, tables[i]), columns[tables[i]]), remap, env)
           case Err(e) => Err(e)
           case Ok(rows) => Ok(prev[tables[i] := GetRows(prev, tables[i]) + rows])
  {
    assert tables[..i + 1][..i] == tables[..i];
  }

  /** The headers of the source files, in the order of the source tables. */
  function Headers(files: map<string, SourceFile>, tables: seq<string>): (r: seq<(string, seq<string>)>)
    requires forall t :: t in tables ==> t in files
    ensures |r| == |tables|
    ensures forall i :: 0 <= i < |tables| ==> r[i] == (tables[i], files[tables[i]].header)
  {
    seq(|tables|, i requires 0 <= i < |tables| => (tables[i], files[tables[i]].header))
  }

  /**
   * `process`, once the target columns are known: the first pass over the source files in
   * processing order, then the second pass over the insert streams and over the update streams
   * of every target table, in ascending order of the tables.
   */
  function Run(ps: ProcState, ctx: Context, columns: map<string, seq<string>>, files: map<string, SourceFile>,
               tables: seq<string>): Result<(ProcState, map<string, seq<Row>>, map<string, seq<Row>>)>
    requires forall t :: t in tables ==> t in files
  {
    var done :- ProcessTables(ps, ctx, files, tables);
    SecondPass(done, columns, ctx.env)
  }

  /** The second pass from the state `done` the first pass left: the insert streams, then the update streams. */
  function SecondPass(done: ProcState, columns: map<string, seq<string>>, env: Env)
    : Result<(ProcState, map<string, seq<Row>>, map<string, seq<Row>>)>
  {
    var remap := Remapping(done.fkMapping, done.refMapping);
    var inserts2 :- PostprocessStreams(done.inserts, columns, SortedSet(columns.Keys), remap, env);
    var updates2 :- PostprocessStreams(done.updates, columns, SortedSet(columns.Keys), remap, env);
    Ok((done, inserts2, updates2))
  }

  /** `get_target_columns`: the cached columns when there are any, else those of the headers. */
  function TargetColumnsOf(cached: map<string, seq<string>>, targets: TargetLookup, headers: seq<(string, seq<string>)>)
    : Result<map<string, seq<string>>>
  {
    if cached != map[] then Ok(cached)
    else
      var sets :- TargetSets(map[], AllTargets(targets, headers));
      Ok(ColumnsOf(sets))
  }

  /**
   * `process(source_dir, source_filenames, ...)` from the cached target columns `cached`: the
   * target columns, then `Run` over the source tables in the order of
   * `reorder_with_discriminators`. The result is the target columns, the state after the first
   * pass, and the second pass's insert and update streams.
   */
  function Migrate(cached: map<string, seq<string>>, ps: ProcState, ctx: Context, files: map<string, SourceFile>,
                   sourceTables: seq<string>)
    : Result<(map<string, seq<string>>, ProcState, map<string, seq<Row>>, map<string, seq<Row>>)>
    requires forall t :: t in sourceTables ==> t in files
  {
    var columns :- TargetColumnsOf(cached, ctx.targets, Headers(files, sourceTables));
    var ordered := Reorder(sourceTables, ctx.env.discriminators, ctx.env.fk2update);
    ReorderKeepsTables(sourceTables, ctx.env.discriminators, ctx.env.fk2update);
    var (done, inserts2, updates2) :- Run(ps, ctx, columns, files, ordered);
    Ok((columns, done, inserts2, updates2))
  }

  /** Once the target columns are known, `Migrate` is `Run` over the reordered tables. */
  lemma MigrateAfterColumns(cached: map<string, seq<string>>, ps: ProcState, ctx: Context, files: map<string, SourceFile>,
                            sourceTables: seq<string>, columns: map<string, seq<string>>)
    requires forall t :: t in sourceTables ==> t in files
    requires TargetColumnsOf(cached, ctx.targets, Headers(files, sourceTables)) == Ok(columns)
    ensures var ordered := Reorder(sourceTables, ctx.env.discriminators, ctx.env.fk2update);
      && (forall t :: t in ordered ==> t in files)
      && Migrate(cached, ps, ctx, files, sourceTables)
         == match Run(ps, ctx, columns, files, ordered)
            case Err(e) => Err(e)
            case Ok(v) => Ok((columns, v.0, v.1, v.2))
  {
    ReorderKeepsTables(sourceTables, ctx.env.discriminators, ctx.env.fk2update);
  }

  /** The rows of a stream as `csv.DictReader` reads back what `csv.DictWriter` wrote. */
  function ReadBack(rows: seq<Row>, columns: seq<string>): (r: seq<CsvRow>)
    ensures |r| == |rows|
    ensures forall i :: 0 <= i < |r| ==> r[i] == RoundTrip(rows[i], columns)
  {
    seq(|rows|, i requires 0 <= i < |rows| => RoundTrip(rows[i], columns))
  }

  class CSVProcessor {
    const mapping: Mapping
    /** `get_targets`: the mapping's `get_target_column`, bound once. */
    const targets: TargetLookup
    /** Target `table.column` -> the table its foreign key points to. */
    const fk2update: map<string, string>
    /** The `exec`-compiled mapping functions, applied to their body. */
    const userFn: UserFn
    /** Target table -> its columns, sorted; the header of every stream of the table. */
    var targetColumns: map<string, seq<string>>
    var fkMapping: map<string, map<int, int>>
    var refMapping: map<string, string>
    var lines: nat
    var isMoved: set<string>
    var existingRecords: map<string, seq<Existing>>
    var existingWithoutId: map<string, seq<Row>>
    /** The first pass's streams: `<table>.target.csv` and `<table>.update.csv`. */
    var inserts: map<string, seq<Row>>
    var updates: map<string, seq<Row>>
    /** The second pass's streams: `<table>.target2.csv` and `<table>.update2.csv`. */
    var inserts2: map<string, seq<Row>>
    var updates2: map<string, seq<Row>>

    /** The existing records are kept without their ids as well. */
    ghost predicate ExistingCached()
      reads this`existingRecords, this`existingWithoutId
    {
      existingWithoutId == (map t | t in existingRecords :: WithoutIds(existingRecords[t]))
    }

    /** The existing records are seen without ids as well, and the streams are clean. */
    ghost predicate Valid()
      reads this`existingRecords, this`existingWithoutId, this`inserts, this`updates
    {
      ExistingCached() && CleanInserts(inserts) && CleanUpdates(updates)
    }

    constructor (mapping: Mapping, fk2update: map<string, string>, userFn: UserFn)
      ensures Valid()
      ensures this.mapping == mapping && this.fk2update == fk2update && this.userFn == userFn
      ensures forall source, column :: targets(source, column) == mapping.GetTargetColumn(source, column)
      ensures targetColumns == map[] && fkMapping == map[] && refMapping == map[] && lines == 0
      ensures isMoved == {} && existingRecords == map[] && existingWithoutId == map[]
      ensures inserts == map[] && updates == map[] && inserts2 == map[] && updates2 == map[]
    {
      this.mapping := mapping;
      this.targets := (source, column) => mapping.GetTargetColumn(source, column);
      this.fk2update := fk2update;
      this.userFn := userFn;
      targetColumns := map[];
      fkMapping := map[];
      refMapping := map[];
      lines := 0;
      isMoved := {};
      existingRecords := map[];
      existingWithoutId := map[];
      inserts := map[];
      updates := map[];
      inserts2 := map[];
      updates2 := map[];
    }

    /** What routing and postprocessing read. */
    function RoutingEnv(): Env
      reads this`existingRecords, mapping`maxTargetId
    {
      Env(mapping.discriminators, fk2update, mapping.deferred, mapping.maxTargetId, existingRecords)
    }

    function Ctx(): Context
      reads this`existingRecords, mapping`maxTargetId
    {
      Context(targets, RoutingEnv(), userFn)
    }

    function State(): ProcState
      reads this`fkMapping, this`refMapping, this`isMoved, mapping`newId, this`inserts, this`updates, this`lines
    {
      ProcState(fkMapping, refMapping, isMoved, mapping.newId, inserts, updates, lines)
    }

    /**
     * `get_target_columns(filepaths)`: the sorted target columns of every target table met
     * through the headers (plus `_`) of the source files, without `_`. A computed result is
     * cached and returned again unchanged.
     */
    method GetTargetColumns(headers: seq<(string, seq<string>)>) returns (r: Result<map<string, seq<string>>>)
      modifies this`targetColumns
      ensures var expected := TargetColumnsOf(old(targetColumns), targets, headers);
        && (r.Ok? <==> expected.Ok?)
        && (r.Ok? ==> r.value == expected.value && targetColumns == r.value)
    {
      if targetColumns != map[] {
        return Ok(targetColumns);
      }
      var sets: map<string, set<string>> := map[];
      for i := 0 to |headers|
        invariant TargetSets(map[], AllTargets(targets, headers[..i])) == Ok(sets)
      {
        var jobs := RowJobs(targets, headers[i].0, headers[i].1 + ["_"]);
        var next := CollectTargets(sets, jobs);
        if next.Err? {
          AllTargetsFail(targets, headers, i);
          return Err(ValueError);
        }
        AllTargetsStep(targets, headers, i);
        sets := next.value;
      }
      assert headers[..|headers|] == headers;
      assert TargetColumnsOf(map[], targets, headers) == Ok(ColumnsOf(sets));
      targetColumns := ColumnsOf(sets);
      return Ok(targetColumns);
    }

    /** `set_existing_data(existing_records)`: the records, and the same records without their ids. */
    method SetExistingData(existing: map<string, seq<Existing>>)
      requires Valid()
      modifies this`existingRecords, this`existingWithoutId
      ensures Valid()
      ensures existingRecords == existing
      ensures forall t :: t in existingWithoutId <==> t in existing
      ensures forall t :: t in existing ==> existingWithoutId[t] == WithoutIds(existing[t])
    {
      existingRecords := existing;
      existingWithoutId := map t | t in existing :: WithoutIds(existing[t]);
    }

    /**
     * `reorder_with_discriminators(tables)`, with the discriminator tables taken among `tables`
     * and a pointed-to table without discriminators of its own kept (see `Reordering.Reorder`).
     * A table's discriminator columns decide its side at the first column, after which the table
     * is placed and its other columns are skipped.
     */
    method ReorderWithDiscriminators(tables: seq<string>) returns (r: seq<string>)
      ensures r == Reorder(tables, mapping.discriminators, fk2update)
    {
      var moved := MovedTables(tables, mapping.discriminators, fk2update);
      var rest := Without(tables, moved);
      var ordered: seq<string> := [];
      var appended: seq<string> := [];
      var dts := SortedSet(moved);
      for i := 0 to |dts|
        invariant (ordered, appended) == Arrange(dts[..i], mapping.discriminators, fk2update, true)
      {
        assert dts[..i + 1][..i] == dts[..i];
        var t := dts[i];
        var columns := GetColumns(mapping.discriminators, t);
        if t == IrProperty {
          appended := appended + [t];
        } else if columns == [] || t + "." + columns[0] !in fk2update {
          ordered := [t] + ordered;
        } else {
          ordered := ordered + [t];
        }
      }
      assert dts[..|dts|] == dts;
      return ordered + (rest + appended);
    }

    /**
     * The loop over the discriminator values fixing those that are foreign keys, against the
     * current `fk_mapping`, in whatever order the dictionary yields them (every value either
     * fails with `ValueError` or is fixed independently of the others).
     */
    method FixDiscriminatorValues(table: string, values: Row) returns (r: Result<Row>)
      ensures r == FixDiscriminators(table, values, fk2update, fkMapping)
    {
      var fixed := values;
      var remaining := values.Keys;
      while remaining != {}
        invariant remaining <= values.Keys && fixed.Keys == values.Keys
        invariant forall k :: k in values && k !in remaining ==> FixOne(table, values, fk2update, fkMapping, k).Ok?
        invariant forall k :: k in fixed ==>
          fixed[k] == if k in remaining then values[k] else FixOne(table, values, fk2update, fkMapping, k).value
        decreases |remaining|
      {
        var k :| k in remaining;
        var v := FixOne(table, values, fk2update, fkMapping, k);
        if v.Err? {
          return Err(ValueError);
        }
        fixed := fixed[k := v.value];
        remaining := remaining - {k};
      }
      assert fixed == map k | k in values :: FixOne(table, values, fk2update, fkMapping, k).value;
      return Ok(fixed);
    }

    /** The search for the first existing record whose non-id columns are `fixed`: its id. */
    method FindExisting(table: string, fixed: Row) returns (id: int)
      requires fixed in ExistingWithoutId(RoutingEnv(), table)
      ensures id == ExistingId(RoutingEnv(), table, fixed)
    {
      var records := GetRows(existingRecords, table);
      ghost var target := FirstMatch(records, fixed);
      var i := 0;
      while WithoutId(records[i]) != fixed
        invariant 0 <= i <= target
        decreases target - i
      {
        i := i + 1;
      }
      return records[i].id;
    }

    /**
     * One `(target_record, function)` item of the column loop of `process_one`, on the target
     * rows `rows` built so far (see `Transform.JobStep`). A `__moved__` item takes its id from
     * `mapping.newid`.
     */
    method ApplyJob(sourceTable: string, src: Row, job: Job, rows: map<string, Row>) returns (r: Result<map<string, Row>>)
      modifies this`fkMapping, this`refMapping, this`isMoved, mapping`newId
      ensures var expected := JobStep(TransformState(rows, old(isMoved), old(fkMapping), old(refMapping), old(mapping.newId)),
                                      sourceTable, src, job, mapping.maxTargetId, userFn);
        && (r.Ok? <==> expected.Ok?)
        && (r.Ok? ==> TransformState(r.value, isMoved, fkMapping, refMapping, mapping.newId) == expected.value)
    {
      var parts := SplitOn(job.target, '.');
      if |parts| != 2 {
        return Err(ValueError);
      }
      var t, c := parts[0], parts[1];
      var targetRows := if t in rows then rows else rows[t := map[]];
      if c == "_" {
        return Ok(targetRows);
      }
      match job.directive {
        case CopyValue =>
          return Ok(targetRows[t := targetRows[t][c := SourceValue(src, job.column)]]);
        case NoneValue =>
          return Ok(targetRows[t := targetRows[t][c := SourceValue(src, job.column)]]);
        case Reference(_, column) =>
          refMapping := refMapping[job.target := column];
          return Ok(targetRows[t := targetRows[t][c := SourceValue(src, job.column)]]);
        case MovedRow =>
          r := ApplyMovedRow(sourceTable, SourceValue(src, job.column), t, c, targetRows);
        case UserFunction(body) =>
          var result := userFn(body, src, targetRows);
          var row := targetRows[t];
          if result == Text(ForgetRowSentinel) {
            row := row[ForgetRowSentinel := Flag(true)];
          }
          return Ok(targetRows[t := row[c := result]]);
      }
    }

    /** The `__moved__` branch of `ApplyJob`: the row of `t` gets the next id, and the move is recorded. */
    method ApplyMovedRow(sourceTable: string, value: Value, t: string, c: string, targetRows: map<string, Row>)
      returns (r: Result<map<string, Row>>)
      requires t in targetRows
      modifies this`fkMapping, this`isMoved, mapping`newId
      ensures var expected := MovedStep(TransformState(targetRows, old(isMoved), old(fkMapping), refMapping, old(mapping.newId)),
                                        targetRows, t, c, sourceTable, value, mapping.maxTargetId);
        && (r.Ok? <==> expected.Ok?)
        && (r.Ok? ==> TransformState(r.value, isMoved, fkMapping, refMapping, mapping.newId) == expected.value)
    {
      ghost var st := TransformState(targetRows, isMoved, fkMapping, refMapping, mapping.newId);
      isMoved := isMoved + {sourceTable};
      var id := mapping.NewId(t);
      if id.Err? {
        return Err(id.error);
      }
      var rows := targetRows[t := targetRows[t][c := Number(id.value)]];
      fkMapping := fkMapping[sourceTable := GetIds(fkMapping, sourceTable)];
      if t !in mapping.maxTargetId {
        return Err(KeyError);
      }
      var source := PyInt(value);
      if source.Err? {
        return Err(source.error);
      }
      fkMapping := fkMapping[sourceTable := fkMapping[sourceTable][source.value := id.value + mapping.maxTargetId[t]]];
      assert fkMapping == st.fkMapping[sourceTable := GetIds(st.fkMapping, sourceTable)[source.value := id.value + mapping.maxTargetId[t]]];
      return Ok(rows);
    }

    /**
     * The column loop of `process_one` for one source row: the target rows it builds, and the
     * bookkeeping it records, are those of `Transform.FoldJobs` over the row's jobs.
     */
    method TransformRow(sourceTable: string, sourceRow: Row) returns (r: Result<map<string, Row>>)
      modifies this`fkMapping, this`refMapping, this`isMoved, mapping`newId
      ensures var expected := TransformOf(old(State()), Ctx(), sourceTable, sourceRow);
        && (r.Ok? <==> expected.Ok?)
        && (r.Ok? ==> TransformState(r.value, isMoved, fkMapping, refMapping, mapping.newId) == expected.value)
    {
      var src := WithPlaceholder(sourceRow);
      var jobs := Jobs(targets, sourceTable, sourceRow);
      ghost var start := TransformState(map[], isMoved, fkMapping, refMapping, mapping.newId);
      var rows: map<string, Row> := map[];
      for i := 0 to |jobs|
        invariant FoldJobs(start, sourceTable, src, jobs[..i], mapping.maxTargetId, userFn)
          == Ok(TransformState(rows, isMoved, fkMapping, refMapping, mapping.newId))
      {
        FoldJobsSnoc(start, sourceTable, src, jobs, i, mapping.maxTargetId, userFn);
        var next := ApplyJob(sourceTable, src, jobs[i], rows);
        if next.Err? {
          FoldJobsErrSticky(start, sourceTable, src, jobs, i + 1, mapping.maxTargetId, userFn);
          return Err(next.error);
        }
        rows := next.value;
      }
      assert jobs[..|jobs|] == jobs;
      return Ok(rows);
    }
  
    /**
     * The matched branch of the routing of a target row (see `Routing.UpdateExisting`): the
     * row's source id is mapped to the existing record's id, a `__moved__` source id is pointed
     * there too, and the row goes to the update stream.
     */
    method UpdateExistingRow(sourceTable: string, sourceRow: Row, table: string, row: Row, fixed: Row)
      returns (r: Result<()>)
      requires "id" in row && fixed in ExistingWithoutId(RoutingEnv(), table)
      modifies this`fkMapping, this`updates
      ensures var expected := UpdateExisting(RouteState(old(fkMapping), inserts, old(updates)), RoutingEnv(), isMoved,
                                             sourceTable, sourceRow, table, row, fixed);
        && (r.Ok? <==> expected.Ok?)
        && (r.Ok? ==> RouteState(fkMapping, inserts, updates) == expected.value)
    {
      var existingId := FindExisting(table, fixed);
      var id :- PyInt(row["id"]);
      fkMapping := fkMapping[table := GetIds(fkMapping, table)[id := existingId]];
      var written := row;
      if sourceTable in isMoved {
        if "id" !in sourceRow {
          return Err(KeyError);
        }
        var sourceId :- PyInt(sourceRow["id"]);
        if sourceTable !in fkMapping {
          return Err(KeyError);
        }
        if sourceId in fkMapping[sourceTable] {
          written := row["id" := Number(existingId)];
          fkMapping := fkMapping[sourceTable := fkMapping[sourceTable][sourceId := existingId]];
        }
      }
      updates := Append(updates, table, written);
      return Ok(());
    }

    /**
     * The unmatched branch (see `Routing.InsertNew`): the id is offset by the table's maximum
     * target id, the deferred columns go to the update stream, and the row to the insert stream
     * unless it is an incomplete many2many link.
     */
    method InsertNewRow(table: string, row: Row) returns (r: Result<()>)
      modifies this`inserts, this`updates
      ensures var expected := InsertNew(RouteState(fkMapping, old(inserts), old(updates)), RoutingEnv(), table, row);
        && (r.Ok? <==> expected.Ok?)
        && (r.Ok? ==> RouteState(fkMapping, inserts, updates) == expected.value)
    {
      ghost var st := RouteState(fkMapping, inserts, updates);
      ghost var env := RoutingEnv();
      var written := row;
      if "id" in row {
        var id :- PyInt(row["id"]);
        if table !in mapping.maxTargetId {
          return Err(KeyError);
        }
        written := row["id" := Number(id + mapping.maxTargetId[table])];
        if table in mapping.deferred {
          var upd := DeferredUpdate(written, mapping.deferred[table]);
          if |upd| > 1 {
            updates := Append(updates, table, upd);
          }
          written := WithoutDeferred(written, mapping.deferred[table]);
        }
        assert InsertNew(st, env, table, row) == Ok(WriteInsert(st.(updates := updates), table, written));
      } else {
        assert InsertNew(st, env, table, row) == Ok(WriteInsert(st, table, written));
      }
      if !IncompleteM2M(written) {
        inserts := Append(inserts, table, written);
      }
      return Ok(());
    }

    /**
     * The routing of one target row of `process_one`: the skips, the discriminator values and
     * their foreign-key fix, the match against the existing records, and the two branches. The
     * new remapping and streams are those of `Routing.Route`, and the streams stay clean.
     */
    method RouteTargetRow(sourceTable: string, sourceRow: Row, table: string, row: Row) returns (r: Result<()>)
      requires ExistingCached()
      modifies this`fkMapping, this`inserts, this`updates
      ensures var expected := Route(RouteState(old(fkMapping), old(inserts), old(updates)), RoutingEnv(), isMoved,
                                    sourceTable, sourceRow, table, row);
        && (r.Ok? <==> expected.Ok?)
        && (r.Ok? ==> RouteState(fkMapping, inserts, updates) == expected.value)
    {
      ghost var st := RouteState(fkMapping, inserts, updates);
      var env := RoutingEnv();
      if ForgetRowSentinel in row || !AnyTruthy(row) {
        return Ok(());
      }
      var discs := Discriminators(env, table);
      var values := DiscriminatorValues(row, discs);
      if values.Err? {
        assert Route(st, env, isMoved, sourceTable, sourceRow, table, row).Err?;
        return Err(values.error);
      }
      var fixed := FixDiscriminatorValues(table, values.value);
      if fixed.Err? {
        assert Route(st, env, isMoved, sourceTable, sourceRow, table, row).Err?;
        return Err(fixed.error);
      }
      assert Route(st, env, isMoved, sourceTable, sourceRow, table, row)
        == if Matched(discs, row, fixed.value, ExistingWithoutId(env, table))
           then UpdateExisting(st, env, isMoved, sourceTable, sourceRow, table, row, fixed.value)
           else InsertNew(st, env, table, row);
      r := RouteFixed(sourceTable, sourceRow, table, row, discs, fixed.value);
    }

    /** The two branches of the routing of a target row whose discriminator values are `fixed`. */
    method RouteFixed(sourceTable: string, sourceRow: Row, table: string, row: Row, discs: seq<string>, fixed: Row)
      returns (r: Result<()>)
      requires ExistingCached()
      modifies this`fkMapping, this`inserts, this`updates
      ensures var st := RouteState(old(fkMapping), old(inserts), old(updates));
        var expected := if Matched(discs, row, fixed, ExistingWithoutId(RoutingEnv(), table))
                        then UpdateExisting(st, RoutingEnv(), isMoved, sourceTable, sourceRow, table, row, fixed)
                        else InsertNew(st, RoutingEnv(), table, row);
        && (r.Ok? <==> expected.Ok?)
        && (r.Ok? ==> RouteState(fkMapping, inserts, updates) == expected.value)
    {
      var withoutIds := if table in existingWithoutId then existingWithoutId[table] else [];
      assert withoutIds == ExistingWithoutId(RoutingEnv(), table);
      if discs != [] && "id" in row && AllTruthy(fixed) && fixed in withoutIds {
        r := UpdateExistingRow(sourceTable, sourceRow, table, row, fixed);
      } else {
        r := InsertNewRow(table, row);
      }
    }
  
    /**
     * The routing loop over the target rows built from one source row, table by table in
     * ascending order: the result is `Routing.RouteAll`'s.
     */
    method RouteTargetRows(sourceTable: string, src: Row, targetRows: map<string, Row>) returns (r: Result<()>)
      requires ExistingCached()
      modifies this`fkMapping, this`inserts, this`updates
      ensures var expected := RouteAll(RouteState(old(fkMapping), old(inserts), old(updates)), RoutingEnv(), isMoved,
                                       sourceTable, src, targetRows, SortedSet(targetRows.Keys));
        && (r.Ok? <==> expected.Ok?)
        && (r.Ok? ==> RouteState(fkMapping, inserts, updates) == expected.value)
    {
      var tables := SortedSet(targetRows.Keys);
      ghost var st := RouteState(fkMapping, inserts, updates);
      ghost var env := RoutingEnv();
      for i := 0 to |tables|
        invariant RouteAll(st, env, isMoved, sourceTable, src, targetRows, tables[..i])
          == Ok(RouteState(fkMapping, inserts, updates))
      {
        var routed := RouteNext(sourceTable, src, targetRows, tables, i, st, env);
        if routed.Err? {
          RouteAllErrSticky(st, env, isMoved, sourceTable, src, targetRows, tables, i + 1);
          return Err(routed.error);
        }
      }
      assert tables[..|tables|] == tables;
      return Ok(());
    }

    /** One turn of the routing loop: the target row of `tables[i]`. */
    method RouteNext(sourceTable: string, src: Row, targetRows: map<string, Row>, tables: seq<string>, i: int,
                     ghost st: RouteState, ghost env: Env) returns (r: Result<()>)
      requires ExistingCached() && env == RoutingEnv()
      requires (forall t :: t in tables ==> t in targetRows) && 0 <= i < |tables|
      requires RouteAll(st, env, isMoved, sourceTable, src, targetRows, tables[..i])
        == Ok(RouteState(fkMapping, inserts, updates))
      modifies this`fkMapping, this`inserts, this`updates
      ensures r.Ok? ==>
        RouteAll(st, env, isMoved, sourceTable, src, targetRows, tables[..i + 1]) == Ok(RouteState(fkMapping, inserts, updates))
      ensures r.Err? ==> RouteAll(st, env, isMoved, sourceTable, src, targetRows, tables[..i + 1]).Err?
    {
      RouteAllSnoc(st, env, isMoved, sourceTable, src, targetRows, tables, i);
      r := RouteTargetRow(sourceTable, src, tables[i], targetRows[tables[i]]);
    }

    /** One source row of `process_one`: it is counted, transformed, and its target rows routed. */
    method ProcessRow(sourceTable: string, sourceRow: Row) returns (r: Result<()>)
      requires ExistingCached()
      modifies this`lines, this`fkMapping, this`refMapping, this`isMoved, mapping`newId, this`inserts, this`updates
      ensures var expected := RowStep(old(State()), Ctx(), sourceTable, sourceRow);
        && (r.Ok? <==> expected.Ok?)
        && (r.Ok? ==> State() == expected.value)
    {
      ghost var before := State();
      ghost var ctx := Ctx();
      var targetRows := TransformRow(sourceTable, sourceRow);
      if targetRows.Err? {
        return Err(targetRows.error);
      }
      ghost var tr := TransformState(targetRows.value, isMoved, fkMapping, refMapping, mapping.newId);
      RowStepStages(before, ctx, sourceTable, sourceRow, tr);
      r := RouteBuiltRows(sourceTable, sourceRow, targetRows.value, before, tr);
    }

    /**
     * The second half of a source row: the routing of the target rows `tr` its column loop built.
     * `process_one` counts the row before its column loop; nothing reads `lines` in between, so it
     * is counted here.
     */
    method RouteBuiltRows(sourceTable: string, sourceRow: Row, targetRows: map<string, Row>,
                          ghost before: ProcState, ghost tr: TransformState)
      returns (r: Result<()>)
      requires ExistingCached()
      requires inserts == before.inserts && updates == before.updates && lines == before.lines
      requires tr == TransformState(targetRows, isMoved, fkMapping, refMapping, mapping.newId)
      modifies this`lines, this`fkMapping, this`inserts, this`updates
      ensures var expected := RoutedOf(before, tr, RouteOf(before, Ctx(), sourceTable, sourceRow, tr));
        && (r.Ok? <==> expected.Ok?)
        && (r.Ok? ==> State() == expected.value)
    {
      lines := lines + 1;
      r := RouteTargetRows(sourceTable, WithPlaceholder(sourceRow), targetRows);
    }

    /** `process_one` over the rows of one source file: the result is `ProcessRows`'. */
    method ProcessOne(sourceTable: string, rows: seq<Row>) returns (r: Result<()>)
      requires Valid()
      modifies this`lines, this`fkMapping, this`refMapping, this`isMoved, mapping`newId, this`inserts, this`updates
      ensures var expected := ProcessRows(old(State()), Ctx(), sourceTable, rows);
        && (r.Ok? <==> expected.Ok?)
        && (r.Ok? ==> State() == expected.value && Valid())
    {
      ghost var start := State();
      for i := 0 to |rows|
        invariant ExistingCached()
        invariant ProcessRows(start, Ctx(), sourceTable, rows[..i]) == Ok(State())
      {
        assert rows[..i + 1][..i] == rows[..i];
        var done := ProcessRow(sourceTable, rows[i]);
        if done.Err? {
          ProcessRowsErrSticky(start, Ctx(), sourceTable, rows, i + 1);
          return Err(done.error);
        }
      }
      assert rows[..|rows|] == rows;
      ProcessRowsKeepsStreamsClean(start, Ctx(), sourceTable, rows);
      return Ok(());
    }

    /**
     * The first pass of `process`: `process_one` over the source file of every table of
     * `tables`, in order.
     */
    method FirstPass(files: map<string, SourceFile>, tables: seq<string>) returns (r: Result<()>)
      requires Valid()
      requires forall t :: t in tables ==> t in files
      modifies this`lines, this`fkMapping, this`refMapping, this`isMoved, mapping`newId, this`inserts, this`updates
      ensures var expected := ProcessTables(old(State()), Ctx(), files, tables);
        && (r.Ok? <==> expected.Ok?)
        && (r.Ok? ==> State() == expected.value && Valid())
    {
      ghost var start := State();
      for i := 0 to |tables|
        invariant Valid()
        invariant ProcessTables(start, Ctx(), files, tables[..i]) == Ok(State())
      {
        assert tables[..i + 1][..i] == tables[..i];
        var done := ProcessOne(tables[i], files[tables[i]].rows);
        if done.Err? {
          ProcessTablesErrSticky(start, Ctx(), files, tables, i + 1);
          return Err(done.error);
        }
      }
      assert tables[..|tables|] == tables;
      return Ok(());
    }

    /** One key of that loop: the row built so far gets the postprocessed value of `keys[i]`. */
    method PostprocessKey(table: string, row: CsvRow, keys: seq<string>, i: int, out: Row, remap: Remapping, env: Env)
      returns (r: Result<Row>)
      requires (forall x :: x in keys ==> x in row) && 0 <= i < |keys|
      requires PostRowKeys(table, row, keys[..i], remap, env) == Ok(out)
      ensures r == PostRowKeys(table, row, keys[..i + 1], remap, env)
    {
      assert keys[..i + 1][..i] == keys[..i];
      var v := PostValue(table, keys[i], row, remap, env);
      if v.Err? {
        return Err(v.error);
      }
      return Ok(out[keys[i] := v.value]);
    }

    /**
     * The key loop of `postprocess_one` for one row read back from a stream: the three fixes of
     * every value, keys in ascending order, and the first error raised.
     */
    method PostprocessRow(table: string, row: CsvRow) returns (r: Result<Row>)
      ensures r == PostRow(table, row, Remapping(fkMapping, refMapping), RoutingEnv())
    {
      var remap, env := Remapping(fkMapping, refMapping), RoutingEnv();
      var keys := SortedSet(row.Keys);
      var out: Row := map[];
      for i := 0 to |keys|
        invariant PostRowKeys(table, row, keys[..i], remap, env) == Ok(out)
      {
        var next := PostprocessKey(table, row, keys, i, out, remap, env);
        if next.Err? {
          PostRowKeysErrSticky(table, row, keys, remap, env, i + 1, next.error);
          return Err(next.error);
        }
        out := next.value;
      }
      assert keys[..|keys|] == keys;
      return Ok(out);
    }

    /**
     * `postprocess_one` over the rows read back from one stream of `table`: the rows it writes,
     * in order. A row without an id whose discriminator values already exist is not written.
     */
    method PostprocessOne(table: string, rows: seq<CsvRow>) returns (r: Result<seq<Row>>)
      ensures r == PostRows(table, rows, Remapping(fkMapping, refMapping), RoutingEnv())
    {
      var written: seq<Row> := [];
      for i := 0 to |rows|
        invariant PostRows(table, rows[..i], Remapping(fkMapping, refMapping), RoutingEnv()) == Ok(written)
      {
        assert rows[..i + 1][..i] == rows[..i];
        var out := PostprocessRow(table, rows[i]);
        var keep := if out.Ok? then KeepRow(table, out.value, RoutingEnv()) else Err(out.error);
        if keep.Err? {
          PostRowsErrSticky(table, rows, Remapping(fkMapping, refMapping), RoutingEnv(), i + 1, keep.error);
          return Err(keep.error);
        }
        if keep.value {
          written := written + [out.value];
        }
      }
      assert rows[..|rows|] == rows;
      return Ok(written);
    }

    /**
     * The second pass of `process` over one kind of stream: every target table's stream read
     * back through its CSV header and postprocessed into a fresh stream of the same table.
     */
    method PostprocessAll(streams: map<string, seq<Row>>) returns (r: Result<map<string, seq<Row>>>)
      ensures r == PostprocessStreams(streams, targetColumns, SortedSet(targetColumns.Keys),
                                      Remapping(fkMapping, refMapping), RoutingEnv())
    {
      var columns := targetColumns;
      var tables := SortedSet(columns.Keys);
      var remap := Remapping(fkMapping, refMapping);
      ghost var env := RoutingEnv();
      var out: map<string, seq<Row>> := map[];
      for i := 0 to |tables|
        invariant PostprocessStreams(streams, columns, tables[..i], remap, env) == Ok(out)
      {
        PostprocessStreamsSnoc(streams, columns, tables, remap, env, i);
        var t := tables[i];
        var rows := PostprocessOne(t, ReadBack(GetRows(streams, t), columns[t]));
        if rows.Err? {
          PostprocessStreamsErrSticky(streams, columns, tables, remap, env, i + 1, rows.error);
          return Err(rows.error);
        }
        out := out[t := GetRows(out, t) + rows.value];
      }
      assert tables[..|tables|] == tables;
      return Ok(out);
    }

    /** Both passes of `process` over the source tables `tables`, once the target columns are known. */
    method RunPasses(files: map<string, SourceFile>, tables: seq<string>) returns (r: Result<()>)
      requires Valid()
      requires forall t :: t in tables ==> t in files
      modifies this`lines, this`fkMapping, this`refMapping, this`isMoved, mapping`newId
      modifies this`inserts, this`updates, this`inserts2, this`updates2
      ensures var expected := Run(old(State()), Ctx(), targetColumns, files, tables);
        && (r.Ok? <==> expected.Ok?)
        && (r.Ok? ==> expected.value == (State(), inserts2, updates2))
      ensures r.Ok? ==> Valid()
    {
      var first := FirstPass(files, tables);
      if first.Err? {
        return Err(first.error);
      }
      r := PostprocessPasses();
    }

    /** The second pass over the insert streams into `inserts2`, then over the update streams into `updates2`. */
    method PostprocessPasses() returns (r: Result<()>)
      modifies this`inserts2, this`updates2
      ensures var expected := SecondPass(State(), targetColumns, RoutingEnv());
        && (r.Ok? <==> expected.Ok?)
        && (r.Ok? ==> expected.value == (State(), inserts2, updates2))
    {
      var ins := PostprocessAll(inserts);
      if ins.Err? {
        return Err(ins.error);
      }
      var upd := PostprocessAll(updates);
      if upd.Err? {
        return Err(upd.error);
      }
      inserts2 := ins.value;
      updates2 := upd.value;
      return Ok(());
    }

    /**
     * `process(source_dir, source_filenames, ...)`: the target columns of every target table, the
     * first pass over the source files in the order of `reorder_with_discriminators`, then the
     * second pass over the insert streams into `inserts2` and over the update streams into
     * `updates2`.
     */
    method Process(files: map<string, SourceFile>, sourceTables: seq<string>) returns (r: Result<()>)
      requires Valid()
      requires forall t :: t in sourceTables ==> t in files
      modifies this`targetColumns, this`lines, this`fkMapping, this`refMapping, this`isMoved, mapping`newId
      modifies this`inserts, this`updates, this`inserts2, this`updates2
      ensures var expected := Migrate(old(targetColumns), old(State()), Ctx(), files, sourceTables);
        && (r.Ok? <==> expected.Ok?)
        && (r.Ok? ==> expected.value == (targetColumns, State(), inserts2, updates2))
      ensures r.Ok? ==> Valid()
    {
      ghost var cached := targetColumns;
      ghost var start := State();
      var columns := GetTargetColumns(Headers(files, sourceTables));
      if columns.Err? {
        return Err(columns.error);
      }
      r := ProcessOrdered(files, sourceTables, cached, start);
    }

    /** `process` once the target columns are computed from the cached columns `cached`. */
    method ProcessOrdered(files: map<string, SourceFile>, sourceTables: seq<string>, ghost cached: map<string, seq<string>>,
                          ghost start: ProcState)
      returns (r: Result<()>)
      requires Valid() && State() == start
      requires forall t :: t in sourceTables ==> t in files
      requires TargetColumnsOf(cached, targets, Headers(files, sourceTables)) == Ok(targetColumns)
      modifies this`lines, this`fkMapping, this`refMapping, this`isMoved, mapping`newId
      modifies this`inserts, this`updates, this`inserts2, this`updates2
      ensures var expected := Migrate(cached, start, Ctx(), files, sourceTables);
        && (r.Ok? <==> expected.Ok?)
        && (r.Ok? ==> expected.value == (targetColumns, State(), inserts2, updates2))
      ensures r.Ok? ==> Valid()
    {
      ghost var ctx := Ctx();
      MigrateAfterColumns(cached, start, ctx, files, sourceTables, targetColumns);
      var ordered := ReorderWithDiscriminators(sourceTables);
      r := RunPasses(files, ordered);
      assert Ctx() == ctx;
    }
  }
}
