/**
 * The column loop of `process_one`: every column of a source row (with the synthetic `_` column
 * holding `None`) is looked up in the mapping, and each of its targets `table.column` writes one
 * value into the target row of `table` according to the compiled directive.
 *
 * The lookups do not depend on the rows, so the loop is the sequence of its `Job`s, visited here
 * in ascending order of source column and then of target; the state it threads is a
 * `TransformState`.
 */
module Transform {
  import opened Wrappers
  import opened Strings
  import opened MappingDocs
  import opened PyValues

  /** One `(target_record, function)` item met while visiting the source column `column`. */
  datatype Job = Job(column: string, target: string, directive: Compiled)

  /** A user mapping function: its body, the source row and the target rows built so far. */
  type UserFn = (string, Row, map<string, Row>) -> Value

  /** What the column loop changes: the target rows and the processor's bookkeeping. */
  datatype TransformState = TransformState(
    rows: map<string, Row>,                   // target table -> target row
    isMoved: set<string>,                     // source tables with a `__moved__` column
    fkMapping: map<string, map<int, int>>,    // table -> original id -> id in the target
    refMapping: map<string, string>,          // target `table.column` -> column naming the table
    newId: map<string, int>)                  // the mapping's `new_id` counters

  /** The source row as the loop sees it: `source_row.update({'_': None})`. */
  function WithPlaceholder(sourceRow: Row): Row
  {
    sourceRow["_" := Null]
  }

  /** `get_target_column(source_table, column)`. */
  type TargetLookup = (string, string) -> Option<map<string, Compiled>>

  /** The targets of one source column, in ascending order of target. */
  function ColumnJobs(column: string, targets: Option<map<string, Compiled>>): (r: seq<Job>)
    ensures forall j :: j in r ==>
      j.column == column && targets.Some? && j.target in targets.value && j.directive == targets.value[j.target]
    ensures targets.Some? ==> forall t :: t in targets.value ==> exists j :: j in r && j.target == t
  {
    match targets
    case None => []
    case Some(m) =>
      var keys := SortedSet(m.Keys);
      var r := seq(|keys|, i requires 0 <= i < |keys| => Job(column, keys[i], m[keys[i]]));
      assert forall t :: t in m ==> t in keys;
      assert forall j :: j in r ==> exists i :: 0 <= i < |keys| && j == r[i];
      assert forall i :: 0 <= i < |keys| ==> r[i] in r && r[i].target == keys[i];
      r
  }

  /** The jobs of the columns `columns` of the source table `source`, column after column. */
  function RowJobs(targets: TargetLookup, source: string, columns: seq<string>): (r: seq<Job>)
    ensures forall j :: j in r ==> j.column in columns
  {
    if columns == [] then []
    else
      var column := columns[|columns| - 1];
      RowJobs(targets, source, columns[..|columns| - 1]) + ColumnJobs(column, targets(source, column))
  }

  /** The jobs of one source row of the source table `source`. */
  function Jobs(targets: TargetLookup, source: string, sourceRow: Row): (r: seq<Job>)
    ensures forall j :: j in r ==> j.column in WithPlaceholder(sourceRow)
  {
    RowJobs(targets, source, SortedSet(WithPlaceholder(sourceRow).Keys))
  }

  /**
   * `source_row[source_column]`. Every job of a row names one of the row's columns (see `Jobs`),
   * so the `None` default is never read.
   */
  function SourceValue(sourceRow: Row, column: string): Value
  {
    if column in sourceRow then sourceRow[column] else Null
  }

  /** `target_table, target_column = target_record.split('.')` */
  predicate WellFormedTarget(target: string)
  {
    |SplitOn(target, '.')| == 2
  }

  /** The job writes a value (its target column is not the placeholder `_`). */
  predicate Writes(job: Job)
  {
    WellFormedTarget(job.target) && SplitOn(job.target, '.')[1] != "_"
  }

  /**
   * One item of the column loop. Its target must split into `table.column`; the table's row is
   * created if missing; a `_` target column writes nothing. A copy (`__copy__` or `None`) or a
   * `__ref__` copies the source value, a `__ref__` also records the column naming the referenced
   * table; `__moved__` takes a fresh id from the table's counter, writes it and records
   * `fk_mapping[source_table][int(source value)] = newid + max_target_id[table]`; a user function
   * writes its result, and marks the row `__forget_row__` when it returns that sentinel.
   */
  function JobStep(st: TransformState, sourceTable: string, sourceRow: Row, job: Job,
                   maxTargetId: map<string, int>, fn: UserFn): Result<TransformState>
  {
    if !WellFormedTarget(job.target) then Err(ValueError)
    else
      var parts := SplitOn(job.target, '.');
      JobStepAt(st, parts[0], parts[1], sourceTable, sourceRow, job, maxTargetId, fn)
  }

  /** `JobStep` once the target has been split into table `t` and column `c`. */
  function JobStepAt(st: TransformState, t: string, c: string, sourceTable: string, sourceRow: Row, job: Job,
                     maxTargetId: map<string, int>, fn: UserFn): Result<TransformState>
  {
    var rows := if t in st.rows then st.rows else st.rows[t := map[]];
    if c == "_" then Ok(st.(rows := rows))
    else
      match job.directive
      case CopyValue => Ok(st.(rows := rows[t := rows[t][c := SourceValue(sourceRow, job.column)]]))
      case NoneValue => Ok(st.(rows := rows[t := rows[t][c := SourceValue(sourceRow, job.column)]]))
      case Reference(_, column) =>
        Ok(st.(rows := rows[t := rows[t][c := SourceValue(sourceRow, job.column)]],
               refMapping := st.refMapping[job.target := column]))
      case MovedRow => MovedStep(st, rows, t, c, sourceTable, SourceValue(sourceRow, job.column), maxTargetId)
      case UserFunction(body) =>
        Ok(st.(rows := rows[t := WithResult(rows[t], c, fn(body, sourceRow, rows))]))
  }

  /**
   * A target row after a user function returned `result` for column `c`: the result written, and
   * the row marked `__forget_row__` when the result is that sentinel.
   */
  function WithResult(row: Row, c: string, result: Value): (r: Row)
    ensures r.Keys >= row.Keys && c in r && r[c] == result
    ensures result == Text(ForgetRowSentinel) ==> ForgetRowSentinel in r
  {
    var marked := if result == Text(ForgetRowSentinel) then row[ForgetRowSentinel := Flag(true)] else row;
    marked[c := result]
  }

  /**
   * A `__moved__` column of table `t`, with the target rows `rows` already holding `t`: the next id
   * of `t`, and the source row's id recorded as moved to it. The right-hand side of the
   * `fk_mapping` assignment (`newid + max_target_id[t]`) is evaluated before its subscript
   * (`int(source_row[...])`), so a missing maximum raises `KeyError` before a bad source id raises.
   */
  function MovedStep(st: TransformState, rows: map<string, Row>, t: string, c: string, sourceTable: string,
                     value: Value, maxTargetId: map<string, int>): Result<TransformState>
    requires t in rows
  {
    if t !in st.newId then Err(KeyError)
    else
      var id := st.newId[t] + 1;
      if t !in maxTargetId then Err(KeyError)
      else
        var source :- PyInt(value);
        Ok(TransformState(
          rows[t := rows[t][c := Number(id)]],
          st.isMoved + {sourceTable},
          st.fkMapping[sourceTable := GetIds(st.fkMapping, sourceTable)[source := id + maxTargetId[t]]],
          st.refMapping,
          st.newId[t := id]))
  }

  /** A table without a maximum target id raises `KeyError`, whatever the source id. */
  lemma MovedStepMissingMaximum(st: TransformState, rows: map<string, Row>, t: string, c: string, sourceTable: string,
                                value: Value, maxTargetId: map<string, int>)
    requires t in rows && t in st.newId && t !in maxTargetId
    ensures MovedStep(st, rows, t, c, sourceTable, value, maxTargetId) == Err(KeyError)
  {
  }

  /** One item of the column loop raises `ValueError` on a malformed target, and keeps every target row. */
  lemma JobStepTable(st: TransformState, sourceTable: string, sourceRow: Row, job: Job,
                     maxTargetId: map<string, int>, fn: UserFn)
    ensures var r := JobStep(st, sourceTable, sourceRow, job, maxTargetId, fn);
      && (!WellFormedTarget(job.target) ==> r == Err(ValueError))
      && (r.Ok? ==> SplitOn(job.target, '.')[0] in r.value.rows && forall t :: t in st.rows ==> t in r.value.rows)
  {
    if WellFormedTarget(job.target) {
      var parts := SplitOn(job.target, '.');
      JobStepAtTables(st, parts[0], parts[1], sourceTable, sourceRow, job, maxTargetId, fn);
    }
  }

  lemma JobStepAtTables(st: TransformState, u: string, c: string, sourceTable: string, sourceRow: Row, job: Job,
                        maxTargetId: map<string, int>, fn: UserFn)
    ensures var r := JobStepAt(st, u, c, sourceTable, sourceRow, job, maxTargetId, fn);
      r.Ok? ==> u in r.value.rows && forall t :: t in st.rows ==> t in r.value.rows
  {
    var rows := if u in st.rows then st.rows else st.rows[u := map[]];
    assert u in rows && forall t :: t in st.rows ==> t in rows;
    var r := JobStepAt(st, u, c, sourceTable, sourceRow, job, maxTargetId, fn);
    if c != "_" && r.Ok? {
      match job.directive
      case MovedRow =>
        MovedStepKeepsTables(st, rows, u, c, sourceTable, SourceValue(sourceRow, job.column), maxTargetId);
      case UserFunction(body) =>
        var row := WithResult(rows[u], c, fn(body, sourceRow, rows));
        assert r.value.rows == rows[u := row];
      case _ =>
        assert r.value.rows == rows[u := rows[u][c := SourceValue(sourceRow, job.column)]];
    }
  }

  lemma MovedStepKeepsTables(st: TransformState, rows: map<string, Row>, u: string, c: string, sourceTable: string,
                             value: Value, maxTargetId: map<string, int>)
    requires u in rows
    ensures var r := MovedStep(st, rows, u, c, sourceTable, value, maxTargetId);
      r.Ok? ==> r.value.rows == rows[u := rows[u][c := Number(st.newId[u] + 1)]]
  {
  }

  /** A copy or a `__ref__` writes the source value into its target column. */
  lemma JobStepCopies(st: TransformState, sourceTable: string, sourceRow: Row, job: Job,
                      maxTargetId: map<string, int>, fn: UserFn)
    requires Writes(job) && (job.directive.CopyValue? || job.directive.NoneValue? || job.directive.Reference?)
    ensures var r := JobStep(st, sourceTable, sourceRow, job, maxTargetId, fn);
      var parts := SplitOn(job.target, '.');
      && r.Ok?
      && parts[0] in r.value.rows && parts[1] in r.value.rows[parts[0]]
      && r.value.rows[parts[0]][parts[1]] == SourceValue(sourceRow, job.column)
  {
    var parts := SplitOn(job.target, '.');
    assert parts == [parts[0], parts[1]];
  }

  /**
   * A `__moved__` item raises exactly when its table has no counter or maximum target id, or the
   * source value is not an integer; otherwise it takes the next id of its table's counter, writes
   * it, marks the source table moved and maps the source value to that id offset by the maximum.
   */
  lemma JobStepMoved(st: TransformState, sourceTable: string, sourceRow: Row, job: Job,
                     maxTargetId: map<string, int>, fn: UserFn)
    requires Writes(job) && job.directive.MovedRow?
    ensures var r := JobStep(st, sourceTable, sourceRow, job, maxTargetId, fn);
      var t := SplitOn(job.target, '.')[0];
      var source := PyInt(SourceValue(sourceRow, job.column));
      && (r.Ok? <==> t in st.newId && source.Ok? && t in maxTargetId)
      && (r.Ok? ==>
            && r.value.newId == st.newId[t := st.newId[t] + 1]
            && SplitOn(job.target, '.')[1] in r.value.rows[t]
            && r.value.rows[t][SplitOn(job.target, '.')[1]] == Number(st.newId[t] + 1)
            && sourceTable in r.value.isMoved
            && sourceTable in r.value.fkMapping
            && source.value in r.value.fkMapping[sourceTable]
            && r.value.fkMapping[sourceTable][source.value] == st.newId[t] + 1 + maxTargetId[t])
  {
    var parts := SplitOn(job.target, '.');
    assert parts == [parts[0], parts[1]];
  }

  /** Any other item leaves the counters, the id remapping and the moved tables alone. */
  lemma JobStepKeepsCounters(st: TransformState, sourceTable: string, sourceRow: Row, job: Job,
                             maxTargetId: map<string, int>, fn: UserFn)
    requires !(Writes(job) && job.directive.MovedRow?)
    ensures var r := JobStep(st, sourceTable, sourceRow, job, maxTargetId, fn);
      r.Ok? ==> r.value.newId == st.newId && r.value.fkMapping == st.fkMapping && r.value.isMoved == st.isMoved
  {
    if WellFormedTarget(job.target) {
      var parts := SplitOn(job.target, '.');
      JobStepAtKeepsCounters(st, parts[0], parts[1], sourceTable, sourceRow, job, maxTargetId, fn);
    }
  }

  lemma JobStepAtKeepsCounters(st: TransformState, u: string, c: string, sourceTable: string, sourceRow: Row, job: Job,
                               maxTargetId: map<string, int>, fn: UserFn)
    requires !(c != "_" && job.directive.MovedRow?)
    ensures var r := JobStepAt(st, u, c, sourceTable, sourceRow, job, maxTargetId, fn);
      r.Ok? ==> r.value.newId == st.newId && r.value.fkMapping == st.fkMapping && r.value.isMoved == st.isMoved
  {
  }

  /** The column loop over `jobs`, stopping at the first exception. */
  function FoldJobs(st: TransformState, sourceTable: string, sourceRow: Row, jobs: seq<Job>,
                    maxTargetId: map<string, int>, fn: UserFn): Result<TransformState>
  {
    if jobs == [] then Ok(st)
    else
      var prev :- FoldJobs(st, sourceTable, sourceRow, jobs[..|jobs| - 1], maxTargetId, fn);
      JobStep(prev, sourceTable, sourceRow, jobs[|jobs| - 1], maxTargetId, fn)
  }

  /** The number of `__moved__` jobs among `jobs` that write into table `t`. */
  function MovedInto(jobs: seq<Job>, t: string): nat
  {
    if jobs == [] then 0
    else
      var j := jobs[|jobs| - 1];
      MovedInto(jobs[..|jobs| - 1], t)
        + (if Writes(j) && j.directive.MovedRow? && SplitOn(j.target, '.')[0] == t then 1 else 0)
  }

  /**
   * Fresh ids: over a whole row, each table's counter goes up by exactly the number of
   * `__moved__` targets in that table, so every moved value gets its own id; no counter appears
   * or disappears.
   */
  lemma {:induction false} FreshIdsCounted(st: TransformState, sourceTable: string, sourceRow: Row, jobs: seq<Job>,
                                           maxTargetId: map<string, int>, fn: UserFn)
    requires FoldJobs(st, sourceTable, sourceRow, jobs, maxTargetId, fn).Ok?
    ensures var st' := FoldJobs(st, sourceTable, sourceRow, jobs, maxTargetId, fn).value;
      && st'.newId.Keys == st.newId.Keys
      && forall t :: t in st.newId ==> st'.newId[t] == st.newId[t] + MovedInto(jobs, t)
  {
    if jobs != [] {
      var prefix := jobs[..|jobs| - 1];
      FreshIdsCounted(st, sourceTable, sourceRow, prefix, maxTargetId, fn);
      var prev := FoldJobs(st, sourceTable, sourceRow, prefix, maxTargetId, fn).value;
      var last := jobs[|jobs| - 1];
      if Writes(last) && last.directive.MovedRow? {
        JobStepMoved(prev, sourceTable, sourceRow, last, maxTargetId, fn);
      } else {
        JobStepKeepsCounters(prev, sourceTable, sourceRow, last, maxTargetId, fn);
      }
    }
  }

  /**
   * A target row marked `__forget_row__` keeps the mark for the rest of the row's columns (a later
   * write can change the value under the key but not remove it).
   */
  lemma {:induction false} ForgetMarkPersists(st: TransformState, sourceTable: string, sourceRow: Row, jobs: seq<Job>,
                                              maxTargetId: map<string, int>, fn: UserFn, t: string)
    requires FoldJobs(st, sourceTable, sourceRow, jobs, maxTargetId, fn).Ok?
    requires t in st.rows && ForgetRowSentinel in st.rows[t]
    ensures var st' := FoldJobs(st, sourceTable, sourceRow, jobs, maxTargetId, fn).value;
      t in st'.rows && ForgetRowSentinel in st'.rows[t]
  {
    if jobs != [] {
      var prefix := jobs[..|jobs| - 1];
      ForgetMarkPersists(st, sourceTable, sourceRow, prefix, maxTargetId, fn, t);
      var prev := FoldJobs(st, sourceTable, sourceRow, prefix, maxTargetId, fn).value;
      JobStepKeepsMark(prev, sourceTable, sourceRow, jobs[|jobs| - 1], maxTargetId, fn, t);
    }
  }

  /** One item of the loop never removes a key of a target row. */
  lemma JobStepKeepsMark(st: TransformState, sourceTable: string, sourceRow: Row, job: Job,
                         maxTargetId: map<string, int>, fn: UserFn, t: string)
    requires t in st.rows && ForgetRowSentinel in st.rows[t]
    ensures var r := JobStep(st, sourceTable, sourceRow, job, maxTargetId, fn);
      r.Ok? ==> t in r.value.rows && ForgetRowSentinel in r.value.rows[t]
  {
    if WellFormedTarget(job.target) {
      var parts := SplitOn(job.target, '.');
      JobStepAtKeepsMark(st, parts[0], parts[1], sourceTable, sourceRow, job, maxTargetId, fn, t);
    }
  }

  lemma JobStepAtKeepsMark(st: TransformState, u: string, c: string, sourceTable: string, sourceRow: Row, job: Job,
                           maxTargetId: map<string, int>, fn: UserFn, t: string)
    requires t in st.rows && ForgetRowSentinel in st.rows[t]
    ensures var r := JobStepAt(st, u, c, sourceTable, sourceRow, job, maxTargetId, fn);
      r.Ok? ==> t in r.value.rows && ForgetRowSentinel in r.value.rows[t]
  {
    var rows := if u in st.rows then st.rows else st.rows[u := map[]];
    assert t in rows && ForgetRowSentinel in rows[t];
    if c != "_" && job.directive.MovedRow? {
      MovedStepKeepsKeys(st, rows, u, c, sourceTable, SourceValue(sourceRow, job.column), maxTargetId, t);
    }
  }

  /** The `__moved__` step only adds to the target rows. */
  lemma MovedStepKeepsKeys(st: TransformState, rows: map<string, Row>, u: string, c: string, sourceTable: string,
                           value: Value, maxTargetId: map<string, int>, t: string)
    requires u in rows && t in rows && ForgetRowSentinel in rows[t]
    ensures var r := MovedStep(st, rows, u, c, sourceTable, value, maxTargetId);
      r.Ok? ==> t in r.value.rows && ForgetRowSentinel in r.value.rows[t]
  {
  }

  /**
   * A user function returning the sentinel marks its target row, and the mark survives the rest
   * of the source row: such a row is never written (see `Routing.Route`).
   */
  lemma SentinelMarksRow(st: TransformState, sourceTable: string, sourceRow: Row, jobs: seq<Job>,
                         maxTargetId: map<string, int>, fn: UserFn, k: int)
    requires 0 <= k < |jobs| && Writes(jobs[k]) && jobs[k].directive.UserFunction?
    requires FoldJobs(st, sourceTable, sourceRow, jobs, maxTargetId, fn).Ok?
    requires FoldJobs(st, sourceTable, sourceRow, jobs[..k], maxTargetId, fn).Ok?
    requires var before := FoldJobs(st, sourceTable, sourceRow, jobs[..k], maxTargetId, fn).value;
      var t := SplitOn(jobs[k].target, '.')[0];
      fn(jobs[k].directive.body, sourceRow, if t in before.rows then before.rows else before.rows[t := map[]])
        == Text(ForgetRowSentinel)
    ensures var t := SplitOn(jobs[k].target, '.')[0];
      var st' := FoldJobs(st, sourceTable, sourceRow, jobs, maxTargetId, fn).value;
      t in st'.rows && ForgetRowSentinel in st'.rows[t]
  {
    var t := SplitOn(jobs[k].target, '.')[0];
    assert jobs[..k + 1][..k] == jobs[..k];
    assert jobs[..k + 1][k] == jobs[k];
    var mid := FoldJobs(st, sourceTable, sourceRow, jobs[..k + 1], maxTargetId, fn);
    assert mid.Ok? && ForgetRowSentinel in mid.value.rows[t];
    FoldSplit(st, sourceTable, sourceRow, jobs, k + 1, maxTargetId, fn);
    ForgetMarkPersists(mid.value, sourceTable, sourceRow, jobs[k + 1..], maxTargetId, fn, t);
  }

  /** The loop over `jobs` is the loop over its first `k` jobs followed by the loop over the rest. */
  lemma {:induction false} FoldSplit(st: TransformState, sourceTable: string, sourceRow: Row, jobs: seq<Job>, k: int,
                                     maxTargetId: map<string, int>, fn: UserFn)
    requires 0 <= k <= |jobs|
    requires FoldJobs(st, sourceTable, sourceRow, jobs[..k], maxTargetId, fn).Ok?
    ensures FoldJobs(st, sourceTable, sourceRow, jobs, maxTargetId, fn)
         == FoldJobs(FoldJobs(st, sourceTable, sourceRow, jobs[..k], maxTargetId, fn).value,
                     sourceTable, sourceRow, jobs[k..], maxTargetId, fn)
    decreases |jobs|
  {
    if k == |jobs| {
      assert jobs[..k] == jobs;
      assert jobs[k..] == [];
    } else {
      var prefix := jobs[..|jobs| - 1];
      assert prefix[..k] == jobs[..k];
      FoldSplit(st, sourceTable, sourceRow, prefix, k, maxTargetId, fn);
      var mid := FoldJobs(st, sourceTable, sourceRow, jobs[..k], maxTargetId, fn).value;
      var tail := jobs[k..];
      assert tail[..|tail| - 1] == prefix[k..];
      assert tail[|tail| - 1] == jobs[|jobs| - 1];
      FoldJobsLast(st, sourceTable, sourceRow, jobs, maxTargetId, fn);
      FoldJobsLast(mid, sourceTable, sourceRow, tail, maxTargetId, fn);
    }
  }

  /** `FoldJobs` over a non-empty list: the last job after the others, unless they raised. */
  lemma FoldJobsLast(st: TransformState, sourceTable: string, sourceRow: Row, jobs: seq<Job>,
                     maxTargetId: map<string, int>, fn: UserFn)
    requires jobs != []
    ensures var prev := FoldJobs(st, sourceTable, sourceRow, jobs[..|jobs| - 1], maxTargetId, fn);
      FoldJobs(st, sourceTable, sourceRow, jobs, maxTargetId, fn)
        == if prev.Err? then prev else JobStep(prev.value, sourceTable, sourceRow, jobs[|jobs| - 1], maxTargetId, fn)
  {
  }

  /** The loop over one more job is one more step. */
  lemma FoldJobsSnoc(st: TransformState, sourceTable: string, sourceRow: Row, jobs: seq<Job>, i: int,
                     maxTargetId: map<string, int>, fn: UserFn)
    requires 0 <= i < |jobs|
    ensures FoldJobs(st, sourceTable, sourceRow, jobs[..i + 1], maxTargetId, fn)
      == match FoldJobs(st, sourceTable, sourceRow, jobs[..i], maxTargetId, fn)
         case Ok(prev) => JobStep(prev, sourceTable, sourceRow, jobs[i], maxTargetId, fn)
         case Err(e) => Err(e)
  {
    assert jobs[..i + 1][..i] == jobs[..i];
  }

  /** Once the loop has raised, the loop over more jobs raises too. */
  lemma {:induction false} FoldJobsErrSticky(st: TransformState, sourceTable: string, sourceRow: Row, jobs: seq<Job>, k: int,
                                             maxTargetId: map<string, int>, fn: UserFn)
    requires 0 <= k <= |jobs|
    requires FoldJobs(st, sourceTable, sourceRow, jobs[..k], maxTargetId, fn).Err?
    ensures FoldJobs(st, sourceTable, sourceRow, jobs, maxTargetId, fn).Err?
    decreases |jobs| - k
  {
    if k == |jobs| {
      assert jobs[..k] == jobs;
    } else {
      FoldJobsSnoc(st, sourceTable, sourceRow, jobs, k, maxTargetId, fn);
      FoldJobsErrSticky(st, sourceTable, sourceRow, jobs, k + 1, maxTargetId, fn);
    }
  }
}
