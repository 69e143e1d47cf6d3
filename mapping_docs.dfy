/**
 * The mapping documents and the parts of the mapping compiler that both `Mapping` classes share:
 * the module-by-module merge of `source_table.column` entries (with its sticky forget marking),
 * the resolution of one directive, and the collection of discriminator lists.
 *
 * A mapping file is a document keyed by module name; a module's value is the marker
 * `__nothing_to_do__` or a dictionary from `source_table.column` (or a special per-table key such
 * as `table.__discriminator__`) to the targets of that column.
 */
module MappingDocs {
  import opened Wrappers
  import opened Strings

  /** The value under a target column: null, a string, or anything else YAML can hold. */
  datatype Directive = DNone | DStr(text: string) | DOther

  /** The value under a `source_table.column` key. */
  datatype Entry =
    | Forget                                   // '__forget__' or False
    | NullEntry                                // null, read as an empty dictionary
    | Targets(targets: map<string, Directive>)  // target_table.column -> directive
    | Names(names: seq<string>)                // a list of column names (discriminators, stored fields)
    | Malformed                                // any other value

  /** The value under a module name. */
  datatype ModuleDoc = NothingToDo | Columns(entries: map<string, Entry>) | NotAMapping

  /** Module name -> module value, as loaded from the mapping files. */
  type Docs = map<string, ModuleDoc>

  /** A merged entry of `Mapping.mapping` before compilation. */
  datatype Merged = ForgetMark | Dict(targets: map<string, Directive>)

  /** A compiled directive: what `Mapping.mapping[in][out]` holds once `__init__` is done. */
  datatype Compiled =
    | CopyValue                   // '__copy__' (also what '__defer__' and '__fk__ T' become)
    | NoneValue                   // None, copied like '__copy__'
    | MovedRow                    // '__moved__'
    | Reference(directive: string, column: string) // '__ref__ column', kept verbatim, and its column
    | UserFunction(body: string)  // any other string, compiled with exec

  /** What compiling one directive records besides the compiled value. */
  datatype Effect = NoEffect | Defer(table: string, column: string) | ForeignKey(table: string)

  // ---------------------------------------------------------------------------------------------
  // Loading: `full_mapping.update(yaml.load(stream))` for each file

  function UpdateAll(files: seq<Docs>): Docs
  {
    if files == [] then map[] else UpdateAll(files[..|files| - 1]) + files[|files| - 1]
  }

  /** A module is loaded exactly when some file defines it ... */
  lemma {:induction false} UpdateAllKeys(files: seq<Docs>)
    ensures forall m :: m in UpdateAll(files) <==> exists i :: 0 <= i < |files| && m in files[i]
  {
    if files != [] {
      var prefix := files[..|files| - 1];
      UpdateAllKeys(prefix);
      forall m | m in UpdateAll(files)
        ensures exists i :: 0 <= i < |files| && m in files[i]
      {
        if m !in files[|files| - 1] {
          assert m in UpdateAll(prefix);
          var i :| 0 <= i < |prefix| && m in prefix[i];
          assert files[i] == prefix[i];
        }
      }
      forall m, i | 0 <= i < |files| && m in files[i]
        ensures m in UpdateAll(files)
      {
        if i < |prefix| {
          assert prefix[i] == files[i];
        }
      }
    }
  }

  /** ... and the last file defining it wins. */
  lemma {:induction false} LastFileWins(files: seq<Docs>, i: int, m: string)
    requires 0 <= i < |files| && m in files[i]
    requires forall j :: i < j < |files| ==> m !in files[j]
    ensures m in UpdateAll(files) && UpdateAll(files)[m] == files[i][m]
  {
    if i < |files| - 1 {
      var prefix := files[..|files| - 1];
      assert prefix[i] == files[i];
      LastFileWins(prefix, i, m);
    }
  }

  method LoadFiles(files: seq<Docs>) returns (full: Docs)
    ensures full == UpdateAll(files)
  {
    full := map[];
    for i := 0 to |files|
      invariant full == UpdateAll(files[..i])
    {
      assert files[..i + 1][..i] == files[..i];
      full := full + files[i];
    }
    assert files[..|files|] == files;
  }

  // ---------------------------------------------------------------------------------------------
  // Merging the enabled modules into `self.mapping`

  /** Keys containing `__` are special markers (`__discriminator__`, `__stored__`, ...), not columns. */
  predicate IsColumnKey(key: string)
  {
    !Contains(key, "__")
  }

  function ColumnKeys(entries: map<string, Entry>): set<string>
  {
    set k | k in entries && IsColumnKey(k)
  }

  function Lookup(mapping: map<string, Merged>, key: string): Option<Merged>
  {
    if key in mapping then Some(mapping[key]) else None
  }

  /**
   * One module's entry for a column merged into what earlier modules left: a forget marking (from
   * this module or an earlier one) wins; otherwise the targets are added with `dict.update`, and a
   * value that is not a dictionary fails the `try` and is reported as `ValueError`.
   */
  function MergeKey(current: Option<Merged>, entry: Entry): (r: Result<Merged>)
    ensures entry == Forget || current == Some(ForgetMark) ==> r == Ok(ForgetMark)
    ensures r.Ok? && r.value.Dict? ==> current.None? || current.value.Dict?
  {
    if entry == Forget || current == Some(ForgetMark) then Ok(ForgetMark)
    else
      var earlier := if current.Some? then current.value.targets else map[];
      match entry
      case NullEntry => Ok(Dict(earlier))
      case Targets(targets) => Ok(Dict(earlier + targets))
      case _ => Err(ValueError)
  }

  predicate MergeFails(mapping: map<string, Merged>, entries: map<string, Entry>)
  {
    exists k :: k in ColumnKeys(entries) && MergeKey(Lookup(mapping, k), entries[k]).Err?
  }

  /** `mapping` with the entries for `keys` merged in. */
  function MergeInto(mapping: map<string, Merged>, entries: map<string, Entry>, keys: set<string>)
    : map<string, Merged>
    requires keys <= ColumnKeys(entries)
    requires forall k :: k in keys ==> MergeKey(Lookup(mapping, k), entries[k]).Ok?
  {
    map k | k in mapping.Keys + keys ::
      if k in keys then MergeKey(Lookup(mapping, k), entries[k]).value else mapping[k]
  }

  /** The result of the loop over one module's items. */
  function MergeModule(mapping: map<string, Merged>, entries: map<string, Entry>): Result<map<string, Merged>>
  {
    if MergeFails(mapping, entries) then Err(ValueError)
    else Ok(MergeInto(mapping, entries, ColumnKeys(entries)))
  }

  lemma MergeIntoAdd(mapping: map<string, Merged>, entries: map<string, Entry>, keys: set<string>, key: string)
    requires keys <= ColumnKeys(entries) && key in ColumnKeys(entries) && key !in keys
    requires forall k :: k in keys + {key} ==> MergeKey(Lookup(mapping, k), entries[k]).Ok?
    ensures MergeInto(mapping, entries, keys + {key})
      == MergeInto(mapping, entries, keys)[key := MergeKey(Lookup(mapping, key), entries[key]).value]
  {
  }

  /** The state of the merge loop once the keys outside `todo` are done. */
  predicate MergedExcept(mapping: map<string, Merged>, entries: map<string, Entry>, todo: set<string>, merged: map<string, Merged>)
  {
    && todo <= entries.Keys
    && (forall k :: k in ColumnKeys(entries) - todo ==> MergeKey(Lookup(mapping, k), entries[k]).Ok?)
    && merged == MergeInto(mapping, entries, ColumnKeys(entries) - todo)
  }

  lemma MergeStep(mapping: map<string, Merged>, entries: map<string, Entry>, todo: set<string>, merged: map<string, Merged>, key: string)
    requires MergedExcept(mapping, entries, todo, merged) && key in todo
    ensures Lookup(merged, key) == Lookup(mapping, key)
    ensures !IsColumnKey(key) ==> MergedExcept(mapping, entries, todo - {key}, merged)
    ensures IsColumnKey(key) && MergeKey(Lookup(mapping, key), entries[key]).Ok? ==>
      MergedExcept(mapping, entries, todo - {key}, merged[key := MergeKey(Lookup(mapping, key), entries[key]).value])
    ensures IsColumnKey(key) && MergeKey(Lookup(mapping, key), entries[key]).Err? ==> MergeFails(mapping, entries)
  {
    var done := ColumnKeys(entries) - todo;
    if IsColumnKey(key) {
      assert ColumnKeys(entries) - (todo - {key}) == done + {key};
      if MergeKey(Lookup(mapping, key), entries[key]).Ok? {
        MergeIntoAdd(mapping, entries, done, key);
      } else {
        assert key in ColumnKeys(entries);
      }
    } else {
      assert ColumnKeys(entries) - (todo - {key}) == done;
    }
  }

  lemma MergeDone(mapping: map<string, Merged>, entries: map<string, Entry>, merged: map<string, Merged>)
    requires MergedExcept(mapping, entries, {}, merged)
    ensures MergeModule(mapping, entries) == Ok(merged)
  {
    assert ColumnKeys(entries) - {} == ColumnKeys(entries);
  }

  /** The loop over one module's items (in whatever order the dictionary yields them). */
  method MergeEntries(mapping: map<string, Merged>, entries: map<string, Entry>)
    returns (r: Result<map<string, Merged>>)
    ensures r == MergeModule(mapping, entries)
  {
    var merged := mapping;
    var todo := entries.Keys;
    assert ColumnKeys(entries) - todo == {};
    while todo != {}
      invariant MergedExcept(mapping, entries, todo, merged)
      decreases |todo|
    {
      var key :| key in todo;
      MergeStep(mapping, entries, todo, merged, key);
      todo := todo - {key};
      if IsColumnKey(key) {
        var m := MergeKey(Lookup(merged, key), entries[key]);
        if m.Err? {
          return Err(ValueError);
        }
        merged := merged[key := m.value];
      }
    }
    MergeDone(mapping, entries, merged);
    return Ok(merged);
  }

  /**
   * One step of the loop over the enabled modules: a module missing from the files is skipped, a
   * `__nothing_to_do__` module is dropped from the loaded documents and skipped, and a module value
   * without `.items()` raises `AttributeError`.
   */
  function StepModule(mapping: map<string, Merged>, full: Docs, addon: string)
    : Result<(map<string, Merged>, Docs)>
  {
    if addon !in full then Ok((mapping, full))
    else match full[addon]
      case NothingToDo => Ok((mapping, full - {addon}))
      case NotAMapping => Err(AttributeError)
      case Columns(entries) =>
        var merged :- MergeModule(mapping, entries);
        Ok((merged, full))
  }

  /** The merge loop over `modules`, starting from an empty mapping; also returns the documents left. */
  function MergeModules(full: Docs, modules: seq<string>): Result<(map<string, Merged>, Docs)>
  {
    if modules == [] then Ok((map[], full))
    else
      var prev :- MergeModules(full, modules[..|modules| - 1]);
      StepModule(prev.0, prev.1, modules[|modules| - 1])
  }

  /** An exception ends the merge loop: the modules after it change nothing. */
  lemma {:induction false} MergeErrorPropagates(full: Docs, modules: seq<string>, i: int)
    requires 0 <= i <= |modules| && MergeModules(full, modules[..i]).Err?
    ensures MergeModules(full, modules) == MergeModules(full, modules[..i])
    decreases |modules| - i
  {
    if i < |modules| {
      assert modules[..i + 1][..i] == modules[..i];
      MergeErrorPropagates(full, modules, i + 1);
    } else {
      assert modules[..i] == modules;
    }
  }

  method MergeEnabledModules(full: Docs, modules: seq<string>) returns (r: Result<(map<string, Merged>, Docs)>)
    ensures r == MergeModules(full, modules)
  {
    var mapping: map<string, Merged> := map[];
    var docs := full;
    for i := 0 to |modules|
      invariant MergeModules(full, modules[..i]) == Ok((mapping, docs))
    {
      assert modules[..i + 1][..i] == modules[..i];
      var addon := modules[i];
      if addon !in docs {
        continue;
      }
      match docs[addon]
      case NothingToDo =>
        docs := docs - {addon};
      case NotAMapping =>
        MergeErrorPropagates(full, modules, i + 1);
        return Err(AttributeError);
      case Columns(entries) =>
        var merged := MergeEntries(mapping, entries);
        if merged.Err? {
          MergeErrorPropagates(full, modules, i + 1);
          return Err(merged.error);
        }
        mapping := merged.value;
    }
    assert modules[..|modules|] == modules;
    return Ok((mapping, docs));
  }

  /** The column keys of the enabled modules, as the loaded documents define them. */
  function EnabledColumnKeys(full: Docs, modules: seq<string>): set<string>
  {
    if modules == [] then {}
    else
      var addon := modules[|modules| - 1];
      EnabledColumnKeys(full, modules[..|modules| - 1])
        + (if addon in full && full[addon].Columns? then ColumnKeys(full[addon].entries) else {})
  }

  /**
   * The documents left after merging are the loaded ones minus `__nothing_to_do__` modules; and
   * every merged key is a column key (no `__` marker) of a module that is enabled, present in the
   * files and not `__nothing_to_do__`.
   */
  lemma {:induction false} MergeModulesKeys(full: Docs, modules: seq<string>)
    requires MergeModules(full, modules).Ok?
    ensures var (mapping, docs) := MergeModules(full, modules).value;
      && (forall a :: a in docs ==> a in full && docs[a] == full[a])
      && (forall a :: a in full && full[a] != NothingToDo ==> a in docs)
      && (forall k :: k in mapping ==> IsColumnKey(k) && k in EnabledColumnKeys(full, modules))
  {
    if modules != [] {
      var prefix := modules[..|modules| - 1];
      MergeModulesKeys(full, prefix);
    }
  }

  /** A forget marking survives every later step. */
  lemma StepKeepsForget(mapping: map<string, Merged>, full: Docs, addon: string, key: string)
    requires key in mapping && mapping[key] == ForgetMark
    requires StepModule(mapping, full, addon).Ok?
    ensures var m := StepModule(mapping, full, addon).value.0; key in m && m[key] == ForgetMark
  {
  }

  /**
   * Sticky forget: once an enabled module maps a column to `__forget__` or False, the merged entry
   * is the forget marking whatever the other modules say.
   */
  lemma {:induction false} ForgetIsSticky(full: Docs, modules: seq<string>, j: int, key: string)
    requires 0 <= j < |modules| && modules[j] in full && full[modules[j]].Columns?
    requires key in full[modules[j]].entries && full[modules[j]].entries[key] == Forget && IsColumnKey(key)
    requires MergeModules(full, modules).Ok?
    ensures var m := MergeModules(full, modules).value.0; key in m && m[key] == ForgetMark
  {
    var prefix := modules[..|modules| - 1];
    var prev := MergeModules(full, prefix).value;
    if j == |modules| - 1 {
      MergeModulesKeys(full, prefix);
      assert key in ColumnKeys(full[modules[j]].entries);
    } else {
      assert prefix[j] == modules[j];
      ForgetIsSticky(full, prefix, j, key);
      StepKeepsForget(prev.0, prev.1, modules[|modules| - 1], key);
    }
  }

  // ---------------------------------------------------------------------------------------------
  // Compiling directives

  /** The directives handled by the compiler itself rather than by a user function. */
  predicate IsSpecialDirective(s: string)
  {
    s == "__copy__" || s == "__moved__" || s == "__defer__"
    || StartsWith(s, "__fk__ ") || StartsWith(s, "__ref__")
  }

  /** The fixed directives are not mistaken for prefixed ones. */
  lemma SpecialLiterals()
    ensures !StartsWith("__copy__", "__fk__ ") && !StartsWith("__copy__", "__ref__")
    ensures !StartsWith("__moved__", "__fk__ ") && !StartsWith("__moved__", "__ref__")
    ensures !StartsWith("__defer__", "__fk__ ") && !StartsWith("__defer__", "__ref__")
    ensures forall s :: StartsWith(s, "__fk__ ") ==> !StartsWith(s, "__ref__")
  {
    assert "__copy__"[2] == 'c' && "__moved__"[2] == 'm' && "__defer__"[2] == 'd';
    assert "__fk__ "[2] == 'f' && "__ref__"[2] == 'r';
    forall s | StartsWith(s, "__fk__ ")
      ensures !StartsWith(s, "__ref__")
    {
      assert s[2] == "__fk__ "[2];
    }
  }

  /**
   * A string directive for target `out`: `__defer__` becomes a copy and, unless foreign keys are
   * dropped, records `out` (which must read `table.column`) as deferred; `__fk__ T` and
   * `__ref__ c` must have exactly two whitespace-separated tokens; any other string is the body of
   * a user function.
   */
  function CompileString(out: string, s: string, dropFk: bool): (r: Result<(Compiled, Effect)>)
    ensures s == "__copy__" ==> r == Ok((CopyValue, NoEffect))
    ensures s == "__moved__" ==> r == Ok((MovedRow, NoEffect))
    ensures s == "__defer__" && dropFk ==> r == Ok((CopyValue, NoEffect))
    ensures s == "__defer__" && !dropFk ==>
      (r.Ok? <==> |SplitOn(out, '.')| == 2)
      && (r.Ok? ==> r.value == (CopyValue, Defer(SplitOn(out, '.')[0], SplitOn(out, '.')[1])))
    ensures StartsWith(s, "__fk__ ") ==>
      (r.Ok? <==> |Words(s)| == 2) && (r.Ok? ==> r.value == (CopyValue, ForeignKey(Words(s)[1])))
    ensures StartsWith(s, "__ref__") ==>
      (r.Ok? <==> |Words(s)| == 2) && (r.Ok? ==> r.value == (Reference(s, Words(s)[1]), NoEffect))
    ensures !IsSpecialDirective(s) ==> r == Ok((UserFunction(s), NoEffect))
    ensures r.Err? ==> r.error == ValueError
  {
    SpecialLiterals();
    if s == "__copy__" then Ok((CopyValue, NoEffect))
    else if s == "__moved__" then Ok((MovedRow, NoEffect))
    else if s == "__defer__" then
      if dropFk then Ok((CopyValue, NoEffect))
      else
        var parts := SplitOn(out, '.');
        if |parts| != 2 then Err(ValueError) else Ok((CopyValue, Defer(parts[0], parts[1])))
    else if StartsWith(s, "__fk__ ") then
      var words := Words(s);
      if |words| != 2 then Err(ValueError) else Ok((CopyValue, ForeignKey(words[1])))
    else if StartsWith(s, "__ref__") then
      if |Words(s)| != 2 then Err(ValueError) else Ok((Reference(s, Words(s)[1]), NoEffect))
    else Ok((UserFunction(s), NoEffect))
  }

  /**
   * One directive: null is kept (and copies like `__copy__`); a value that is neither null nor a
   * string raises `nonString`, which is where the two `Mapping` variants differ.
   */
  function CompileDirective(out: string, d: Directive, dropFk: bool, nonString: PyError): (r: Result<(Compiled, Effect)>)
    ensures d == DNone ==> r == Ok((NoneValue, NoEffect))
    ensures d == DOther ==> r == Err(nonString)
    ensures d.DStr? ==> r == CompileString(out, d.text, dropFk)
  {
    match d
    case DNone => Ok((NoneValue, NoEffect))
    case DOther => Err(nonString)
    case DStr(s) => CompileString(out, s, dropFk)
  }

  /** A well-formed `__fk__ T` names `T` as the table the target column points to. */
  lemma ForeignKeyDirective(out: string, table: string, dropFk: bool)
    requires |table| > 0 && NoSpace(table)
    ensures CompileString(out, "__fk__ " + table, dropFk) == Ok((CopyValue, ForeignKey(table)))
  {
    assert "__fk__ " + table == "__fk__" + " " + table;
    assert NoSpace("__fk__") by {
      assert "__fk__" == ['_', '_', 'f', 'k', '_', '_'];
    }
    WordsOfPair("__fk__", table);
    assert StartsWith("__fk__ " + table, "__fk__ ") by {
      assert ("__fk__ " + table)[..7] == "__fk__ ";
    }
  }

  /** The state `__init__` builds while compiling. */
  datatype Compilation = Compilation(
    mapping: map<string, map<string, Compiled>>,
    deferred: map<string, set<string>>,
    fk2update: map<string, string>)

  /** The (source column, target column) pairs of the merged mapping, in any order. */
  function AllPairs(mapping: map<string, Merged>): set<(string, string)>
  {
    set i, o | i in mapping && mapping[i].Dict? && o in mapping[i].targets :: (i, o)
  }

  function Outcome(mapping: map<string, Merged>, p: (string, string), dropFk: bool, nonString: PyError)
    : Result<(Compiled, Effect)>
    requires p in AllPairs(mapping)
  {
    CompileDirective(p.1, mapping[p.0].targets[p.1], dropFk, nonString)
  }

  /** The directive at `p` compiles and records `e`. */
  predicate Produces(mapping: map<string, Merged>, p: (string, string), dropFk: bool, nonString: PyError, e: Effect)
  {
    p in AllPairs(mapping) && Outcome(mapping, p, dropFk, nonString).Ok?
    && Outcome(mapping, p, dropFk, nonString).value.1 == e
  }

  function Get<K, V>(m: map<K, set<V>>, k: K): set<V>
  {
    if k in m then m[k] else {}
  }

  /** The compiled entries after the directives at the pairs `done` were compiled. */
  ghost predicate CompiledValues(mapping: map<string, Merged>, dropFk: bool, nonString: PyError,
                                 done: set<(string, string)>, compiled: map<string, map<string, Compiled>>)
  {
    && done <= AllPairs(mapping)
    && compiled.Keys == mapping.Keys
    && (forall i, o :: i in mapping && o in compiled[i] ==> (i, o) in done)
    && (forall p :: p in done ==>
          Outcome(mapping, p, dropFk, nonString).Ok?
          && p.1 in compiled[p.0]
          && compiled[p.0][p.1] == Outcome(mapping, p, dropFk, nonString).value.0)
  }

  /** `deferred[t]` holds exactly the columns `c` of the `__defer__` targets `t.c` among `done`. */
  ghost predicate DeferredFrom(mapping: map<string, Merged>, dropFk: bool, nonString: PyError,
                               done: set<(string, string)>, deferred: map<string, set<string>>)
  {
    && (forall t, c :: c in Get(deferred, t) ==>
          exists p :: p in done && Produces(mapping, p, dropFk, nonString, Defer(t, c)))
    && (forall p, t, c :: p in done && Produces(mapping, p, dropFk, nonString, Defer(t, c)) ==> c in Get(deferred, t))
  }

  /**
   * `fk2update` is defined exactly on the `__fk__ T` targets among `done`, with the table of one
   * of them.
   */
  ghost predicate ForeignKeysFrom(mapping: map<string, Merged>, dropFk: bool, nonString: PyError,
                                  done: set<(string, string)>, fk2update: map<string, string>)
  {
    && (forall o :: o in fk2update ==>
          exists p :: p in done && p.1 == o && Produces(mapping, p, dropFk, nonString, ForeignKey(fk2update[o])))
    && (forall p, t :: p in done && Produces(mapping, p, dropFk, nonString, ForeignKey(t)) ==> p.1 in fk2update)
  }

  /** `st` after the directives at the pairs `done` were compiled, in some order. */
  ghost predicate CompiledPairs(mapping: map<string, Merged>, dropFk: bool, nonString: PyError,
                                done: set<(string, string)>, st: Compilation)
  {
    && CompiledValues(mapping, dropFk, nonString, done, st.mapping)
    && DeferredFrom(mapping, dropFk, nonString, done, st.deferred)
    && ForeignKeysFrom(mapping, dropFk, nonString, done, st.fk2update)
  }

  /** Records one compiled directive, as the body of the inner loop of `__init__` does. */
  function Record(st: Compilation, p: (string, string), c: Compiled, e: Effect): Compilation
    requires p.0 in st.mapping
  {
    Compilation(
      st.mapping[p.0 := st.mapping[p.0][p.1 := c]],
      if e.Defer? then st.deferred[e.table := Get(st.deferred, e.table) + {e.column}] else st.deferred,
      if e.ForeignKey? then st.fk2update[p.1 := e.table] else st.fk2update)
  }

  lemma CompileStart(mapping: map<string, Merged>, dropFk: bool, nonString: PyError)
    ensures CompiledPairs(mapping, dropFk, nonString, {},
      Compilation(map i | i in mapping :: map[], map[], map[]))
  {
  }

  lemma StepValues(mapping: map<string, Merged>, dropFk: bool, nonString: PyError,
                   done: set<(string, string)>, st: Compilation, p: (string, string))
    requires CompiledValues(mapping, dropFk, nonString, done, st.mapping)
    requires p in AllPairs(mapping) && p !in done && Outcome(mapping, p, dropFk, nonString).Ok?
    ensures p.0 in st.mapping
    ensures var (c, e) := Outcome(mapping, p, dropFk, nonString).value;
      CompiledValues(mapping, dropFk, nonString, done + {p}, Record(st, p, c, e).mapping)
  {
  }

  lemma StepDeferred(mapping: map<string, Merged>, dropFk: bool, nonString: PyError,
                     done: set<(string, string)>, deferred: map<string, set<string>>, p: (string, string), e: Effect)
    requires DeferredFrom(mapping, dropFk, nonString, done, deferred)
    requires Produces(mapping, p, dropFk, nonString, e)
    ensures var deferred' := if e.Defer? then deferred[e.table := Get(deferred, e.table) + {e.column}] else deferred;
      DeferredFrom(mapping, dropFk, nonString, done + {p}, deferred')
  {
    var deferred' := if e.Defer? then deferred[e.table := Get(deferred, e.table) + {e.column}] else deferred;
    forall t, c | c in Get(deferred', t)
      ensures exists q :: q in done + {p} && Produces(mapping, q, dropFk, nonString, Defer(t, c))
    {
      DeferredWitness(mapping, dropFk, nonString, done, deferred, p, e, t, c);
    }
    forall q, t, c | q in done + {p} && Produces(mapping, q, dropFk, nonString, Defer(t, c))
      ensures c in Get(deferred', t)
    {
      if q != p {
        assert c in Get(deferred, t);
      }
    }
  }

  lemma DeferredWitness(mapping: map<string, Merged>, dropFk: bool, nonString: PyError, done: set<(string, string)>,
                        deferred: map<string, set<string>>, p: (string, string), e: Effect, t: string, c: string)
    requires DeferredFrom(mapping, dropFk, nonString, done, deferred)
    requires Produces(mapping, p, dropFk, nonString, e)
    requires c in Get(if e.Defer? then deferred[e.table := Get(deferred, e.table) + {e.column}] else deferred, t)
    ensures exists q :: q in done + {p} && Produces(mapping, q, dropFk, nonString, Defer(t, c))
  {
    if e == Defer(t, c) {
      assert p in done + {p};
    } else {
      assert c in Get(deferred, t);
      var q :| q in done && Produces(mapping, q, dropFk, nonString, Defer(t, c));
      assert q in done + {p};
    }
  }

  lemma StepForeignKeys(mapping: map<string, Merged>, dropFk: bool, nonString: PyError,
                        done: set<(string, string)>, fk2update: map<string, string>, p: (string, string), e: Effect)
    requires ForeignKeysFrom(mapping, dropFk, nonString, done, fk2update)
    requires Produces(mapping, p, dropFk, nonString, e)
    ensures var fk' := if e.ForeignKey? then fk2update[p.1 := e.table] else fk2update;
      ForeignKeysFrom(mapping, dropFk, nonString, done + {p}, fk')
  {
    var fk' := if e.ForeignKey? then fk2update[p.1 := e.table] else fk2update;
    forall o | o in fk'
      ensures exists q :: q in done + {p} && q.1 == o && Produces(mapping, q, dropFk, nonString, ForeignKey(fk'[o]))
    {
      ForeignKeyWitness(mapping, dropFk, nonString, done, fk2update, p, e, o);
    }
  }

  lemma ForeignKeyWitness(mapping: map<string, Merged>, dropFk: bool, nonString: PyError, done: set<(string, string)>,
                          fk2update: map<string, string>, p: (string, string), e: Effect, o: string)
    requires ForeignKeysFrom(mapping, dropFk, nonString, done, fk2update)
    requires Produces(mapping, p, dropFk, nonString, e)
    requires o in (if e.ForeignKey? then fk2update[p.1 := e.table] else fk2update)
    ensures var fk' := if e.ForeignKey? then fk2update[p.1 := e.table] else fk2update;
      exists q :: q in done + {p} && q.1 == o && Produces(mapping, q, dropFk, nonString, ForeignKey(fk'[o]))
  {
    if e.ForeignKey? && o == p.1 {
      assert p in done + {p};
    } else {
      var q :| q in done && q.1 == o && Produces(mapping, q, dropFk, nonString, ForeignKey(fk2update[o]));
      assert q in done + {p};
    }
  }

  lemma CompileStep(mapping: map<string, Merged>, dropFk: bool, nonString: PyError,
                    done: set<(string, string)>, st: Compilation, p: (string, string))
    requires CompiledPairs(mapping, dropFk, nonString, done, st)
    requires p in AllPairs(mapping) && p !in done && Outcome(mapping, p, dropFk, nonString).Ok?
    ensures p.0 in st.mapping
    ensures var (c, e) := Outcome(mapping, p, dropFk, nonString).value;
      CompiledPairs(mapping, dropFk, nonString, done + {p}, Record(st, p, c, e))
  {
    StepValues(mapping, dropFk, nonString, done, st, p);
    var (c, e) := Outcome(mapping, p, dropFk, nonString).value;
    assert Produces(mapping, p, dropFk, nonString, e);
    StepDeferred(mapping, dropFk, nonString, done, st.deferred, p, e);
    StepForeignKeys(mapping, dropFk, nonString, done, st.fk2update, p, e);
  }

  /** The pairs of the source columns in `ins`. */
  function PairsOf(mapping: map<string, Merged>, ins: set<string>): set<(string, string)>
  {
    set p | p in AllPairs(mapping) && p.0 in ins
  }

  /** The inner loop of the compile loop: the directives of one source column, in any order. */
  method CompileColumn(mapping: map<string, Merged>, dropFk: bool, nonString: PyError,
                       ghost finished: set<string>, incolumn: string, st: Compilation)
    returns (r: Result<Compilation>)
    requires incolumn in mapping && incolumn !in finished && finished <= mapping.Keys
    requires CompiledPairs(mapping, dropFk, nonString, PairsOf(mapping, finished), st)
    ensures r.Ok? ==> CompiledPairs(mapping, dropFk, nonString, PairsOf(mapping, finished + {incolumn}), r.value)
    ensures r.Err? ==> exists p :: p in AllPairs(mapping) && Outcome(mapping, p, dropFk, nonString) == Err(r.error)
  {
    if mapping[incolumn].ForgetMark? {
      // compiles to an empty entry, which it already is
      assert PairsOf(mapping, finished + {incolumn}) == PairsOf(mapping, finished);
      return Ok(st);
    }
    var current := st;
    var targets := mapping[incolumn].targets;
    var outs := targets.Keys;
    ghost var done := PairsOf(mapping, finished);
    while outs != {}
      invariant outs <= targets.Keys
      invariant CompiledPairs(mapping, dropFk, nonString, done, current)
      invariant done == PairsOf(mapping, finished) + set o | o in targets.Keys - outs :: (incolumn, o)
      decreases |outs|
    {
      var outcolumn :| outcolumn in outs;
      var p := (incolumn, outcolumn);
      ColumnPairsStep(mapping, finished, incolumn, outs, outcolumn, done);
      outs := outs - {outcolumn};
      var compiled := CompileDirective(outcolumn, targets[outcolumn], dropFk, nonString);
      if compiled.Err? {
        return Err(compiled.error);
      }
      CompileStep(mapping, dropFk, nonString, done, current, p);
      current := Record(current, p, compiled.value.0, compiled.value.1);
      done := done + {p};
    }
    ColumnPairsDone(mapping, finished, incolumn);
    return Ok(current);
  }

  /** The pairs met while compiling the directives of `incolumn`, one target column more. */
  lemma ColumnPairsStep(mapping: map<string, Merged>, finished: set<string>, incolumn: string, outs: set<string>,
                        outcolumn: string, done: set<(string, string)>)
    requires incolumn in mapping && incolumn !in finished && mapping[incolumn].Dict?
    requires outs <= mapping[incolumn].targets.Keys && outcolumn in outs
    requires done == PairsOf(mapping, finished) + set o | o in mapping[incolumn].targets.Keys - outs :: (incolumn, o)
    ensures (incolumn, outcolumn) in AllPairs(mapping) && (incolumn, outcolumn) !in done
    ensures done + {(incolumn, outcolumn)}
      == PairsOf(mapping, finished) + set o | o in mapping[incolumn].targets.Keys - (outs - {outcolumn}) :: (incolumn, o)
  {
  }

  lemma ColumnPairsDone(mapping: map<string, Merged>, finished: set<string>, incolumn: string)
    requires incolumn in mapping && mapping[incolumn].Dict?
    ensures PairsOf(mapping, finished) + (set o | o in mapping[incolumn].targets.Keys - {} :: (incolumn, o))
      == PairsOf(mapping, finished + {incolumn})
  {
  }

  /**
   * The compile loop of `__init__`: every directive of every column entry is compiled, and a
   * forget marking compiles to an empty entry. On success the compiled entry of each pair is its
   * directive compiled alone, `deferred[t]` holds exactly the columns `c` of the `__defer__`
   * targets `t.c`, and `fk2update[out]` is defined exactly for the targets of a well-formed
   * `__fk__ T`, with one of their tables (the one visited last). On failure some directive fails
   * with the error reported.
   */
  method CompileMapping(mapping: map<string, Merged>, dropFk: bool, nonString: PyError)
    returns (r: Result<Compilation>)
    ensures r.Err? <==> exists p :: p in AllPairs(mapping) && Outcome(mapping, p, dropFk, nonString).Err?
    ensures r.Err? ==> exists p :: p in AllPairs(mapping) && Outcome(mapping, p, dropFk, nonString) == Err(r.error)
    ensures r.Ok? ==> CompiledPairs(mapping, dropFk, nonString, AllPairs(mapping), r.value)
  {
    var st := Compilation(map i | i in mapping :: map[], map[], map[]);
    CompileStart(mapping, dropFk, nonString);
    var ins := mapping.Keys;
    assert PairsOf(mapping, mapping.Keys - ins) == {} by {
      assert mapping.Keys - ins == {};
    }
    while ins != {}
      invariant ins <= mapping.Keys
      invariant CompiledPairs(mapping, dropFk, nonString, PairsOf(mapping, mapping.Keys - ins), st)
      decreases |ins|
    {
      var incolumn :| incolumn in ins;
      var next := CompileColumn(mapping, dropFk, nonString, mapping.Keys - ins, incolumn, st);
      if next.Err? {
        return next;
      }
      assert mapping.Keys - ins + {incolumn} == mapping.Keys - (ins - {incolumn});
      ins := ins - {incolumn};
      st := next.value;
    }
    assert PairsOf(mapping, mapping.Keys - ins) == AllPairs(mapping);
    CompiledAll(mapping, dropFk, nonString, st);
    return Ok(st);
  }

  lemma CompiledAll(mapping: map<string, Merged>, dropFk: bool, nonString: PyError, st: Compilation)
    requires CompiledPairs(mapping, dropFk, nonString, AllPairs(mapping), st)
    ensures !exists p :: p in AllPairs(mapping) && Outcome(mapping, p, dropFk, nonString).Err?
  {
  }

  /** A forget marking compiles to an empty entry; a column entry keeps exactly its target columns. */
  lemma CompiledEntries(mapping: map<string, Merged>, dropFk: bool, nonString: PyError, st: Compilation, i: string)
    requires CompiledPairs(mapping, dropFk, nonString, AllPairs(mapping), st) && i in mapping
    ensures mapping[i].ForgetMark? ==> st.mapping[i] == map[]
    ensures mapping[i].Dict? ==> st.mapping[i].Keys == mapping[i].targets.Keys
  {
    if mapping[i].Dict? {
      forall o | o in mapping[i].targets
        ensures o in st.mapping[i]
      {
        assert (i, o) in AllPairs(mapping);
      }
    }
  }

  /**
   * The compiled mapping of the enabled modules holds only their column keys (no key with `__`,
   * nothing from a module that is missing or `__nothing_to_do__`), and a column any enabled
   * module forgets compiles to `{}`.
   */
  lemma CompiledColumns(full: Docs, modules: seq<string>, dropFk: bool, nonString: PyError, st: Compilation)
    requires MergeModules(full, modules).Ok?
    requires CompiledPairs(MergeModules(full, modules).value.0, dropFk, nonString,
                           AllPairs(MergeModules(full, modules).value.0), st)
    ensures forall k :: k in st.mapping ==> IsColumnKey(k) && k in EnabledColumnKeys(full, modules)
    ensures forall j, k :: 0 <= j < |modules| && modules[j] in full && full[modules[j]].Columns?
                           && k in full[modules[j]].entries && full[modules[j]].entries[k] == Forget && IsColumnKey(k)
                           ==> k in st.mapping && st.mapping[k] == map[]
  {
    var merged := MergeModules(full, modules).value.0;
    MergeModulesKeys(full, modules);
    forall j, k | 0 <= j < |modules| && modules[j] in full && full[modules[j]].Columns?
                  && k in full[modules[j]].entries && full[modules[j]].entries[k] == Forget && IsColumnKey(k)
      ensures k in st.mapping && st.mapping[k] == map[]
    {
      ForgetIsSticky(full, modules, j, k);
      CompiledEntries(merged, dropFk, nonString, st, k);
    }
  }

  // ---------------------------------------------------------------------------------------------
  // Discriminators and stored fields

  predicate IsDiscriminatorKey(key: string)
  {
    Contains(key, "__discriminator__")
  }

  predicate IsStoredKey(key: string)
  {
    Contains(key, "__stored__")
  }

  /** `discriminators` (table -> discriminator columns) and, for the `migration` variant, `stored_fields`. */
  datatype Metadata = Metadata(discriminators: map<string, seq<string>>, storedFields: map<string, seq<string>>)

  /** The (module, key) pairs of the dictionary modules among `full`. */
  function DocPairs(full: Docs): set<(string, string)>
  {
    set m, k | m in full && full[m].Columns? && k in full[m].entries :: (m, k)
  }

  function EntryAt(full: Docs, p: (string, string)): Entry
    requires p in DocPairs(full)
  {
    full[p.0].entries[p.1]
  }

  /**
   * One item of a module seen by the metadata loop: a discriminator key sets the list of its table
   * (a later one replacing an earlier one), a stored key (when collected) extends the list of its
   * table. A value that is not a list is rejected with `TypeError`.
   */
  function MetadataStep(meta: Metadata, key: string, entry: Entry, withStored: bool): Result<Metadata>
  {
    var discs :-
      if !IsDiscriminatorKey(key) then Ok(meta.discriminators)
      else if entry.Names? then Ok(meta.discriminators[TableOf(key) := entry.names])
      else Err(TypeError);
    var stored :-
      if !withStored || !IsStoredKey(key) then Ok(meta.storedFields)
      else if entry.Names? then
        var table := TableOf(key);
        Ok(meta.storedFields[table := GetList(meta.storedFields, table) + entry.names])
      else Err(TypeError);
    Ok(Metadata(discs, stored))
  }

  predicate StepFails(full: Docs, p: (string, string), withStored: bool)
    requires p in DocPairs(full)
  {
    (IsDiscriminatorKey(p.1) || (withStored && IsStoredKey(p.1))) && !EntryAt(full, p).Names?
  }

  /** The discriminator lists after the items `done` were seen, in some order. */
  ghost predicate DiscriminatorsFrom(full: Docs, done: set<(string, string)>, discriminators: map<string, seq<string>>)
    requires done <= DocPairs(full)
  {
    && (forall t :: t in discriminators <==>
          exists p :: p in done && IsDiscriminatorKey(p.1) && TableOf(p.1) == t)
    && (forall t :: t in discriminators ==>
          exists p :: p in done && IsDiscriminatorKey(p.1) && TableOf(p.1) == t
            && EntryAt(full, p) == Names(discriminators[t]))
  }

  /** The stored-field lists after the items `done` were seen: every listed name and only those. */
  ghost predicate StoredFrom(full: Docs, withStored: bool, done: set<(string, string)>, stored: map<string, seq<string>>)
    requires done <= DocPairs(full)
  {
    && (forall t :: t in stored <==>
          withStored && exists p :: p in done && IsStoredKey(p.1) && TableOf(p.1) == t)
    && (forall t, x :: t in stored && x in stored[t] ==>
          exists p :: p in done && IsStoredKey(p.1) && TableOf(p.1) == t && EntryAt(full, p).Names?
            && x in EntryAt(full, p).names)
    && (forall p, x :: (p in done && withStored && IsStoredKey(p.1) && EntryAt(full, p).Names?
                        && x in EntryAt(full, p).names) ==>
          TableOf(p.1) in stored && x in stored[TableOf(p.1)])
    && (forall t :: multiset(GetList(stored, t)) == StoredBag(full, withStored, done, t))
  }

  /** The names item `p` adds to the stored-field list of table `t` (`+= value`). */
  function StoredContribution(full: Docs, withStored: bool, p: (string, string), t: string): multiset<string>
    requires p in DocPairs(full)
  {
    if withStored && IsStoredKey(p.1) && TableOf(p.1) == t && EntryAt(full, p).Names?
    then multiset(EntryAt(full, p).names)
    else multiset{}
  }

  /**
   * The names the items `done` add to the list of table `t`, with their multiplicity: the sum of
   * their contributions, in whichever order the items are taken.
   */
  ghost function StoredBag(full: Docs, withStored: bool, done: set<(string, string)>, t: string): multiset<string>
    requires done <= DocPairs(full)
    decreases |done|
  {
    if done == {} then multiset{}
    else
      var p :| p in done;
      StoredContribution(full, withStored, p, t) + StoredBag(full, withStored, done - {p}, t)
  }

  /** The sum does not depend on which item is taken first. */
  lemma {:induction false} StoredBagRemove(full: Docs, withStored: bool, done: set<(string, string)>, t: string,
                                           p: (string, string))
    requires done <= DocPairs(full) && p in done
    ensures StoredBag(full, withStored, done, t)
      == StoredContribution(full, withStored, p, t) + StoredBag(full, withStored, done - {p}, t)
    decreases |done|
  {
    var q :| q in done && StoredBag(full, withStored, done, t)
      == StoredContribution(full, withStored, q, t) + StoredBag(full, withStored, done - {q}, t);
    if q != p {
      StoredBagRemove(full, withStored, done - {q}, t, p);
      StoredBagRemove(full, withStored, done - {p}, t, q);
      assert done - {q} - {p} == done - {p} - {q};
    }
  }

  /** `meta` after the items `done` were seen, in some order. */
  ghost predicate CollectedPairs(full: Docs, withStored: bool, done: set<(string, string)>, meta: Metadata)
  {
    && done <= DocPairs(full)
    && (forall p :: p in done ==> !StepFails(full, p, withStored))
    && DiscriminatorsFrom(full, done, meta.discriminators)
    && StoredFrom(full, withStored, done, meta.storedFields)
  }

  lemma StepDiscriminators(full: Docs, done: set<(string, string)>, discriminators: map<string, seq<string>>, p: (string, string))
    requires done <= DocPairs(full) && p in DocPairs(full)
    requires DiscriminatorsFrom(full, done, discriminators)
    requires IsDiscriminatorKey(p.1) ==> EntryAt(full, p).Names?
    ensures DiscriminatorsFrom(full, done + {p},
      if IsDiscriminatorKey(p.1) then discriminators[TableOf(p.1) := EntryAt(full, p).names] else discriminators)
  {
    var discs' := if IsDiscriminatorKey(p.1) then discriminators[TableOf(p.1) := EntryAt(full, p).names] else discriminators;
    var done' := done + {p};
    forall t | t in discs'
      ensures exists q :: (q in done' && IsDiscriminatorKey(q.1) && TableOf(q.1) == t
                           && EntryAt(full, q) == Names(discs'[t]))
    {
      if IsDiscriminatorKey(p.1) && t == TableOf(p.1) {
        assert p in done';
      } else {
        assert t in discriminators;
      }
    }
    forall t
      ensures t in discs' <==> exists q :: q in done' && IsDiscriminatorKey(q.1) && TableOf(q.1) == t
    {
      if IsDiscriminatorKey(p.1) && t == TableOf(p.1) {
        assert p in done';
      }
    }
  }

  lemma StoredWitness(full: Docs, withStored: bool, done: set<(string, string)>, stored: map<string, seq<string>>,
                      p: (string, string), t: string, x: string)
    requires done <= DocPairs(full) && p in DocPairs(full) && p !in done
    requires StoredFrom(full, withStored, done, stored)
    requires withStored && IsStoredKey(p.1) ==> EntryAt(full, p).Names?
    requires var stored' := if withStored && IsStoredKey(p.1)
                            then stored[TableOf(p.1) := GetList(stored, TableOf(p.1)) + EntryAt(full, p).names]
                            else stored;
      t in stored' && x in stored'[t]
    ensures exists q :: (q in done + {p} && IsStoredKey(q.1) && TableOf(q.1) == t && EntryAt(full, q).Names?
                         && x in EntryAt(full, q).names)
  {
    if withStored && IsStoredKey(p.1) && t == TableOf(p.1) && x in EntryAt(full, p).names {
      assert p in done + {p};
    } else {
      assert t in stored && x in stored[t];
      var q :| q in done && IsStoredKey(q.1) && TableOf(q.1) == t && EntryAt(full, q).Names? && x in EntryAt(full, q).names;
      assert q in done + {p};
    }
  }

  function GetList(m: map<string, seq<string>>, k: string): seq<string>
  {
    if k in m then m[k] else []
  }

  lemma StepStored(full: Docs, withStored: bool, done: set<(string, string)>, stored: map<string, seq<string>>, p: (string, string))
    requires done <= DocPairs(full) && p in DocPairs(full) && p !in done
    requires StoredFrom(full, withStored, done, stored)
    requires withStored && IsStoredKey(p.1) ==> EntryAt(full, p).Names?
    ensures StoredFrom(full, withStored, done + {p},
      if withStored && IsStoredKey(p.1)
      then stored[TableOf(p.1) := GetList(stored, TableOf(p.1)) + EntryAt(full, p).names]
      else stored)
  {
    var t0 := TableOf(p.1);
    var added := withStored && IsStoredKey(p.1);
    var stored' := if added then stored[t0 := GetList(stored, t0) + EntryAt(full, p).names] else stored;
    var done' := done + {p};
    forall t, x | t in stored' && x in stored'[t]
      ensures exists q :: (q in done' && IsStoredKey(q.1) && TableOf(q.1) == t && EntryAt(full, q).Names?
                           && x in EntryAt(full, q).names)
    {
      StoredWitness(full, withStored, done, stored, p, t, x);
    }
    forall t
      ensures t in stored' <==> withStored && exists q :: q in done' && IsStoredKey(q.1) && TableOf(q.1) == t
    {
      StoredTable(full, withStored, done, stored, p, t);
    }
    forall q, x | q in done' && withStored && IsStoredKey(q.1) && EntryAt(full, q).Names? && x in EntryAt(full, q).names
      ensures TableOf(q.1) in stored' && x in stored'[TableOf(q.1)]
    {
      StoredCovers(full, withStored, done, stored, p, q, x);
    }
    forall t
      ensures multiset(GetList(stored', t)) == StoredBag(full, withStored, done', t)
    {
      StoredBagStep(full, withStored, done, stored, p, t);
    }
  }

  lemma StoredBagStep(full: Docs, withStored: bool, done: set<(string, string)>, stored: map<string, seq<string>>,
                      p: (string, string), t: string)
    requires done <= DocPairs(full) && p in DocPairs(full) && p !in done
    requires multiset(GetList(stored, t)) == StoredBag(full, withStored, done, t)
    requires withStored && IsStoredKey(p.1) ==> EntryAt(full, p).Names?
    ensures var stored' := if withStored && IsStoredKey(p.1)
                           then stored[TableOf(p.1) := GetList(stored, TableOf(p.1)) + EntryAt(full, p).names]
                           else stored;
      multiset(GetList(stored', t)) == StoredBag(full, withStored, done + {p}, t)
  {
    StoredBagRemove(full, withStored, done + {p}, t, p);
    assert done + {p} - {p} == done;
  }

  lemma StoredTable(full: Docs, withStored: bool, done: set<(string, string)>, stored: map<string, seq<string>>,
                    p: (string, string), t: string)
    requires done <= DocPairs(full) && p in DocPairs(full) && p !in done
    requires StoredFrom(full, withStored, done, stored)
    requires withStored && IsStoredKey(p.1) ==> EntryAt(full, p).Names?
    ensures var stored' := if withStored && IsStoredKey(p.1)
                           then stored[TableOf(p.1) := GetList(stored, TableOf(p.1)) + EntryAt(full, p).names]
                           else stored;
      t in stored' <==> withStored && exists q :: q in done + {p} && IsStoredKey(q.1) && TableOf(q.1) == t
  {
    if withStored && IsStoredKey(p.1) && t == TableOf(p.1) {
      assert p in done + {p};
    } else if withStored && exists q :: q in done + {p} && IsStoredKey(q.1) && TableOf(q.1) == t {
      var q :| q in done + {p} && IsStoredKey(q.1) && TableOf(q.1) == t;
      assert q in done;
    }
  }

  lemma StoredCovers(full: Docs, withStored: bool, done: set<(string, string)>, stored: map<string, seq<string>>,
                     p: (string, string), q: (string, string), x: string)
    requires done <= DocPairs(full) && p in DocPairs(full) && p !in done
    requires StoredFrom(full, withStored, done, stored)
    requires withStored && IsStoredKey(p.1) ==> EntryAt(full, p).Names?
    requires q in done + {p} && withStored && IsStoredKey(q.1) && EntryAt(full, q).Names? && x in EntryAt(full, q).names
    ensures var stored' := if withStored && IsStoredKey(p.1)
                           then stored[TableOf(p.1) := GetList(stored, TableOf(p.1)) + EntryAt(full, p).names]
                           else stored;
      TableOf(q.1) in stored' && x in stored'[TableOf(q.1)]
  {
    if q != p && IsStoredKey(p.1) && TableOf(q.1) == TableOf(p.1) {
      assert x in GetList(stored, TableOf(p.1));
    }
  }

  lemma CollectStep(full: Docs, withStored: bool, done: set<(string, string)>, meta: Metadata, p: (string, string))
    requires CollectedPairs(full, withStored, done, meta)
    requires p in DocPairs(full) && p !in done
    ensures MetadataStep(meta, p.1, EntryAt(full, p), withStored).Err? <==> StepFails(full, p, withStored)
    ensures MetadataStep(meta, p.1, EntryAt(full, p), withStored).Ok? ==>
      CollectedPairs(full, withStored, done + {p}, MetadataStep(meta, p.1, EntryAt(full, p), withStored).value)
  {
    if !StepFails(full, p, withStored) {
      StepDiscriminators(full, done, meta.discriminators, p);
      StepStored(full, withStored, done, meta.storedFields, p);
    }
  }

  /** The (module, key) pairs of the dictionary module `addon`. */
  function ModulePairs(full: Docs, addon: string): (r: set<(string, string)>)
    requires addon in full && full[addon].Columns?
    ensures r <= DocPairs(full)
    ensures forall p :: p in r <==> p in DocPairs(full) && p.0 == addon
  {
    set k | k in full[addon].entries :: (addon, k)
  }

  /**
   * The inner loop of the metadata collection over the items of one dictionary module, in any
   * order: it fails exactly when one of its items fails, and otherwise adds every item of the
   * module to the collected metadata.
   */
  method CollectModule(full: Docs, withStored: bool, addon: string, meta: Metadata, ghost done: set<(string, string)>)
    returns (r: Result<Metadata>)
    requires addon in full && full[addon].Columns?
    requires CollectedPairs(full, withStored, done, meta)
    requires forall p :: p in done ==> p.0 != addon
    ensures r.Err? <==> exists p :: p in ModulePairs(full, addon) && StepFails(full, p, withStored)
    ensures r.Ok? ==> CollectedPairs(full, withStored, done + ModulePairs(full, addon), r.value)
  {
    var entries := full[addon].entries;
    var keys := entries.Keys;
    var acc := meta;
    ghost var seen := done;
    while keys != {}
      invariant keys <= entries.Keys
      invariant CollectedPairs(full, withStored, seen, acc)
      invariant forall p :: p in seen <==> p in done || (p.0 == addon && p.1 in entries && p.1 !in keys)
      decreases |keys|
    {
      var key :| key in keys;
      keys := keys - {key};
      var p := (addon, key);
      assert p in DocPairs(full) && p !in seen;
      CollectStep(full, withStored, seen, acc, p);
      var step := MetadataStep(acc, key, entries[key], withStored);
      if step.Err? {
        assert p in ModulePairs(full, addon);
        return Err(step.error);
      }
      acc := step.value;
      seen := seen + {p};
    }
    assert seen == done + ModulePairs(full, addon);
    return Ok(acc);
  }

  /**
   * The metadata loop of `__init__` as written: it visits every module left in the loaded
   * documents, and one that is not a dictionary (a `__nothing_to_do__` module that is not enabled
   * keeps its marker string) fails on `.items()` with `AttributeError`.
   */
  method CollectMetadataAsWritten(full: Docs, withStored: bool) returns (r: Result<Metadata>)
    ensures (exists m :: m in full && !full[m].Columns?) ==> r.Err?
    ensures r.Ok? ==> CollectedPairs(full, withStored, DocPairs(full), r.value)
  {
    var meta := Metadata(map[], map[]);
    ghost var done: set<(string, string)> := {};
    var modules := full.Keys;
    while modules != {}
      invariant modules <= full.Keys
      invariant (exists m :: m in full && !full[m].Columns?) ==> exists m :: m in modules && !full[m].Columns?
      invariant CollectedPairs(full, withStored, done, meta)
      invariant forall p :: p in DocPairs(full) ==> (p in done <==> p.0 !in modules)
      decreases |modules|
    {
      var addon :| addon in modules;
      if !full[addon].Columns? {
        return Err(AttributeError);
      }
      var step := CollectModule(full, withStored, addon, meta, done);
      if step.Err? {
        return Err(step.error);
      }
      modules := modules - {addon};
      meta := step.value;
      done := done + ModulePairs(full, addon);
    }
    assert done == DocPairs(full);
    return Ok(meta);
  }

  /**
   * The metadata loop as evidently intended: `__nothing_to_do__` modules contribute nothing,
   * enabled or not. The result is the discriminator and stored lists of the dictionary modules; it
   * fails only on a module that is neither a dictionary nor the marker, or on a list key whose value
   * is not a list.
   */
  method CollectMetadata(full: Docs, withStored: bool) returns (r: Result<Metadata>)
    ensures r.Err? <==>
      (exists m :: m in full && full[m].NotAMapping?)
      || (exists p :: p in DocPairs(full) && StepFails(full, p, withStored))
    ensures r.Ok? ==> CollectedPairs(full, withStored, DocPairs(full), r.value)
  {
    var meta := Metadata(map[], map[]);
    ghost var done: set<(string, string)> := {};
    var modules := full.Keys;
    while modules != {}
      invariant modules <= full.Keys
      invariant forall m :: m in full && full[m].NotAMapping? ==> m in modules
      invariant CollectedPairs(full, withStored, done, meta)
      invariant forall p :: p in DocPairs(full) ==> (p in done <==> p.0 !in modules)
      decreases |modules|
    {
      var addon :| addon in modules;
      match full[addon]
      case NotAMapping =>
        return Err(AttributeError);
      case NothingToDo =>
        modules := modules - {addon};
        assert forall p :: p in DocPairs(full) ==> p.0 != addon;
      case Columns(entries) =>
        var step := CollectModule(full, withStored, addon, meta, done);
        if step.Err? {
          return Err(step.error);
        }
        modules := modules - {addon};
        meta := step.value;
        done := done + ModulePairs(full, addon);
    }
    assert done == DocPairs(full);
    return Ok(meta);
  }

  /**
   * A mapping file whose only enabled module is `base` and which also lists `crm` as
   * `__nothing_to_do__`: the merge keeps `crm` in the documents, so the metadata loop as written
   * reaches its marker string.
   */
  lemma NothingToDoElsewhereReachesMetadata()
    ensures var full: Docs := map["base" := Columns(map[]), "crm" := NothingToDo];
      MergeModules(full, ["base"]) == Ok((map[], full))
      && "crm" in full && !full["crm"].Columns?
  {
    var full: Docs := map["base" := Columns(map[]), "crm" := NothingToDo];
    assert ["base"][..0] == [];
    assert ColumnKeys(map[]) == {};
    assert MergeInto(map[], map[], {}) == map[];
  }

  // ---------------------------------------------------------------------------------------------
  // Lookups shared by both `get_target_column` variants

  /**
   * `{k.replace('*', column): v for k, v in partial.items()}` over the keys `keys`, visited in
   * order: when two keys give the same target the later one wins.
   */
  function ExpandKeys(partial: map<string, Compiled>, keys: seq<string>, column: string): (r: map<string, Compiled>)
    requires forall k :: k in keys ==> k in partial
    ensures forall k :: k in keys ==> Replace(k, "*", column) in r
    ensures forall t :: t in r ==>
      exists k :: k in keys && Replace(k, "*", column) == t && r[t] == partial[k]
    decreases |keys|
  {
    if keys == [] then map[]
    else
      var last := keys[|keys| - 1];
      var earlier := ExpandKeys(partial, keys[..|keys| - 1], column);
      assert forall k :: k in keys <==> k in keys[..|keys| - 1] || k == last;
      earlier[Replace(last, "*", column) := partial[last]]
  }

  /**
   * The expansion of a partial wildcard entry `table.*`: every target key with its `*` replaced by
   * the column asked for, each carrying the directive of a key it came from.
   */
  function ExpandWildcard(partial: map<string, Compiled>, column: string): (r: map<string, Compiled>)
    ensures forall k :: k in partial ==> Replace(k, "*", column) in r
    ensures forall t :: t in r ==>
      exists k :: k in partial && Replace(k, "*", column) == t && r[t] == partial[k]
  {
    var r := ExpandKeys(partial, SortedSet(partial.Keys), column);
    assert forall k :: k in partial ==> k in SortedSet(partial.Keys);
    r
  }

  // ---------------------------------------------------------------------------------------------
  // The `select max(id)` bookkeeping of `set_database_ids`, with the query results as inputs

  /** The outcome of `select max(id) from table`: no `id` column, or one row holding the maximum or NULL. */
  datatype MaxIdQuery = NoIdColumn | MaxId(max: Option<int>)

  /** `maxid and maxid[0]` followed by `or 0`: an empty table (NULL) and a maximum of 0 both give 0. */
  function Recorded(q: MaxIdQuery): int
    requires q.MaxId?
  {
    q.max.GetOr(0)
  }

  function GetId(m: map<string, int>, t: string): int
  {
    if t in m then m[t] else 0
  }

  /** `max_source_id` (or `max_target_id`) after the tables `tables` were queried in order. */
  function RecordMaxIds(start: map<string, int>, tables: seq<string>, query: string -> MaxIdQuery)
    : map<string, int>
  {
    if tables == [] then start
    else
      var last := tables[|tables| - 1];
      var earlier := RecordMaxIds(start, tables[..|tables| - 1], query);
      if query(last).MaxId? then earlier[last := Recorded(query(last))] else earlier
  }

  /**
   * A table is recorded exactly when it was queried and has an `id` column (a table without one is
   * tolerated and left out), with its maximum or 0; every other entry is unchanged.
   */
  lemma {:induction false} MaxIdsRecorded(start: map<string, int>, tables: seq<string>, query: string -> MaxIdQuery, t: string)
    ensures t in RecordMaxIds(start, tables, query) <==> t in start || (t in tables && query(t).MaxId?)
    ensures t in tables && query(t).MaxId? ==> RecordMaxIds(start, tables, query)[t] == Recorded(query(t))
    ensures !(t in tables && query(t).MaxId?) && t in start ==> RecordMaxIds(start, tables, query)[t] == start[t]
    decreases |tables|
  {
    if tables != [] {
      var prefix := tables[..|tables| - 1];
      MaxIdsRecorded(start, prefix, query, t);
      assert forall x :: x in tables <==> x in prefix || x == tables[|tables| - 1];
    }
  }
}
