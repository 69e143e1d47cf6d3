/**
 * The bulk-load scheduler: loads the postprocessed `.target2.csv` files into the target database.
 * Without dropped constraints it retries every pending file in passes until a pass loads nothing
 * (the foreign-key errors of the store act as the ordering oracle); with dropped constraints it
 * loads every file once, in sorted order, and rolls the whole import back on the first error.
 *
 * `COPY` itself is an oracle: whether loading a file succeeds depends on the file and on the files
 * loaded so far (a failed load is rolled back to the savepoint and leaves no trace).
 */
module Importing {
  import opened Strings
  import SqlCommands

  /** What the store reports for one `COPY`; the source logs the kind and treats all failures alike. */
  datatype LoadOutcome =
    | Loaded
    | ForeignKeyViolation(table: string)
    | MissingColumn(column: string)
    | OtherError

  /** `COPY` of a file, given the files whose rows are already in the target, in load order. */
  type LoadOracle = (string, seq<string>) -> LoadOutcome

  /** A file renamed on disk, recorded instead of performed. */
  datatype Rename = Rename(source: string, target: string)

  /** `reorder_filepaths`: a fresh copy of the list, in the same order. */
  function ReorderFilepaths(filepaths: seq<string>): (r: seq<string>)
    ensures r == filepaths
  {
    filepaths[..]
  }

  // ---------------------------------------------------------------------------------------------
  // List helpers

  /** `list.remove(x)`: drops the first occurrence of `x`. */
  function RemoveFirst(s: seq<string>, x: string): (r: seq<string>)
    ensures x in s ==> multiset(r) == multiset(s) - multiset{x} && |r| == |s| - 1
    ensures x !in s ==> r == s
  {
    if s == [] then []
    else if s[0] == x then
      assert s == [s[0]] + s[1..];
      s[1..]
    else
      assert s == [s[0]] + s[1..];
      [s[0]] + RemoveFirst(s[1..], x)
  }

  /** `sub` is obtained from `s` by deleting elements, keeping the order of the others. */
  predicate IsSubsequence(sub: seq<string>, s: seq<string>)
    decreases |s|
  {
    if sub == [] then true
    else if s == [] then false
    else if sub[0] == s[0] then IsSubsequence(sub[1..], s[1..])
    else IsSubsequence(sub, s[1..])
  }

  lemma {:induction false} SubsequenceReflexive(s: seq<string>)
    ensures IsSubsequence(s, s)
    decreases |s|
  {
    if s != [] {
      SubsequenceReflexive(s[1..]);
    }
  }

  lemma {:induction false} RemoveFirstSubsequence(s: seq<string>, x: string)
    ensures IsSubsequence(RemoveFirst(s, x), s)
    decreases |s|
  {
    if s != [] {
      if s[0] == x {
        SubsequenceReflexive(s[1..]);
        SubsequenceWeaken(s[1..], s);
      } else {
        RemoveFirstSubsequence(s[1..], x);
      }
    }
  }

  /** A subsequence of the tail is a subsequence of the whole list. */
  lemma {:induction false} SubsequenceWeaken(sub: seq<string>, s: seq<string>)
    requires s != [] && IsSubsequence(sub, s[1..])
    ensures IsSubsequence(sub, s)
    decreases |s| + |sub|
  {
    if sub != [] && sub[0] == s[0] {
      SubsequenceDropHead(sub, s[1..]);
    }
  }

  /** Dropping the first element of a subsequence keeps it a subsequence. */
  lemma {:induction false} SubsequenceDropHead(sub: seq<string>, s: seq<string>)
    requires sub != [] && IsSubsequence(sub, s)
    ensures IsSubsequence(sub[1..], s)
    decreases |s| + |sub|
  {
    if sub[0] == s[0] {
      SubsequenceWeaken(sub[1..], s);
    } else {
      SubsequenceDropHead(sub, s[1..]);
      SubsequenceWeaken(sub[1..], s);
    }
  }

  lemma {:induction false} SubsequenceTransitive(a: seq<string>, b: seq<string>, c: seq<string>)
    requires IsSubsequence(a, b) && IsSubsequence(b, c)
    ensures IsSubsequence(a, c)
    decreases |c|
  {
    if a != [] {
      assert b != [] && c != [];
      if b[0] == c[0] {
        if a[0] == b[0] {
          SubsequenceTransitive(a[1..], b[1..], c[1..]);
        } else {
          SubsequenceTransitive(a, b[1..], c[1..]);
        }
      } else {
        SubsequenceTransitive(a, b, c[1..]);
        if a[0] == c[0] {
          SubsequenceDropHead(a, c[1..]);
        }
      }
    }
  }

  // ---------------------------------------------------------------------------------------------
  // Slow import: the brute-force loop of `__run_slow_import`

  /**
   * One pass over `paths` (a snapshot of the pending list): each file is loaded in turn against the
   * files loaded so far; a success removes it from `remaining`, a failure leaves it pending and the
   * pass goes on with the next file.
   */
  function Pass(paths: seq<string>, remaining: seq<string>, loaded: seq<string>, load: LoadOracle)
    : (seq<string>, seq<string>)
  {
    if paths == [] then (remaining, loaded)
    else if load(paths[0], loaded) == Loaded then
      Pass(paths[1..], RemoveFirst(remaining, paths[0]), loaded + [paths[0]], load)
    else Pass(paths[1..], remaining, loaded, load)
  }

  /** A pass only removes pending files; it never reorders them. */
  lemma {:induction false} PassSubsequence(paths: seq<string>, remaining: seq<string>, loaded: seq<string>, load: LoadOracle)
    ensures IsSubsequence(Pass(paths, remaining, loaded, load).0, remaining)
    decreases |paths|
  {
    if paths == [] {
      SubsequenceReflexive(remaining);
    } else if load(paths[0], loaded) == Loaded {
      var r1 := RemoveFirst(remaining, paths[0]);
      PassSubsequence(paths[1..], r1, loaded + [paths[0]], load);
      RemoveFirstSubsequence(remaining, paths[0]);
      SubsequenceTransitive(Pass(paths, remaining, loaded, load).0, r1, remaining);
    } else {
      PassSubsequence(paths[1..], remaining, loaded, load);
    }
  }

  /** A pass appends to the load history and leaves the history before it as it was. */
  lemma {:induction false} PassExtends(paths: seq<string>, remaining: seq<string>, loaded: seq<string>, load: LoadOracle)
    ensures |Pass(paths, remaining, loaded, load).1| >= |loaded|
    ensures Pass(paths, remaining, loaded, load).1[..|loaded|] == loaded
    decreases |paths|
  {
    if paths != [] {
      var p := paths[0];
      if load(p, loaded) == Loaded {
        var r1 := RemoveFirst(remaining, p);
        PassExtends(paths[1..], r1, loaded + [p], load);
        HistoryPrefix(loaded, p, Pass(paths[1..], r1, loaded + [p], load).1);
      } else {
        PassExtends(paths[1..], remaining, loaded, load);
      }
    }
  }

  lemma HistoryPrefix(loaded: seq<string>, p: string, history: seq<string>)
    requires |history| >= |loaded| + 1 && history[..|loaded| + 1] == loaded + [p]
    ensures history[..|loaded|] == loaded
    ensures history[|loaded|..] == [p] + history[|loaded| + 1..]
  {
    assert history[..|loaded|] == history[..|loaded| + 1][..|loaded|];
    assert history[|loaded|] == history[..|loaded| + 1][|loaded|];
  }

  /**
   * Every file a pass removes from the pending list is one it appended to the history: pending and
   * newly loaded files together are the files pending before.
   */
  lemma {:induction false} PassConserves(paths: seq<string>, remaining: seq<string>, loaded: seq<string>, load: LoadOracle)
    requires multiset(paths) <= multiset(remaining)
    ensures |Pass(paths, remaining, loaded, load).1| >= |loaded|
    ensures multiset(Pass(paths, remaining, loaded, load).0)
      + multiset(Pass(paths, remaining, loaded, load).1[|loaded|..]) == multiset(remaining)
    decreases |paths|
  {
    PassExtends(paths, remaining, loaded, load);
    if paths != [] {
      var p := paths[0];
      assert paths == [p] + paths[1..];
      assert p in multiset(remaining);
      if load(p, loaded) == Loaded {
        var r1 := RemoveFirst(remaining, p);
        assert multiset(paths[1..]) <= multiset(r1);
        PassConservesLoaded(paths, remaining, loaded, load, r1);
      } else {
        PassConserves(paths[1..], remaining, loaded, load);
      }
    }
  }

  /** The case of `PassConserves` where the first file loads: it moves from pending to loaded. */
  lemma {:induction false} PassConservesLoaded(paths: seq<string>, remaining: seq<string>, loaded: seq<string>,
                                               load: LoadOracle, r1: seq<string>)
    requires paths != [] && paths[0] in remaining && multiset(paths[1..]) <= multiset(r1)
    requires load(paths[0], loaded) == Loaded
    requires multiset(r1) == multiset(remaining) - multiset{paths[0]}
    requires r1 == RemoveFirst(remaining, paths[0])
    ensures |Pass(paths, remaining, loaded, load).1| >= |loaded|
    ensures multiset(Pass(paths, remaining, loaded, load).0)
      + multiset(Pass(paths, remaining, loaded, load).1[|loaded|..]) == multiset(remaining)
    decreases |paths|, 0
  {
    var p := paths[0];
    var next := Pass(paths[1..], r1, loaded + [p], load);
    assert Pass(paths, remaining, loaded, load) == next;
    PassConserves(paths[1..], r1, loaded + [p], load);
    PassExtends(paths[1..], r1, loaded + [p], load);
    HistoryPrefix(loaded, p, next.1);
    assert |loaded + [p]| == |loaded| + 1;
    MultisetMove(remaining, r1, p, next.0, next.1[|loaded|..], next.1[|loaded| + 1..]);
  }

  lemma MultisetMove(remaining: seq<string>, r1: seq<string>, p: string, pending: seq<string>,
                     moved: seq<string>, tail: seq<string>)
    requires p in remaining && multiset(r1) == multiset(remaining) - multiset{p}
    requires multiset(pending) + multiset(tail) == multiset(r1) && moved == [p] + tail
    ensures multiset(pending) + multiset(moved) == multiset(remaining)
  {
    assert multiset(moved) == multiset{p} + multiset(tail);
    assert p in multiset(remaining);
    assert multiset(remaining) == multiset(r1) + multiset{p};
  }

  /** A pass that removes nothing loaded nothing: every file it tried failed against the same history. */
  lemma {:induction false} PassNoProgress(paths: seq<string>, remaining: seq<string>, loaded: seq<string>, load: LoadOracle)
    requires multiset(paths) <= multiset(remaining)
    requires |Pass(paths, remaining, loaded, load).0| == |remaining|
    ensures Pass(paths, remaining, loaded, load).1 == loaded
    ensures forall p :: p in paths ==> load(p, loaded) != Loaded
    decreases |paths|
  {
    if paths != [] {
      var p := paths[0];
      assert paths == [p] + paths[1..];
      assert p in multiset(remaining);
      if load(p, loaded) == Loaded {
        var r1 := RemoveFirst(remaining, p);
        PassSubsequence(paths[1..], r1, loaded + [p], load);
        SubsequenceLength(Pass(paths[1..], r1, loaded + [p], load).0, r1);
        assert false;
      } else {
        PassNoProgress(paths[1..], remaining, loaded, load);
      }
    }
  }

  lemma {:induction false} SubsequenceLength(sub: seq<string>, s: seq<string>)
    requires IsSubsequence(sub, s)
    ensures |sub| <= |s|
    decreases |s|
  {
    if sub != [] {
      if sub[0] == s[0] {
        SubsequenceLength(sub[1..], s[1..]);
      } else {
        SubsequenceLength(sub, s[1..]);
      }
    }
  }

  /** `filename.replace('.target2.csv', '.update2.csv')`: the update file that goes with a target file. */
  function UpdateCompanion(targetFile: string): string
  {
    Replace(targetFile, ".target2.csv", ".update2.csv")
  }

  /** The renames done when the slow import is stuck: each pending file's update file gets `.disabled`. */
  method DisableUpdateFiles(remaining: seq<string>) returns (renames: seq<Rename>)
    ensures |renames| == |remaining|
    ensures forall i :: 0 <= i < |renames| ==>
      renames[i].source == UpdateCompanion(remaining[i]) && renames[i].target == renames[i].source + ".disabled"
  {
    renames := [];
    for i := 0 to |remaining|
      invariant |renames| == i
      invariant forall j :: 0 <= j < i ==>
        renames[j].source == UpdateCompanion(remaining[j]) && renames[j].target == renames[j].source + ".disabled"
    {
      var updateFile := UpdateCompanion(remaining[i]);
      renames := renames + [Rename(updateFile, updateFile + ".disabled")];
    }
  }

  /**
   * `__run_slow_import`: passes over the pending files until none is left or a pass loads nothing.
   * `history` is the load history of the target before the import starts.
   */
  method RunSlowImport(filepaths: seq<string>, load: LoadOracle, history: seq<string>)
    returns (remaining: seq<string>, loaded: seq<string>, renames: seq<Rename>, ghost iterations: nat)
    ensures IsSubsequence(remaining, filepaths)
    ensures |loaded| >= |history| && loaded[..|history|] == history
    ensures multiset(remaining) + multiset(loaded[|history|..]) == multiset(filepaths)
    ensures iterations <= |filepaths|
    ensures remaining != [] ==> forall p :: p in remaining ==> load(p, loaded) != Loaded
    ensures |renames| == |remaining|
    ensures forall i :: 0 <= i < |renames| ==>
      renames[i].source == UpdateCompanion(remaining[i]) && renames[i].target == renames[i].source + ".disabled"
  {
    remaining := ReorderFilepaths(filepaths);
    loaded := history;
    renames := [];
    iterations := 0;
    SubsequenceReflexive(filepaths);
    while remaining != []
      invariant IsSubsequence(remaining, filepaths)
      invariant |loaded| >= |history| && loaded[..|history|] == history
      invariant multiset(remaining) + multiset(loaded[|history|..]) == multiset(filepaths)
      invariant iterations + |remaining| <= |filepaths|
      invariant renames == []
      decreases |remaining|
    {
      iterations := iterations + 1;
      var paths := remaining[..];
      ghost var before, loadedBefore := remaining, loaded;
      for i := 0 to |paths|
        invariant Pass(paths, before, loadedBefore, load) == Pass(paths[i..], remaining, loaded, load)
      {
        assert paths[i..] == [paths[i]] + paths[i + 1..];
        var path := paths[i];
        if load(path, loaded) == Loaded {
          remaining := RemoveFirst(remaining, path);
          loaded := loaded + [path];
        }
      }
      assert paths[|paths|..] == [];
      PassSubsequence(paths, before, loadedBefore, load);
      PassExtends(paths, before, loadedBefore, load);
      PassConserves(paths, before, loadedBefore, load);
      SubsequenceTransitive(remaining, before, filepaths);
      assert loaded[|history|..] == loadedBefore[|history|..] + loaded[|loadedBefore|..];
      if |paths| == |remaining| {
        PassNoProgress(paths, before, loadedBefore, load);
        assert loaded[|loadedBefore|..] == [];
        assert multiset(remaining) == multiset(paths);
        assert forall p :: p in remaining ==> p in multiset(paths);
        // stuck: disable the update files of the tables that could not be loaded
        renames := DisableUpdateFiles(remaining);
        break;
      }
      SubsequenceLength(remaining, before);
    }
  }

  // ---------------------------------------------------------------------------------------------
  // Fast import (constraints dropped) and the entry point

  /** Whether loading `files` one after the other, starting from `history`, succeeds throughout. */
  predicate LoadsInOrder(files: seq<string>, history: seq<string>, load: LoadOracle)
    decreases |files|
  {
    files == [] || (load(files[0], history) == Loaded && LoadsInOrder(files[1..], history + [files[0]], load))
  }

  /**
   * `__run_fast_import`: loads every file once in sorted order; the first failure raises out of the
   * loop (`raised`), with the files loaded so far in `loaded`.
   */
  method RunFastImport(filepaths: seq<string>, load: LoadOracle, history: seq<string>)
    returns (raised: bool, loaded: seq<string>)
    ensures !raised <==> LoadsInOrder(Sort(filepaths), history, load)
    ensures !raised ==> loaded == history + Sort(filepaths)
  {
    var ordered := Sort(filepaths);
    loaded := history;
    raised := false;
    var i := 0;
    while i < |ordered|
      invariant 0 <= i <= |ordered|
      invariant loaded == history + ordered[..i]
      invariant LoadsInOrder(ordered, history, load) <==> LoadsInOrder(ordered[i..], loaded, load)
    {
      assert ordered[i..][1..] == ordered[i + 1..];
      if load(ordered[i], loaded) != Loaded {
        raised := true;
        return;
      }
      loaded := loaded + [ordered[i]];
      assert ordered[..i + 1] == ordered[..i] + [ordered[i]];
      i := i + 1;
    }
    assert ordered[..i] == ordered;
  }

  /**
   * `import_from_csv`: sets the savepoint, then imports fast (constraints dropped) or slowly.
   * Returns the files left unloaded, the resulting load history of the target, the statements
   * sent for the initial savepoint and the renames done when the slow import got stuck.
   */
  method ImportFromCsv(filepaths: seq<string>, dropFk: bool, load: LoadOracle, history: seq<string>)
    returns (remaining: seq<string>, loaded: seq<string>, savepoint: seq<string>, renames: seq<Rename>)
    ensures savepoint == ["SAVEPOINT savepoint"]
    ensures dropFk ==> renames == []
    ensures dropFk && LoadsInOrder(Sort(filepaths), history, load) ==>
      remaining == [] && loaded == history + Sort(filepaths)
    ensures dropFk && !LoadsInOrder(Sort(filepaths), history, load) ==>
      remaining == filepaths && loaded == history
    ensures !dropFk ==> IsSubsequence(remaining, filepaths)
    ensures !dropFk ==> remaining != [] ==> forall p :: p in remaining ==> load(p, loaded) != Loaded
    ensures !dropFk ==> |loaded| >= |history| && loaded[..|history|] == history
    ensures !dropFk ==> multiset(remaining) + multiset(loaded[|history|..]) == multiset(filepaths)
    ensures !dropFk ==> |renames| == |remaining|
    ensures !dropFk ==> forall i :: 0 <= i < |renames| ==>
      renames[i].source == UpdateCompanion(remaining[i]) && renames[i].target == renames[i].source + ".disabled"
  {
    savepoint := SqlCommands.MakeSavepoint(SqlCommands.DefaultSavepoint);
    SqlCommands.DefaultSavepointIssued();
    if dropFk {
      var raised;
      raised, loaded := RunFastImport(filepaths, load, history);
      renames := [];
      if raised {
        // ROLLBACK TO savepoint: the files loaded before the failure are undone
        remaining, loaded := filepaths, history;
      } else {
        remaining := [];
      }
    } else {
      ghost var iterations;
      remaining, loaded, renames, iterations := RunSlowImport(filepaths, load, history);
    }
  }
}
