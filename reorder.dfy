/**
 * The processing order of `reorder_with_discriminators`: tables whose rows are pointed to by a
 * discriminator column that is a foreign key are processed before the other tables, so that the
 * existence check of the rows pointing to them can already see their remapped ids, and
 * `ir_property` is processed last.
 */
module Reordering {
  import opened Strings

  const IrProperty: string := "ir_property"

  function GetColumns(discriminators: map<string, seq<string>>, t: string): seq<string>
  {
    if t in discriminators then discriminators[t] else []
  }

  /**
   * The tables named by `fk2update` for a discriminator column `table.column`, plus `ir_property`
   * when it is among `tables`.
   */
  function DiscriminatorTables(tables: seq<string>, discriminators: map<string, seq<string>>,
                               fk2update: map<string, string>): set<string>
  {
    (set t, c | t in discriminators && c in discriminators[t] && t + "." + c in fk2update :: fk2update[t + "." + c])
    + (if IrProperty in tables then {IrProperty} else {})
  }

  /** `[t for t in tables if t not in excluded]` */
  function Without(tables: seq<string>, excluded: set<string>): (r: seq<string>)
    ensures |r| <= |tables|
    ensures forall t :: t in r <==> t in tables && t !in excluded
  {
    if tables == [] then []
    else
      var rest := Without(tables[..|tables| - 1], excluded);
      var last := tables[|tables| - 1];
      assert forall t :: t in tables <==> t in tables[..|tables| - 1] || t == last;
      if last in excluded then rest else rest + [last]
  }

  predicate Distinct(s: seq<string>)
  {
    forall i, j :: 0 <= i < j < |s| ==> s[i] != s[j]
  }

  /**
   * The loop over the discriminator tables `ts`: `ir_property` goes to the appended part, a table
   * whose first discriminator column is itself a foreign key goes to the right of the ordered
   * part, any other table to its left. A table without discriminators of its own is dropped as
   * written (`keepUndiscriminated` false) and put to the left when kept.
   */
  function Arrange(ts: seq<string>, discriminators: map<string, seq<string>>, fk2update: map<string, string>,
                   keepUndiscriminated: bool): (seq<string>, seq<string>)
  {
    if ts == [] then ([], [])
    else
      var (ordered, appended) := Arrange(ts[..|ts| - 1], discriminators, fk2update, keepUndiscriminated);
      var t := ts[|ts| - 1];
      var columns := GetColumns(discriminators, t);
      if t == IrProperty then (ordered, appended + [t])
      else if columns == [] then (if keepUndiscriminated then [t] + ordered else ordered, appended)
      else if t + "." + columns[0] in fk2update then (ordered + [t], appended)
      else ([t] + ordered, appended)
  }

  lemma {:induction false} ArrangeFacts(ts: seq<string>, discriminators: map<string, seq<string>>,
                                        fk2update: map<string, string>, keep: bool)
    requires Distinct(ts)
    ensures var (ordered, appended) := Arrange(ts, discriminators, fk2update, keep);
      && Distinct(ordered)
      && (forall x :: x in ordered ==> x in ts && x != IrProperty)
      && (keep ==> forall x :: x in ts && x != IrProperty ==> x in ordered)
      && appended == (if IrProperty in ts then [IrProperty] else [])
  {
    if ts != [] {
      var prefix := ts[..|ts| - 1];
      assert Distinct(prefix);
      ArrangeFacts(prefix, discriminators, fk2update, keep);
      assert forall x :: x in ts <==> x in prefix || x == ts[|ts| - 1];
      var (o, a) := Arrange(prefix, discriminators, fk2update, keep);
      var t := ts[|ts| - 1];
      assert t !in prefix by {
        forall i | 0 <= i < |prefix|
          ensures prefix[i] != t
        {
          assert prefix[i] == ts[i];
        }
      }
      assert t !in o;
    }
  }

  /** `reorder_with_discriminators(tables)` as written. */
  function ReorderAsWritten(tables: seq<string>, discriminators: map<string, seq<string>>,
                            fk2update: map<string, string>): seq<string>
  {
    var dts := DiscriminatorTables(tables, discriminators, fk2update);
    var (ordered, appended) := Arrange(SortedSet(dts), discriminators, fk2update, false);
    ordered + Without(tables, dts) + appended
  }

  /**
   * As written, a table that a foreign-key discriminator points to but that has no discriminators
   * of its own is removed from the tables and never put back: with `res_users` matched on its
   * `partner_id`, the partners are not processed at all.
   */
  lemma ReorderDropsReferencedTable()
    ensures ReorderAsWritten(["res_partner", "res_users"], map["res_users" := ["partner_id"]],
                             map["res_users.partner_id" := "res_partner"]) == ["res_users"]
  {
    var tables := ["res_partner", "res_users"];
    var discriminators := map["res_users" := ["partner_id"]];
    var fk2update := map["res_users.partner_id" := "res_partner"];
    var dts := DiscriminatorTables(tables, discriminators, fk2update);
    assert "res_users" + "." + "partner_id" == "res_users.partner_id";
    assert IrProperty !in tables;
    assert dts == {"res_partner"};
    assert SortedSet(dts) == ["res_partner"];
    assert GetColumns(discriminators, "res_partner") == [];
    assert Arrange(["res_partner"], discriminators, fk2update, false) == ([], []) by {
      assert ["res_partner"][..0] == [];
    }
    assert Without(tables, dts) == ["res_users"] by {
      assert tables[..1] == ["res_partner"];
      assert tables[..1][..0] == [];
    }
  }

  /**
   * The order as evidently intended: only tables that are being processed are reordered, and a
   * pointed-to table without discriminators of its own goes to the left with the other tables
   * that have no foreign-key discriminator.
   */
  function Reorder(tables: seq<string>, discriminators: map<string, seq<string>>,
                   fk2update: map<string, string>): seq<string>
  {
    var dts := MovedTables(tables, discriminators, fk2update);
    var (ordered, appended) := Arrange(SortedSet(dts), discriminators, fk2update, true);
    ordered + (Without(tables, dts) + appended)
  }

  /** The tables `Reorder` moves to the front: pointed-to tables being processed, and `ir_property`. */
  function MovedTables(tables: seq<string>, discriminators: map<string, seq<string>>,
                       fk2update: map<string, string>): set<string>
  {
    DiscriminatorTables(tables, discriminators, fk2update) * (set t | t in tables)
  }

  /** `Reorder` is the arranged pointed-to tables, then the others in input order, then `ir_property`. */
  lemma ReorderShape(tables: seq<string>, discriminators: map<string, seq<string>>,
                     fk2update: map<string, string>)
    ensures var dts := MovedTables(tables, discriminators, fk2update);
      var ordered := Arrange(SortedSet(dts), discriminators, fk2update, true).0;
      && Distinct(ordered)
      && (forall t :: t in ordered <==> t in dts && t != IrProperty)
      && Reorder(tables, discriminators, fk2update)
         == ordered + (Without(tables, dts) + (if IrProperty in tables then [IrProperty] else []))
  {
    var dts := MovedTables(tables, discriminators, fk2update);
    var sorted := SortedSet(dts);
    SortedSetSorted(dts);
    StrictlySortedDistinct(sorted);
    ArrangeFacts(sorted, discriminators, fk2update, true);
    assert IrProperty in sorted <==> IrProperty in tables;
  }

  /** The reordered list holds exactly the input tables, and `ir_property`, when present, is last. */
  lemma ReorderKeepsTables(tables: seq<string>, discriminators: map<string, seq<string>>,
                           fk2update: map<string, string>)
    ensures var r := Reorder(tables, discriminators, fk2update);
      && (forall t :: t in r <==> t in tables)
      && (IrProperty in tables ==> r[|r| - 1] == IrProperty)
  {
    var dts := MovedTables(tables, discriminators, fk2update);
    var ordered := Arrange(SortedSet(dts), discriminators, fk2update, true).0;
    ReorderShape(tables, discriminators, fk2update);
    var tail := Without(tables, dts) + (if IrProperty in tables then [IrProperty] else []);
    forall t
      ensures t in ordered + tail <==> t in tables
    {
      assert t in ordered + tail <==> t in ordered || t in tail;
    }
  }

  /**
   * The pointed-to tables come first, each once; then the other tables follow in their input
   * order, then `ir_property` when present.
   */
  lemma ReorderPlacesMovedFirst(tables: seq<string>, discriminators: map<string, seq<string>>,
                                fk2update: map<string, string>)
    ensures var r := Reorder(tables, discriminators, fk2update);
      var dts := MovedTables(tables, discriminators, fk2update);
      var n := |dts - {IrProperty}|;
      && n <= |r|
      && Distinct(r[..n])
      && (forall t :: t in r[..n] <==> t in dts && t != IrProperty)
      && r[n..] == Without(tables, dts) + (if IrProperty in tables then [IrProperty] else [])
  {
    var dts := MovedTables(tables, discriminators, fk2update);
    var ordered := Arrange(SortedSet(dts), discriminators, fk2update, true).0;
    ReorderShape(tables, discriminators, fk2update);
    var tail := Without(tables, dts) + (if IrProperty in tables then [IrProperty] else []);
    var r := Reorder(tables, discriminators, fk2update);
    assert r == ordered + tail;
    var n := |dts - {IrProperty}|;
    DistinctCount(ordered, dts - {IrProperty});
    SplitConcat(ordered, tail);
    assert r[..n] == ordered;
    assert r[n..] == tail;
  }

  lemma SplitConcat(a: seq<string>, b: seq<string>)
    ensures (a + b)[..|a|] == a && (a + b)[|a|..] == b
  {
  }

  /** A list without repetitions that enumerates a set has as many elements as the set. */
  lemma DistinctCount(s: seq<string>, d: set<string>)
    requires Distinct(s)
    requires forall x :: x in s <==> x in d
    ensures |s| == |d|
  {
    assert (set x | x in s) == d;
    DistinctCardinality(s);
  }

  lemma {:induction false} DistinctCardinality(s: seq<string>)
    requires Distinct(s)
    ensures |set x | x in s| == |s|
  {
    if s != [] {
      var prefix := s[..|s| - 1];
      assert Distinct(prefix);
      DistinctCardinality(prefix);
      var last := s[|s| - 1];
      assert last !in prefix by {
        forall i | 0 <= i < |prefix|
          ensures prefix[i] != last
        {
          assert prefix[i] == s[i];
        }
      }
      assert (set x | x in s) == (set x | x in prefix) + {last};
    }
  }
}
