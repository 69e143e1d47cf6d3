/**
 * The SQL-identifier guard of the migration tool: names that are spliced into SQL text (database
 * names, savepoint names, temporary tables) must consist of ASCII letters, digits and '_'.
 */
module SqlCommands {

  /** Python 2 `c.isalnum()` on a byte: an ASCII letter or digit. */
  predicate IsAlnum(c: char)
  {
    'a' <= c <= 'z' || 'A' <= c <= 'Z' || '0' <= c <= '9'
  }

  predicate IsIdentChar(c: char)
  {
    IsAlnum(c) || c == '_'
  }

  /** Python 2 `s.isalnum()`: false on the empty string, else every character alphanumeric. */
  predicate StrIsAlnum(s: string)
  {
    |s| > 0 && forall i :: 0 <= i < |s| ==> IsAlnum(s[i])
  }

  /** `all([l.isalnum() or l == '_' for l in name])`, evaluated character by character. */
  predicate AllIdentChars(name: string)
  {
    name == [] || (IsIdentChar(name[0]) && AllIdentChars(name[1..]))
  }

  /** `validate_identifiers(name)`: the fast path accepts alphanumeric names, the slow path also '_'. */
  predicate ValidateIdentifiers(name: string)
  {
    if !StrIsAlnum(name) then AllIdentChars(name) else true
  }

  lemma {:induction false} AllIdentCharsIff(name: string)
    ensures AllIdentChars(name) <==> forall i :: 0 <= i < |name| ==> IsIdentChar(name[i])
  {
    if name != [] {
      AllIdentCharsIff(name[1..]);
      assert forall i :: 1 <= i < |name| ==> name[i] == name[1..][i - 1];
    }
  }

  /** A name is accepted exactly when every character is an ASCII letter, a digit or '_'. */
  lemma ValidateIdentifiersIff(name: string)
    ensures ValidateIdentifiers(name) <==> forall i :: 0 <= i < |name| ==> IsIdentChar(name[i])
  {
    AllIdentCharsIff(name);
  }

  /** The empty name is accepted: `''.isalnum()` is false but `all([])` is true. */
  lemma EmptyNameAccepted()
    ensures ValidateIdentifiers("")
    ensures !StrIsAlnum("")
  {
  }

  /** Checking `a + b` in one call, as `create_new_db` does, checks both names. */
  lemma ValidateConcatenation(a: string, b: string)
    ensures ValidateIdentifiers(a + b) <==> ValidateIdentifiers(a) && ValidateIdentifiers(b)
  {
    ValidateIdentifiersIff(a);
    ValidateIdentifiersIff(b);
    ValidateIdentifiersIff(a + b);
    if ValidateIdentifiers(a + b) {
      forall i | 0 <= i < |a|
        ensures IsIdentChar(a[i])
      {
        assert (a + b)[i] == a[i];
      }
      forall i | 0 <= i < |b|
        ensures IsIdentChar(b[i])
      {
        assert (a + b)[|a| + i] == b[i];
      }
    }
    if ValidateIdentifiers(a) && ValidateIdentifiers(b) {
      forall i | 0 <= i < |a + b|
        ensures IsIdentChar((a + b)[i])
      {
        if i < |a| {
          assert (a + b)[i] == a[i];
        } else {
          assert (a + b)[i] == b[i - |a|];
        }
      }
    }
  }

  /**
   * `make_savepoint(c, name)`: the statements sent to the cursor; the `SAVEPOINT` is issued only
   * when the name validates.
   */
  function MakeSavepoint(name: string): (executed: seq<string>)
    ensures |executed| <= 1
    ensures executed != [] <==> forall i :: 0 <= i < |name| ==> IsIdentChar(name[i])
    ensures executed != [] ==> executed[0] == "SAVEPOINT " + name
  {
    ValidateIdentifiersIff(name);
    if ValidateIdentifiers(name) then ["SAVEPOINT " + name] else []
  }

  const DefaultSavepoint: string := "savepoint"

  /** The name the importer always uses validates, so every import step sets its savepoint. */
  lemma DefaultSavepointIssued()
    ensures MakeSavepoint(DefaultSavepoint) == ["SAVEPOINT savepoint"]
  {
    var name := DefaultSavepoint;
    assert name == ['s', 'a', 'v', 'e', 'p', 'o', 'i', 'n', 't'];
    assert forall i :: 0 <= i < |name| ==> IsAlnum(name[i]);
    assert ValidateIdentifiers(name);
    assert "SAVEPOINT " + name == "SAVEPOINT savepoint";
  }
}
