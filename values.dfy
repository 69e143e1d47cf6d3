/**
 * The Python values that flow through the row processor: CSV cells (strings), fresh ids and
 * offsets (integers), the `None` of the synthetic `_` column and whatever a user mapping function
 * returns, together with the conversions the processor applies to them.
 */
module PyValues {
  import opened Wrappers
  import opened Strings

  datatype Value = Text(s: string) | Number(n: int) | Null | Flag(b: bool)

  /** A row keyed by column name, as a Python dict. */
  type Row = map<string, Value>

  /** The sentinel a user function returns to drop its whole target row. */
  const ForgetRowSentinel: string := "__forget_row__"

  /** Python truthiness. */
  predicate Truthy(v: Value)
  {
    match v
    case Text(s) => s != ""
    case Number(n) => n != 0
    case Null => false
    case Flag(b) => b
  }

  /** `any(row.values())` */
  predicate AnyTruthy(row: Row)
  {
    exists k :: k in row && Truthy(row[k])
  }

  /** `all(row.values())` */
  predicate AllTruthy(row: Row)
  {
    forall k :: k in row ==> Truthy(row[k])
  }

  /** `int(v)`: a string must read as a decimal integer (surrounding whitespace allowed). */
  function PyInt(v: Value): (r: Result<int>)
    ensures v.Number? ==> r == Ok(v.n)
    ensures v.Text? ==> (r.Ok? <==> ParseInt(v.s).Some?) && (r.Ok? ==> r.value == ParseInt(v.s).value)
    ensures v.Null? ==> r == Err(TypeError)
    ensures r.Err? ==> r.error == ValueError || r.error == TypeError
  {
    match v
    case Text(s) => if ParseInt(s).Some? then Ok(ParseInt(s).value) else Err(ValueError)
    case Number(n) => Ok(n)
    case Null => Err(TypeError)
    case Flag(b) => Ok(if b then 1 else 0)
  }

  /** `str(v)` */
  function Str(v: Value): string
  {
    match v
    case Text(s) => s
    case Number(n) => IntToString(n)
    case Null => "None"
    case Flag(b) => if b then "True" else "False"
  }

  /** What `csv.DictWriter` writes for a value: `None` becomes the empty cell. */
  function CsvCell(v: Value): string
  {
    if v.Null? then "" else Str(v)
  }

  /** An integer written to a CSV file and read back as an integer is unchanged. */
  lemma IntRoundTrip(n: int)
    ensures PyInt(Text(CsvCell(Number(n)))) == Ok(n)
  {
    ParseIntToString(n);
  }

  /** A row written by `csv.DictWriter` with header `columns` and read back by `csv.DictReader`. */
  function RoundTrip(row: Row, columns: seq<string>): (r: map<string, string>)
    ensures r.Keys == set c | c in columns
    ensures forall c :: c in columns && c in row ==> r[c] == CsvCell(row[c])
    ensures forall c :: c in columns && c !in row ==> r[c] == ""
  {
    map c | c in columns :: if c in row then CsvCell(row[c]) else ""
  }

  /** A record of the target database as `extract_existing` returns it: its id and other columns. */
  datatype Existing = Existing(id: int, fields: map<string, Value>)

  /** `{k: str(v) for k, v in nt.iteritems() if k != 'id'}` */
  function WithoutId(rec: Existing): (r: Row)
    ensures "id" !in r
    ensures forall k :: k in r <==> k in rec.fields && k != "id"
    ensures forall k :: k in r ==> r[k] == Text(Str(rec.fields[k]))
  {
    map k | k in rec.fields && k != "id" :: Text(Str(rec.fields[k]))
  }

  function WithoutIds(records: seq<Existing>): (r: seq<Row>)
    ensures |r| == |records|
    ensures forall i :: 0 <= i < |records| ==> r[i] == WithoutId(records[i])
  {
    seq(|records|, i requires 0 <= i < |records| => WithoutId(records[i]))
  }

  function GetRows<K, V>(m: map<K, seq<V>>, k: K): seq<V>
  {
    if k in m then m[k] else []
  }

  function GetIds(m: map<string, map<int, int>>, t: string): map<int, int>
  {
    if t in m then m[t] else map[]
  }
}
