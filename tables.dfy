/** Tables of the FIA loaders. A long table is what a state's parquet file
    holds: numeric columns, one record per condition and inventory year.
    A loaded table has labelled columns; a label is a plain name or, for
    the columns of the wide reshape, a variable name with an observation
    number (`INVYR_1` is `Indexed("INVYR", 1)`). */
module Tables {
  import opened Values

  /** A parquet record: column name to value; a column the record lacks
      reads as NaN. */
  type Record = map<string, Value>

  datatype LongTable = LongTable(columns: seq<string>, rows: seq<Record>)

  /** Every record holds every column of its table. */
  predicate WellFormed(t: LongTable)
  {
    forall i, c :: 0 <= i < |t.rows| && c in t.columns ==> c in t.rows[i]
  }

  function Get(r: Record, column: string): Value
  {
    if column in r then r[column] else None
  }

  datatype Label = Named(name: string) | Indexed(name: string, k: nat)

  datatype Cell = Num(v: Value) | Text(s: string)

  /** A row of a loaded table: its index values and its cells; a label the
      row lacks reads as NaN, which is how concatenation fills the columns
      a table does not have. */
  datatype Row = Row(index: seq<Value>, cells: map<Label, Cell>)

  function Lookup(r: Row, l: Label): Cell
  {
    if l in r.cells then r.cells[l] else Num(None)
  }

  datatype Table = Table(columns: seq<Label>, rows: seq<Row>)

  datatype LoadError =
    | MissingFile(key: string)      // no parquet file for the state
    | KeyError(column: string)      // a column the loader reads is absent
    | NothingToConcatenate          // `pd.concat([])`
    | DuplicateLabels               // ValueError: `.filter` on a repeated column label

  /** The first of `needed` that is not a column, in the order the loader
      reads them. */
  function FirstMissing(needed: seq<string>, columns: seq<string>): (m: Option<string>)
    ensures m.None? <==> forall i :: 0 <= i < |needed| ==> needed[i] in columns
    ensures m.Some? ==> m.value in needed && m.value !in columns
  {
    if needed == [] then None
    else if needed[0] !in columns then Some(needed[0])
    else
      var m := FirstMissing(needed[1..], columns);
      assert forall i :: 1 <= i < |needed| ==> needed[i] == needed[1..][i - 1];
      m
  }

  /** Float comparisons of a column against a constant: NaN compares false,
      except under `!=`, where it compares true. */
  predicate Gt(v: Value, c: real) { v.Some? && v.value > c }
  predicate Lt(v: Value, c: real) { v.Some? && v.value < c }
  predicate Le(v: Value, c: real) { v.Some? && v.value <= c }
  predicate Eq(v: Value, c: real) { v.Some? && v.value == c }
  predicate Ne(v: Value, c: real) { v.None? || v.value != c }

  function LowerChar(ch: char): char
  {
    if 'A' <= ch <= 'Z' then (ch as int + 32) as char else ch
  }

  function UpperChar(ch: char): char
  {
    if 'a' <= ch <= 'z' then (ch as int - 32) as char else ch
  }

  /** `str.lower()` on ASCII letters. */
  function Lower(s: string): (r: string)
    ensures |r| == |s| && forall i :: 0 <= i < |s| ==> r[i] == LowerChar(s[i])
  {
    seq(|s|, i requires 0 <= i < |s| => LowerChar(s[i]))
  }

  /** `str.upper()` on ASCII letters. */
  function Upper(s: string): (r: string)
    ensures |r| == |s| && forall i :: 0 <= i < |s| ==> r[i] == UpperChar(s[i])
  {
    seq(|s|, i requires 0 <= i < |s| => UpperChar(s[i]))
  }

  /** Case changes forget the case they started from: upper-casing first
      changes neither the lower-case nor the upper-case form. */
  lemma CaseForms(s: string)
    ensures Lower(Upper(s)) == Lower(s)
    ensures Upper(Upper(s)) == Upper(s)
  {
    forall i | 0 <= i < |s|
      ensures LowerChar(UpperChar(s[i])) == LowerChar(s[i]) && UpperChar(UpperChar(s[i])) == UpperChar(s[i])
    {
    }
  }
}
