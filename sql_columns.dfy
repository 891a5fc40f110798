/** The column-level operations of the SQL-style helper: relabelling a
    DataFrame in place, coercing one column to numbers, and `SELECT`. */
module SqlColumns {
  import opened Values
  import opened Tables

  /** `str.replace(from, to)` for a single character: every occurrence of
      from becomes to, every other character stays where it is. */
  function ReplaceChar(s: string, from: char, to: char): (r: string)
    ensures |r| == |s|
    ensures forall i :: 0 <= i < |s| ==> r[i] == (if s[i] == from then to else s[i])
    decreases |s|
  {
    if |s| == 0 then "" else [if s[0] == from then to else s[0]] + ReplaceChar(s[1..], from, to)
  }

  /** `Index.str.replace(from, to)` applied to every label. */
  function ReplaceInLabels(cols: seq<string>, from: char, to: char): (r: seq<string>)
    ensures |r| == |cols|
    ensures forall k :: 0 <= k < |cols| ==> r[k] == ReplaceChar(cols[k], from, to)
  {
    seq(|cols|, k requires 0 <= k < |cols| => ReplaceChar(cols[k], from, to))
  }

  /** A label fit for attribute-style access: spaces and slashes become
      underscores and the length is kept. */
  function NormalizeName(c: string): (r: string)
    ensures |r| == |c|
    ensures ' ' !in r && '/' !in r
    ensures forall i :: 0 <= i < |c| ==> r[i] == (if c[i] == ' ' || c[i] == '/' then '_' else c[i])
  {
    ReplaceChar(ReplaceChar(c, ' ', '_'), '/', '_')
  }

  function NormalizeColumns(cols: seq<string>): (r: seq<string>)
    ensures |r| == |cols|
    ensures forall k :: 0 <= k < |cols| ==> r[k] == NormalizeName(cols[k])
  {
    seq(|cols|, k requires 0 <= k < |cols| => NormalizeName(cols[k]))
  }

  /** Renaming twice is renaming once. */
  lemma NormalizeIdempotent(cols: seq<string>)
    ensures NormalizeColumns(NormalizeColumns(cols)) == NormalizeColumns(cols)
  {
    forall k | 0 <= k < |cols|
      ensures NormalizeName(NormalizeName(cols[k])) == NormalizeName(cols[k])
    {
      var once := NormalizeName(cols[k]);
      assert forall i :: 0 <= i < |once| ==> once[i] != ' ' && once[i] != '/';
    }
  }

  /** A label that already has no space and no slash is left alone. */
  lemma NormalizeKeepsCleanLabels(c: string)
    requires ' ' !in c && '/' !in c
    ensures NormalizeName(c) == c
  {
    assert forall i :: 0 <= i < |c| ==> c[i] != ' ' && c[i] != '/';
  }

  /** Two labels that differ other than by spaces, slashes and underscores
      keep differing after renaming. */
  lemma NormalizeSeparates(a: string, b: string, i: int)
    requires 0 <= i < |a| && 0 <= i < |b| && a[i] != b[i]
    requires a[i] !in " /_" || b[i] !in " /_"
    ensures NormalizeName(a) != NormalizeName(b)
  {
    assert NormalizeName(a)[i] != NormalizeName(b)[i];
  }

  /** `rename_columns(df)`: relabels df itself, replacing spaces and then
      slashes with underscores, and hands back the same object. */
  method RenameColumns(df: DataFrame) returns (r: DataFrame)
    requires df.Valid()
    modifies df
    ensures r == df && df.Valid()
    ensures df.columns == NormalizeColumns(old(df.columns))
    ensures df.rows == old(df.rows)
  {
    df.columns := ReplaceInLabels(df.columns, ' ', '_');
    df.columns := ReplaceInLabels(df.columns, '/', '_');
    r := df;
  }

  /** `convert_to_numeric(df, c)`: a copy of t whose column c holds numbers:
      each cell is read as text, its commas are dropped, and text that is not
      a number becomes missing. Reading an absent column raises KeyError. */
  function ConvertToNumeric(t: Table, c: string): (r: Result<Table>)
    ensures c !in t.columns ==> r == Err(KeyError(c))
    ensures c in t.columns ==> r.Ok? && r.value.columns == t.columns && |r.value.rows| == |t.rows|
    ensures r.Ok? ==> forall i :: 0 <= i < |t.rows| ==> Cell(r.value, i, c) == Coerce(Cell(t, i, c))
    ensures r.Ok? ==> forall i, d :: d != c ==> Cell(r.value, i, d) == Cell(t, i, d)
  {
    if c !in t.columns then Err(KeyError(c))
    else Ok(SetColumn(t, c, seq(|t.rows|, i requires 0 <= i < |t.rows| => Coerce(Cell(t, i, c)))))
  }

  /** After conversion the column is numeric (numbers or missing), and
      converting it again changes no cell. */
  lemma ConvertToNumericSettles(t: Table, c: string)
    requires c in t.columns
    ensures var once := ConvertToNumeric(t, c).value;
      (forall i :: 0 <= i < |once.rows| ==> Cell(once, i, c).Int? || Cell(once, i, c).Missing?) &&
      ConvertToNumeric(once, c).Ok? &&
      ConvertToNumeric(once, c).value.columns == once.columns &&
      forall i, d :: Cell(ConvertToNumeric(once, c).value, i, d) == Cell(once, i, d)
  {
    var once := ConvertToNumeric(t, c).value;
    var twice := ConvertToNumeric(once, c).value;
    forall i, d ensures Cell(twice, i, d) == Cell(once, i, d) {
      if d == c && 0 <= i < |t.rows| {
        CoerceIdempotent(Cell(t, i, c));
      }
    }
  }

  /** `df_select_columns(df, cols)`: exactly the listed columns in the listed
      order; a label t lacks raises KeyError. */
  function SelectColumns(t: Table, cols: seq<string>): (r: Result<Table>)
    ensures r.Ok? <==> forall k :: 0 <= k < |cols| ==> cols[k] in t.columns
    ensures r.Err? ==> r.error.KeyError? && r.error.key in cols && r.error.key !in t.columns
    ensures r.Ok? ==> r.value.columns == cols && |r.value.rows| == |t.rows|
    ensures r.Ok? ==> forall i, c :: Cell(r.value, i, c) == if c in cols then Cell(t, i, c) else Missing
  {
    if exists k :: 0 <= k < |cols| && cols[k] !in t.columns then Err(KeyError(FirstAbsent(t.columns, cols)))
    else Ok(Project(t, cols))
  }
}
