/** `df_groupby_rollup`: one subtotal row per value of the first grouping
    column (numeric columns summed, the second grouping column set to the
    total label), followed by one grand-total row. */
module SqlRollup {
  import opened Values
  import opened Tables
  import opened Grouping

  /** A column pandas treats as numeric: every cell a number or missing. */
  predicate NumericColumn(t: Table, c: string) {
    forall i :: 0 <= i < |t.rows| ==> Cell(t, i, c).Int? || Cell(t, i, c).Missing?
  }

  /** The labels of cols whose columns are numeric, in order. */
  function NumericAmong(t: Table, cols: seq<string>): (ns: seq<string>)
    ensures forall c :: c in ns <==> c in cols && NumericColumn(t, c)
  {
    if |cols| == 0 then []
    else (if NumericColumn(t, cols[0]) then [cols[0]] else []) + NumericAmong(t, cols[1..])
  }

  /** `df.select_dtypes(include="number").columns`. */
  function NumericLabels(t: Table): (ns: seq<string>)
    ensures forall c :: c in ns <==> c in t.columns && NumericColumn(t, c)
  {
    NumericAmong(t, t.columns)
  }

  /** `df[c].sum()`: the sum of the column's numbers, missing cells skipped. */
  function ColumnSum(t: Table, c: string): int {
    Sum(seq(|t.rows|, i requires 0 <= i < |t.rows| => IntOf(Cell(t, i, c))))
  }

  /** The rows with a value in the first grouping column. */
  function Keyed(t: Table, g1: string): (idx: seq<nat>)
    ensures forall p :: 0 <= p < |idx| ==> idx[p] < |t.rows| && Cell(t, idx[p], g1) != Missing
    ensures forall i: nat :: i in idx <==> i < |t.rows| && Cell(t, i, g1) != Missing
  {
    IndicesAt(|t.rows|, (i: nat) => Cell(t, i, g1) != Missing);
    Indices(|t.rows|, (i: nat) => Cell(t, i, g1) != Missing)
  }

  /** The first grouping column's value for each keyed row. */
  function KeyCells(t: Table, g1: string): (ks: seq<Value>)
    ensures |ks| == |Keyed(t, g1)|
    ensures forall p :: 0 <= p < |ks| ==> ks[p] == Cell(t, Keyed(t, g1)[p], g1)
  {
    var idx := Keyed(t, g1);
    seq(|idx|, p requires 0 <= p < |idx| => Cell(t, idx[p], g1))
  }

  /** Column c's contribution for each keyed row. */
  function KeyedNumbers(t: Table, g1: string, c: string): (ws: seq<int>)
    ensures |ws| == |Keyed(t, g1)|
    ensures forall p :: 0 <= p < |ws| ==> ws[p] == IntOf(Cell(t, Keyed(t, g1)[p], c))
  {
    var idx := Keyed(t, g1);
    seq(|idx|, p requires 0 <= p < |idx| => IntOf(Cell(t, idx[p], c)))
  }

  /** The subtotal groups: each value of the first grouping column once. */
  function SubtotalGroups(t: Table, g1: string): (gs: seq<Value>)
    ensures NoDuplicates(gs)
    ensures forall v :: v in gs <==> v in KeyCells(t, g1)
  {
    Distinct(KeyCells(t, g1))
  }

  /** The numeric labels that are summed per group (the key is not). */
  function SummedLabels(t: Table, g1: string): seq<string> {
    Remaining(NumericLabels(t), [g1])
  }

  /** Each summed column's sum over the keyed rows whose g1 value is v. */
  function GroupSums(t: Table, g1: string, cols: seq<string>, v: Value): (sums: seq<Value>)
    ensures |sums| == |cols|
    ensures forall q :: 0 <= q < |cols| ==> sums[q] == Int(SumFor(KeyCells(t, g1), KeyedNumbers(t, g1, cols[q]), v))
  {
    seq(|cols|, q requires 0 <= q < |cols| => Int(SumFor(KeyCells(t, g1), KeyedNumbers(t, g1, cols[q]), v)))
  }

  /** One subtotal row: the group's value, then its sums. */
  function SubtotalRow(t: Table, g1: string, cols: seq<string>, v: Value): (row: Row)
    ensures |row| == 1 + |cols|
    ensures row[0] == v && row[1..] == GroupSums(t, g1, cols, v)
  {
    [v] + GroupSums(t, g1, cols, v)
  }

  /** `t.groupby(g1, as_index=False)` summing the columns cols: one row per
      value of g1, in order of first appearance. */
  function Subtotals(t: Table, g1: string, cols: seq<string>): (s: Table)
    ensures s.columns == [g1] + cols
    ensures |s.rows| == |SubtotalGroups(t, g1)|
    ensures forall g :: 0 <= g < |s.rows| ==> s.rows[g] == SubtotalRow(t, g1, cols, SubtotalGroups(t, g1)[g])
  {
    var gs := SubtotalGroups(t, g1);
    var rows := seq(|gs|, g requires 0 <= g < |gs| => SubtotalRow(t, g1, cols, gs[g]));
    assert forall g :: 0 <= g < |rows| ==> |rows[g]| == 1 + |cols|;
    Frame([g1] + cols, rows)
  }

  /** Under a summed label other than g1, subtotal row g holds the sum of
      that column over the rows of group g. */
  lemma SubtotalsCells(t: Table, g1: string, cols: seq<string>, g: nat, c: string)
    requires g < |SubtotalGroups(t, g1)|
    ensures var s := Subtotals(t, g1, cols);
      var v := SubtotalGroups(t, g1)[g];
      Cell(s, g, g1) == v &&
      (c in cols && c != g1 ==> Cell(s, g, c) == Int(SumFor(KeyCells(t, g1), KeyedNumbers(t, g1, c), v)))
  {
    var all := [g1] + cols;
    assert IndexOf(all, g1) == 0;
    if c in cols && c != g1 {
      var q := IndexOf(cols, c);
      assert all[1 + q] == c;
      assert IndexOf(all, c) == 1 + q;
      var row := Subtotals(t, g1, cols).rows[g];
      assert row[1 + q] == row[1..][q];
    }
  }

  /** The subtotals of cols once the second grouping column reads the total
      label. */
  function TotalledSubtotals(t: Table, g1: string, cols: seq<string>, g2: string, total: string): (s: Table)
    ensures |s.rows| == |SubtotalGroups(t, g1)|
  {
    var s := Subtotals(t, g1, cols);
    SetColumn(s, g2, seq(|s.rows|, g => Str(total)))
  }

  /** Totalled subtotal row g holds its group's value under g1, the total
      label under g2, and under every other summed column the sum of that
      column over the rows of the group. */
  lemma TotalledSubtotalsCells(t: Table, g1: string, cols: seq<string>, g2: string, total: string, g: nat, c: string)
    requires g1 != g2 && g < |SubtotalGroups(t, g1)|
    ensures var s, v := TotalledSubtotals(t, g1, cols, g2, total), SubtotalGroups(t, g1)[g];
      Cell(s, g, g1) == v && Cell(s, g, g2) == Str(total) &&
      (c in cols && c != g1 && c != g2 ==> Cell(s, g, c) == Int(SumFor(KeyCells(t, g1), KeyedNumbers(t, g1, c), v)))
  {
    SubtotalsCells(t, g1, cols, g, c);
  }

  /** The subtotal table of the rollup: every summed label, and the total
      label under g2. */
  function SubtotalTable(t: Table, g1: string, g2: string, total: string): Table {
    TotalledSubtotals(t, g1, SummedLabels(t, g1), g2, total)
  }

  /** The cell the grand-total row holds under label c once the numeric
      columns in done have been written: a column total, else the total
      label under g2, else the grand-total label. */
  function GrandCell(t: Table, g2: string, grand: string, total: string, done: seq<string>, c: string): Value {
    if c in done then Int(ColumnSum(t, c)) else if c == g2 then Str(total) else Str(grand)
  }

  /** The labels of the grand-total row: g1, g2, then the numeric labels,
      each once. */
  function GrandLabels(t: Table, g1: string, g2: string): seq<string> {
    Distinct([g1, g2] + NumericLabels(t))
  }

  function GrandTable(t: Table, g1: string, g2: string, grand: string, total: string): (gt: Table)
    ensures gt.columns == GrandLabels(t, g1, g2) && |gt.rows| == 1
    ensures forall c :: c in gt.columns ==> Cell(gt, 0, c) == GrandCell(t, g2, grand, total, NumericLabels(t), c)
  {
    var cols := GrandLabels(t, g1, g2);
    var gt: Table := Frame(cols, [seq(|cols|, k requires 0 <= k < |cols| => GrandCell(t, g2, grand, total, NumericLabels(t), cols[k]))]);
    assert forall c :: c in cols ==> cols[IndexOf(cols, c)] == c;
    gt
  }

  /** What `df_groupby_rollup` returns: KeyError without g1, otherwise the
      subtotal rows followed by the grand-total row. */
  function RollupSpec(t: Table, g1: string, g2: string, grand: string, total: string): (r: Result<Table>)
    ensures r.Err? <==> g1 !in t.columns
    ensures r.Err? ==> r.error == KeyError(g1)
    ensures r.Ok? ==> |r.value.rows| == |SubtotalGroups(t, g1)| + 1
  {
    if g1 !in t.columns then Err(KeyError(g1))
    else Ok(Concat(SubtotalTable(t, g1, g2, total), GrandTable(t, g1, g2, grand, total)))
  }

  lemma DistinctStep(s: seq<string>, x: string)
    ensures Distinct(s + [x]) == if x in Distinct(s) then Distinct(s) else Distinct(s) + [x]
  {
    assert (s + [x])[..|s|] == s;
  }

  /** `pd.DataFrame([row])`: one row, a column per key in insertion order. */
  function GrandRowTable(labels: seq<string>, row: map<string, Value>): (gt: Table)
    requires forall c :: c in labels ==> c in row
    ensures gt.columns == labels && |gt.rows| == 1
    ensures forall k :: 0 <= k < |labels| ==> gt.rows[0][k] == row[labels[k]]
  {
    Frame(labels, [seq(|labels|, k requires 0 <= k < |labels| => row[labels[k]])])
  }

  /** The dictionary built label by label, laid out as a one-row table, is
      the grand-total table. */
  lemma GrandRowIsGrandTable(t: Table, g1: string, g2: string, grand: string, total: string,
                             labels: seq<string>, row: map<string, Value>)
    requires labels == GrandLabels(t, g1, g2)
    requires forall c :: c in labels ==> c in row && row[c] == GrandCell(t, g2, grand, total, NumericLabels(t), c)
    ensures GrandRowTable(labels, row) == GrandTable(t, g1, g2, grand, total)
  {
    var a := seq(|labels|, k requires 0 <= k < |labels| => row[labels[k]]);
    var b := seq(|labels|, k requires 0 <= k < |labels| => GrandCell(t, g2, grand, total, NumericLabels(t), labels[k]));
    assert forall k :: 0 <= k < |labels| ==> a[k] == b[k];
    assert a == b;
  }

  /** Before the loop the dictionary holds the two grouping labels. */
  lemma GrandRowStart(t: Table, g1: string, g2: string, grand: string, total: string, numeric: seq<string>)
    ensures var labels := if g1 == g2 then [g1] else [g1, g2];
      var row := map[g1 := Str(grand)][g2 := Str(total)];
      labels == Distinct([g1, g2] + numeric[..0]) &&
      (forall c :: c in row <==> c in labels) &&
      (forall c :: c in labels ==> row[c] == GrandCell(t, g2, grand, total, numeric[..0], c))
  {
    DistinctStep([g1], g2);
    assert [g1] + [g2] == [g1, g2];
    assert Distinct([g1]) == [g1] by { DistinctStep([], g1); }
    assert [g1, g2] + numeric[..0] == [g1, g2];
  }

  /** Writing one more numeric total into the dictionary keeps it in step
      with the grand-total cells. */
  lemma GrandRowStep(t: Table, g1: string, g2: string, grand: string, total: string,
                     numeric: seq<string>, k: nat, labels: seq<string>, row: map<string, Value>)
    requires k < |numeric|
    requires labels == Distinct([g1, g2] + numeric[..k])
    requires forall c :: c in row <==> c in labels
    requires forall c :: c in labels ==> row[c] == GrandCell(t, g2, grand, total, numeric[..k], c)
    ensures var labels' := if numeric[k] in row then labels else labels + [numeric[k]];
      var row' := row[numeric[k] := Int(ColumnSum(t, numeric[k]))];
      labels' == Distinct([g1, g2] + numeric[..k + 1]) &&
      (forall c :: c in row' <==> c in labels') &&
      (forall c :: c in labels' ==> row'[c] == GrandCell(t, g2, grand, total, numeric[..k + 1], c))
  {
    var col := numeric[k];
    assert [g1, g2] + numeric[..k + 1] == ([g1, g2] + numeric[..k]) + [col];
    DistinctStep([g1, g2] + numeric[..k], col);
    assert numeric[..k + 1] == numeric[..k] + [col];
  }

  /** `df_groupby_rollup(base_df, g1, g2, grand, total)`: the grand-total row
      is a dictionary filled label by label, numeric totals overwriting the
      two labels when a grouping column is itself numeric. */
  method GroupByRollup(base: Table, g1: string, g2: string, grand: string, total: string) returns (r: Result<Table>)
    ensures r == RollupSpec(base, g1, g2, grand, total)
  {
    if g1 !in base.columns {
      return Err(KeyError(g1));
    }
    var numeric := NumericLabels(base);
    GrandRowStart(base, g1, g2, grand, total, numeric);
    var labels: seq<string> := if g1 == g2 then [g1] else [g1, g2];
    var row: map<string, Value> := map[g1 := Str(grand)][g2 := Str(total)];
    for k := 0 to |numeric|
      invariant labels == Distinct([g1, g2] + numeric[..k])
      invariant forall c :: c in row <==> c in labels
      invariant forall c :: c in labels ==> row[c] == GrandCell(base, g2, grand, total, numeric[..k], c)
    {
      GrandRowStep(base, g1, g2, grand, total, numeric, k, labels, row);
      if numeric[k] !in row {
        labels := labels + [numeric[k]];
      }
      row := row[numeric[k] := Int(ColumnSum(base, numeric[k]))];
    }
    assert numeric[..|numeric|] == numeric;
    GrandRowIsGrandTable(base, g1, g2, grand, total, labels, row);
    r := Ok(Concat(SubtotalTable(base, g1, g2, total), GrandRowTable(labels, row)));
  }

  /** Each subtotal row carries its group's value under g1, the total label
      under g2, and under every other summed column the sum of that column
      over the rows of the group. */
  lemma SubtotalCells(t: Table, g1: string, g2: string, grand: string, total: string, g: nat, c: string)
    requires g1 in t.columns && g1 != g2 && g < |SubtotalGroups(t, g1)|
    ensures var r := RollupSpec(t, g1, g2, grand, total).value;
      var v := SubtotalGroups(t, g1)[g];
      Cell(r, g, g1) == v &&
      Cell(r, g, g2) == Str(total) &&
      (c in NumericLabels(t) && c != g1 && c != g2 ==>
        Cell(r, g, c) == Int(SumFor(KeyCells(t, g1), KeyedNumbers(t, g1, c), v)))
  {
    TotalledSubtotalsCells(t, g1, SummedLabels(t, g1), g2, total, g, c);
  }

  /** The last row is the grand total: the grand-total label under g1, the
      total label under g2 (unless a numeric total took their place), and
      each numeric column's total. */
  lemma GrandTotalCells(t: Table, g1: string, g2: string, grand: string, total: string, c: string)
    requires g1 in t.columns
    ensures var r := RollupSpec(t, g1, g2, grand, total).value;
      var last := |r.rows| - 1;
      (c in NumericLabels(t) ==> Cell(r, last, c) == Int(ColumnSum(t, c))) &&
      (c == g2 && !NumericColumn(t, g2) ==> Cell(r, last, c) == Str(total)) &&
      (c == g1 && c != g2 && !NumericColumn(t, g1) ==> Cell(r, last, c) == Str(grand))
  {
    var st := SubtotalTable(t, g1, g2, total);
    var gt := GrandTable(t, g1, g2, grand, total);
    var r := Concat(st, gt);
    assert c in NumericLabels(t) || c == g1 || c == g2 ==> c in gt.columns by {
      assert c in [g1, g2] + NumericLabels(t) ==> c in Distinct([g1, g2] + NumericLabels(t));
    }
    assert Cell(r, |st.rows| + 0, c) == Cell(gt, 0, c);
    if c in gt.columns {
      assert Cell(gt, 0, c) == GrandCell(t, g2, grand, total, NumericLabels(t), c);
      assert !NumericColumn(t, c) ==> c !in NumericLabels(t);
    }
  }

  /** Subtotals add up: over all groups, a summed column's subtotals add to
      the column's total over the rows that have a g1 value. */
  lemma SubtotalsAddUp(t: Table, g1: string, c: string)
    ensures Sum(SumsFor(SubtotalGroups(t, g1), KeyCells(t, g1), KeyedNumbers(t, g1, c)))
      == Sum(KeyedNumbers(t, g1, c))
  {
    var gs, ks := SubtotalGroups(t, g1), KeyCells(t, g1);
    assert forall p :: 0 <= p < |ks| ==> ks[p] in gs;
    PartitionSum(gs, ks, KeyedNumbers(t, g1, c));
  }

  /** When no g1 value is missing, the keyed rows are all the rows, so the
      subtotals add up to the grand total. */
  lemma KeyedIsWhole(t: Table, g1: string, c: string)
    requires forall i :: 0 <= i < |t.rows| ==> Cell(t, i, g1) != Missing
    ensures Sum(KeyedNumbers(t, g1, c)) == ColumnSum(t, c)
  {
    IndicesOfAll(|t.rows|, (i: nat) => Cell(t, i, g1) != Missing);
    assert KeyedNumbers(t, g1, c) == seq(|t.rows|, i requires 0 <= i < |t.rows| => IntOf(Cell(t, i, c)));
  }
}
