/** `df_pivot_values_to_columns`: keep the rows whose value column holds one
    of the chosen values, count them per (group_col_1, group_col_2) pair
    and per value (`pivot_table(aggfunc="size", fill_value=0)`), and add a
    `Grand_Total` column summing the chosen values' counts. */
module SqlPivot {
  import opened Values
  import opened Tables
  import opened Grouping

  const GrandTotalLabel := "Grand_Total"

  /** `Series.isin(values)` for one cell. */
  predicate IsIn(v: Value, values: seq<string>) {
    v.Str? && v.s in values
  }

  /** A row the pivot counts: its value is chosen and both group cells are
      present (`pivot_table` drops missing group keys). */
  predicate Counted(t: Table, g1: string, g2: string, vc: string, values: seq<string>, i: int) {
    IsIn(Cell(t, i, vc), values) && Cell(t, i, g1) != Missing && Cell(t, i, g2) != Missing
  }

  function CountedRows(t: Table, g1: string, g2: string, vc: string, values: seq<string>): (idx: seq<nat>)
    ensures forall p :: 0 <= p < |idx| ==> idx[p] < |t.rows| && Counted(t, g1, g2, vc, values, idx[p])
    ensures forall i: nat :: i in idx <==> i < |t.rows| && Counted(t, g1, g2, vc, values, i)
  {
    IndicesAt(|t.rows|, (i: nat) => Counted(t, g1, g2, vc, values, i));
    Indices(|t.rows|, (i: nat) => Counted(t, g1, g2, vc, values, i))
  }

  /** The (group_col_1, group_col_2) pair of each counted row. */
  function Pairs(t: Table, g1: string, g2: string, vc: string, values: seq<string>): (ps: seq<seq<Value>>)
    ensures |ps| == |CountedRows(t, g1, g2, vc, values)|
    ensures forall p :: 0 <= p < |ps| ==>
      ps[p] == [Cell(t, CountedRows(t, g1, g2, vc, values)[p], g1), Cell(t, CountedRows(t, g1, g2, vc, values)[p], g2)]
  {
    var idx := CountedRows(t, g1, g2, vc, values);
    seq(|idx|, p requires 0 <= p < |idx| => [Cell(t, idx[p], g1), Cell(t, idx[p], g2)])
  }

  /** The value cell of each counted row. */
  function Picked(t: Table, g1: string, g2: string, vc: string, values: seq<string>): (vs: seq<Value>)
    ensures |vs| == |CountedRows(t, g1, g2, vc, values)|
    ensures forall p :: 0 <= p < |vs| ==> vs[p] == Cell(t, CountedRows(t, g1, g2, vc, values)[p], vc)
  {
    var idx := CountedRows(t, g1, g2, vc, values);
    seq(|idx|, p requires 0 <= p < |idx| => Cell(t, idx[p], vc))
  }

  /** How many counted rows have group pair g and value v. */
  function Tally(t: Table, g1: string, g2: string, vc: string, values: seq<string>, g: seq<Value>, v: string): nat {
    Count(Zip(Pairs(t, g1, g2, vc, values), Picked(t, g1, g2, vc, values)), (g, Str(v)))
  }

  /** `pivot[values].sum(axis=1)` for group pair g: the tallies of the chosen
      values, a value listed twice counted twice. */
  function RowTotal(t: Table, g1: string, g2: string, vc: string, values: seq<string>, g: seq<Value>): int {
    Sum(seq(|values|, k requires 0 <= k < |values| => Tally(t, g1, g2, vc, values, g, values[k]) as int))
  }

  /** The first chosen value no counted row holds: selecting its (absent)
      column raises KeyError. */
  function Unseen(t: Table, g1: string, g2: string, vc: string, values: seq<string>): (r: Option<string>)
    ensures r.None? <==> forall k :: 0 <= k < |values| ==> Str(values[k]) in Picked(t, g1, g2, vc, values)
    ensures r.Some? ==> r.value in values && Str(r.value) !in Picked(t, g1, g2, vc, values)
  {
    var seen := Picked(t, g1, g2, vc, values);
    if forall k :: 0 <= k < |values| ==> Str(values[k]) in seen then None
    else Some(FirstAbsentValue(seen, values))
  }

  function FirstAbsentValue(seen: seq<Value>, values: seq<string>): (v: string)
    requires exists k :: 0 <= k < |values| && Str(values[k]) !in seen
    ensures v in values && Str(v) !in seen
  {
    if Str(values[0]) !in seen then values[0] else FirstAbsentValue(seen, values[1..])
  }

  /** The group pairs of the counted rows, each once, in order of first
      appearance: one pivot row each. */
  function PivotGroups(t: Table, g1: string, g2: string, vc: string, values: seq<string>): (gs: seq<seq<Value>>)
    ensures NoDuplicates(gs)
    ensures forall g :: g in gs <==> g in Pairs(t, g1, g2, vc, values)
    ensures forall g :: 0 <= g < |gs| ==> |gs[g]| == 2
  {
    var gs := Distinct(Pairs(t, g1, g2, vc, values));
    assert forall g :: 0 <= g < |gs| ==> gs[g] in Pairs(t, g1, g2, vc, values);
    gs
  }

  /** One count per distinct chosen value for group pair g. */
  function Tallies(t: Table, g1: string, g2: string, vc: string, values: seq<string>, g: seq<Value>): (row: Row)
    ensures |row| == |Distinct(values)|
    ensures forall k :: 0 <= k < |row| ==> row[k] == Int(Tally(t, g1, g2, vc, values, g, Distinct(values)[k]))
  {
    var dv := Distinct(values);
    seq(|dv|, k requires 0 <= k < |dv| => Int(Tally(t, g1, g2, vc, values, g, dv[k])))
  }

  /** The pivot's rows before the total: the group pair, then the tallies. */
  function PivotBody(t: Table, g1: string, g2: string, vc: string, values: seq<string>): (b: Table)
    ensures b.columns == [g1, g2] + Distinct(values)
    ensures |b.rows| == |PivotGroups(t, g1, g2, vc, values)|
    ensures forall g :: 0 <= g < |b.rows| ==>
      b.rows[g] == PivotGroups(t, g1, g2, vc, values)[g] + Tallies(t, g1, g2, vc, values, PivotGroups(t, g1, g2, vc, values)[g])
  {
    var gs := PivotGroups(t, g1, g2, vc, values);
    Frame([g1, g2] + Distinct(values), seq(|gs|, g requires 0 <= g < |gs| => gs[g] + Tallies(t, g1, g2, vc, values, gs[g])))
  }

  /** Under a chosen value other than the group labels, body row g holds
      the tally of that value in its group pair. */
  lemma PivotTallyCell(t: Table, g1: string, g2: string, vc: string, values: seq<string>, g: nat, v: string)
    requires g < |PivotGroups(t, g1, g2, vc, values)| && v in values && v != g1 && v != g2
    ensures Cell(PivotBody(t, g1, g2, vc, values), g, v) ==
      Int(Tally(t, g1, g2, vc, values, PivotGroups(t, g1, g2, vc, values)[g], v))
  {
    var b, gs, dv := PivotBody(t, g1, g2, vc, values), PivotGroups(t, g1, g2, vc, values), Distinct(values);
    CellAfter(b, [g1, g2], dv, g, v);
    var k := IndexOf(dv, v);
    assert b.rows[g][2 + k] == Tallies(t, g1, g2, vc, values, gs[g])[k];
  }

  /** Under the two group labels, body row g holds its group pair. */
  lemma PivotKeyCells(t: Table, g1: string, g2: string, vc: string, values: seq<string>, g: nat)
    requires g < |PivotGroups(t, g1, g2, vc, values)|
    ensures var b, gs := PivotBody(t, g1, g2, vc, values), PivotGroups(t, g1, g2, vc, values);
      Cell(b, g, g1) == gs[g][0] && (g2 != g1 ==> Cell(b, g, g2) == gs[g][1])
  {
    var b := PivotBody(t, g1, g2, vc, values);
    assert b.columns[0] == g1 && b.columns[1] == g2;
    assert IndexOf(b.columns, g1) == 0;
    if g2 != g1 { assert IndexOf(b.columns, g2) == 1; }
  }

  /** Under the labels of the body, row g holds its group pair and the
      tally of each chosen value. */
  lemma PivotBodyCells(t: Table, g1: string, g2: string, vc: string, values: seq<string>, g: nat, v: string)
    requires g < |PivotGroups(t, g1, g2, vc, values)|
    ensures var b, gs := PivotBody(t, g1, g2, vc, values), PivotGroups(t, g1, g2, vc, values);
      Cell(b, g, g1) == gs[g][0] &&
      (g2 != g1 ==> Cell(b, g, g2) == gs[g][1]) &&
      (v in values && v != g1 && v != g2 ==> Cell(b, g, v) == Int(Tally(t, g1, g2, vc, values, gs[g], v)))
  {
    PivotKeyCells(t, g1, g2, vc, values, g);
    if v in values && v != g1 && v != g2 {
      PivotTallyCell(t, g1, g2, vc, values, g, v);
    }
  }

  /** `df_pivot_values_to_columns(df, g1, g2, vc, values)`. A missing value
      column, a missing group column or a chosen value that no counted row
      holds raises KeyError, in that order. Otherwise one row per group pair
      of the counted rows, a count per chosen value, and `Grand_Total`. */
  function Pivot(t: Table, g1: string, g2: string, vc: string, values: seq<string>): (r: Result<Table>)
    ensures vc !in t.columns ==> r == Err(KeyError(vc))
    ensures vc in t.columns && g1 !in t.columns ==> r == Err(KeyError(g1))
    ensures vc in t.columns && g1 in t.columns && g2 !in t.columns ==> r == Err(KeyError(g2))
    ensures r.Ok? <==> (vc in t.columns && g1 in t.columns && g2 in t.columns &&
                        Unseen(t, g1, g2, vc, values).None?)
    ensures r.Ok? ==> r.value.columns == ([g1, g2] + Distinct(values)) +
                        (if GrandTotalLabel in [g1, g2] + Distinct(values) then [] else [GrandTotalLabel])
    ensures r.Ok? ==> |r.value.rows| == |PivotGroups(t, g1, g2, vc, values)|
    ensures r.Ok? ==> forall g :: 0 <= g < |r.value.rows| ==>
      Cell(r.value, g, GrandTotalLabel) == Int(RowTotal(t, g1, g2, vc, values, PivotGroups(t, g1, g2, vc, values)[g]))
    ensures r.Ok? ==> forall g, d :: d != GrandTotalLabel ==> Cell(r.value, g, d) == Cell(PivotBody(t, g1, g2, vc, values), g, d)
  {
    if vc !in t.columns then Err(KeyError(vc))
    else if g1 !in t.columns then Err(KeyError(g1))
    else if g2 !in t.columns then Err(KeyError(g2))
    else
      match Unseen(t, g1, g2, vc, values)
      case Some(v) => Err(KeyError(v))
      case None =>
        var b := PivotBody(t, g1, g2, vc, values);
        var gs := PivotGroups(t, g1, g2, vc, values);
        Ok(SetColumn(b, GrandTotalLabel, seq(|b.rows|, g requires 0 <= g < |b.rows| =>
          Int(RowTotal(t, g1, g2, vc, values, gs[g])))))
  }

  /** With each value chosen once, a pivot row's `Grand_Total` is the number
      of counted rows in its group pair. */
  lemma RowTotalCountsGroup(t: Table, g1: string, g2: string, vc: string, values: seq<string>, g: seq<Value>)
    requires NoDuplicates(values)
    ensures RowTotal(t, g1, g2, vc, values, g) == Count(Pairs(t, g1, g2, vc, values), g)
  {
    var ps, vs := Pairs(t, g1, g2, vc, values), Picked(t, g1, g2, vc, values);
    var d := seq(|values|, k requires 0 <= k < |values| => Str(values[k]));
    forall p | 0 <= p < |vs| ensures vs[p] in d {
      var i := CountedRows(t, g1, g2, vc, values)[p];
      assert Counted(t, g1, g2, vc, values, i);
      var k :| 0 <= k < |values| && values[k] == vs[p].s;
      assert d[k] == vs[p];
    }
    CrossTabRowTotal(ps, vs, d, g);
    assert seq(|values|, k requires 0 <= k < |values| => Tally(t, g1, g2, vc, values, g, values[k]) as int)
        == seq(|d|, k requires 0 <= k < |d| => Count(Zip(ps, vs), (g, d[k])) as int);
  }

  /** With each value chosen once, the `Grand_Total` column adds up to the
      number of counted rows. */
  lemma GrandTotalsAddUp(t: Table, g1: string, g2: string, vc: string, values: seq<string>)
    requires NoDuplicates(values)
    ensures var gs := PivotGroups(t, g1, g2, vc, values);
      Sum(seq(|gs|, g requires 0 <= g < |gs| => RowTotal(t, g1, g2, vc, values, gs[g])))
        == |CountedRows(t, g1, g2, vc, values)|
  {
    var ps := Pairs(t, g1, g2, vc, values);
    var gs := PivotGroups(t, g1, g2, vc, values);
    forall g | 0 <= g < |gs| ensures RowTotal(t, g1, g2, vc, values, gs[g]) == Count(ps, gs[g]) {
      RowTotalCountsGroup(t, g1, g2, vc, values, gs[g]);
    }
    CountsAddUp(gs, ps);
    assert seq(|gs|, g requires 0 <= g < |gs| => RowTotal(t, g1, g2, vc, values, gs[g]))
        == seq(|gs|, g requires 0 <= g < |gs| => Count(ps, gs[g]) as int);
  }
}
