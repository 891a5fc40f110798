/** The hospital transform: every extracted table has its labels cleaned in
    place; the first two are coerced, joined on the age range, filtered to
    bills of at least 1000, classified by bill amount, pivoted into patient
    counts per province, bill category and age group, rolled up with a
    subtotal per province and a grand total, and put in report order. */
module Hospital {
  import opened Values
  import opened Tables
  import opened Grouping
  import opened Sorting
  import opened SqlColumns
  import opened SqlFilter
  import opened SqlJoin
  import opened SqlCase
  import opened SqlPivot
  import opened SqlRollup
  import opened SqlOrder

  const TooFew := "At least two dataframes are required for this transformation."
  const Province := "Province"
  const CategoryColumn := "Category"
  const Bill := "BillAmount"
  const AgeLabel := "AgeRangeLabel"
  const JoinKey := "AgeRangeID"
  const MinimumBill := 1000
  /** The columns kept after the filter. */
  const SelectedColumns := ["Province", "PatientID", "AgeRangeLabel", "Hospital", "BillAmount"]
  /** The columns the classification keeps. */
  const KeptColumns := ["Province", "AgeRangeLabel", "PatientID", "BillAmount"]
  const BillRanges: seq<(int, int)> := [(1000, 5000), (5001, 9999)]
  const BillLabels := ["<5000", "<10000"]
  const BillDefault := ">10000"
  const AgeGroups := ["Child", "Adult", "Elderly"]
  /** The rollup's and the ordering's default labels. */
  const GrandLabel := "Grand Total"
  const TotalLabel := "Total"

  /** A table after `_rename_columns`: the same rows under cleaned labels. */
  function Relabel(t: Table): (r: Table)
    ensures r.columns == NormalizeColumns(t.columns) && r.rows == t.rows
  {
    Frame(NormalizeColumns(t.columns), t.rows)
  }

  function RelabelAll(ts: seq<Table>): (rs: seq<Table>)
    ensures |rs| == |ts|
    ensures forall k :: 0 <= k < |ts| ==> rs[k] == Relabel(ts[k])
  {
    seq(|ts|, k requires 0 <= k < |ts| => Relabel(ts[k]))
  }

  /** The category the classification gives a bill of n. */
  function BillCategory(n: int): string {
    if n <= 5000 then "<5000" else if n <= 9999 then "<10000" else ">10000"
  }

  /** The chain up to the filter: coerce the bill amounts of the first
      table, join it with the second on the age range and keep the bills of
      at least 1000. */
  function Filtered(df1: Table, df2: Table): Result<Table> {
    var df :- ConvertToNumeric(df1, Bill);
    var joined :- Join(df, df2, JoinKey, Inner);
    ApplyFilters(joined, Bill, ">=", MinimumBill)
  }

  /** The report columns of the filtered rows. */
  function Selected(df1: Table, df2: Table): Result<Table> {
    var filtered :- Filtered(df1, df2);
    SelectColumns(filtered, SelectedColumns)
  }

  /** The classification of the selected rows by bill amount. */
  function Classified(df1: Table, df2: Table): Result<Table> {
    var selected :- Selected(df1, df2);
    Case(selected, KeptColumns, Bill, BillRanges, BillLabels, BillDefault, CategoryColumn)
  }

  /** Every filtered row has a bill of at least 1000. */
  lemma FilteredBills(df1: Table, df2: Table)
    requires Filtered(df1, df2).Ok?
    ensures var f := Filtered(df1, df2).value;
      forall i :: 0 <= i < |f.rows| ==> Holds(Cell(f, i, Bill), Ge, MinimumBill)
  {
    var df := ConvertToNumeric(df1, Bill).value;
    var joined := Join(df, df2, JoinKey, Inner).value;
    assert Filtered(df1, df2) == ApplyFilters(joined, Bill, ">=", MinimumBill);
    assert ParseOperator(">=") == Some(Ge);
  }

  /** Every selected row has a bill of at least 1000. */
  lemma SelectedBills(df1: Table, df2: Table)
    requires Selected(df1, df2).Ok?
    ensures var s := Selected(df1, df2).value;
      forall i :: 0 <= i < |s.rows| ==>
        AsNumber(Cell(s, i, Bill)).Some? && AsNumber(Cell(s, i, Bill)).value >= MinimumBill
  {
    var filtered := Filtered(df1, df2).value;
    FilteredBills(df1, df2);
    var s := Selected(df1, df2).value;
    assert s == SelectColumns(filtered, SelectedColumns).value;
    assert Bill in SelectedColumns;
    forall i | 0 <= i < |s.rows|
      ensures AsNumber(Cell(s, i, Bill)).Some? && AsNumber(Cell(s, i, Bill)).value >= MinimumBill
    {
      assert Cell(s, i, Bill) == Cell(filtered, i, Bill);
    }
  }

  /** A bill of at least 1000 gets the category of its amount. */
  lemma BillLabel(v: Value)
    requires AsNumber(v).Some? && AsNumber(v).value >= MinimumBill
    ensures Label(v, BillRanges, BillLabels, BillDefault) == BillCategory(AsNumber(v).value)
  {
    var n := AsNumber(v).value;
    if n <= 5000 {
      assert Between(v, BillRanges[0]);
    } else if n <= 9999 {
      assert !Between(v, BillRanges[0]) && Between(v, BillRanges[1]);
    } else {
      assert !Between(v, BillRanges[0]) && !Between(v, BillRanges[1]);
    }
  }

  /** The category label is a new column, and the bill column is kept. */
  lemma KeptLabels()
    ensures CategoryColumn !in KeptColumns && Bill in KeptColumns && Bill != CategoryColumn
  {
    var k := KeptColumns;
    assert k[0][0] != CategoryColumn[0] && |k[1]| != |CategoryColumn| && |k[2]| != |CategoryColumn|;
    assert k[3] == Bill && |Bill| != |CategoryColumn|;
  }

  /** Every classified row has a bill of at least 1000, and its category is
      '<5000' up to 5000, '<10000' from 5001 to 9999 and '>10000' above. */
  lemma ClassifiedBills(df1: Table, df2: Table)
    requires Classified(df1, df2).Ok?
    ensures var c := Classified(df1, df2).value;
      c.columns == KeptColumns + [CategoryColumn] &&
      forall i :: 0 <= i < |c.rows| ==>
        var n := AsNumber(Cell(c, i, Bill));
        n.Some? && n.value >= MinimumBill && Cell(c, i, CategoryColumn) == Str(BillCategory(n.value))
  {
    var s := Selected(df1, df2).value;
    SelectedBills(df1, df2);
    KeptLabels();
    var c := Labelled(s, KeptColumns, Bill, BillRanges, BillLabels, BillDefault, CategoryColumn);
    assert Classified(df1, df2) == Ok(c);
    forall i | 0 <= i < |c.rows|
      ensures var n := AsNumber(Cell(c, i, Bill));
        n.Some? && n.value >= MinimumBill && Cell(c, i, CategoryColumn) == Str(BillCategory(n.value))
    {
      assert Cell(c, i, Bill) == Cell(s, i, Bill);
      BillLabel(Cell(s, i, Bill));
    }
  }

  /** The pivot base: per province and category, the patients of each age
      group and their sum. */
  function HospitalBase(df1: Table, df2: Table): Result<Table> {
    var c :- Classified(df1, df2);
    Pivot(c, Province, CategoryColumn, AgeLabel, AgeGroups)
  }

  lemma AgeGroupsDistinct()
    ensures NoDuplicates(AgeGroups)
  {
    assert AgeGroups[0][0] == 'C' && AgeGroups[1][0] == 'A' && AgeGroups[2][0] == 'E';
  }

  /** Each base row's `Grand_Total` is the number of classified rows of its
      province and category whose age label is one of the three groups. */
  lemma BaseCountsPatients(df1: Table, df2: Table, g: nat)
    requires HospitalBase(df1, df2).Ok? && g < |HospitalBase(df1, df2).value.rows|
    ensures var c, b := Classified(df1, df2).value, HospitalBase(df1, df2).value;
      var gs := PivotGroups(c, Province, CategoryColumn, AgeLabel, AgeGroups);
      Cell(b, g, GrandTotalLabel) == Int(Count(Pairs(c, Province, CategoryColumn, AgeLabel, AgeGroups), gs[g]))
  {
    var c := Classified(df1, df2).value;
    var gs := PivotGroups(c, Province, CategoryColumn, AgeLabel, AgeGroups);
    assert HospitalBase(df1, df2) == Pivot(c, Province, CategoryColumn, AgeLabel, AgeGroups);
    AgeGroupsDistinct();
    RowTotalCountsGroup(c, Province, CategoryColumn, AgeLabel, AgeGroups, gs[g]);
  }

  /** The `Grand_Total` column adds up to the number of classified rows with
      one of the three age groups. */
  lemma BaseTotalsAddUp(df1: Table, df2: Table)
    requires Classified(df1, df2).Ok?
    ensures var c := Classified(df1, df2).value;
      var gs := PivotGroups(c, Province, CategoryColumn, AgeLabel, AgeGroups);
      Sum(seq(|gs|, g requires 0 <= g < |gs| => RowTotal(c, Province, CategoryColumn, AgeLabel, AgeGroups, gs[g])))
        == |CountedRows(c, Province, CategoryColumn, AgeLabel, AgeGroups)|
  {
    AgeGroupsDistinct();
    GrandTotalsAddUp(Classified(df1, df2).value, Province, CategoryColumn, AgeLabel, AgeGroups);
  }

  /** The rows before ordering: the base, then its rollup. */
  function Unordered(df1: Table, df2: Table): Result<Table> {
    var base :- HospitalBase(df1, df2);
    var totals :- RollupSpec(base, Province, CategoryColumn, GrandLabel, TotalLabel);
    Ok(Concat(base, totals))
  }

  /** The base, its rollup, and the two put in report order. */
  function Summary(base: Table): Result<Table> {
    var totals :- RollupSpec(base, Province, CategoryColumn, GrandLabel, TotalLabel);
    GroupingOrder(LibraryHelpers, Concat(base, totals), Province, CategoryColumn, TotalLabel, GrandLabel)
  }

  /** The report built from the first two tables. */
  function ReportOf(df1: Table, df2: Table): Result<Table> {
    var base :- HospitalBase(df1, df2);
    Summary(base)
  }

  /** What `_transform` computes from the relabelled tables, in dictionary
      order: fewer than two is a ValueError, tables past the second are
      ignored. */
  function Report(tables: seq<Table>): (r: Result<Table>)
    ensures |tables| < 2 ==> r == Err(ValueError(TooFew))
    ensures |tables| >= 2 ==> r == ReportOf(tables[0], tables[1])
  {
    if |tables| < 2 then Err(ValueError(TooFew)) else ReportOf(tables[0], tables[1])
  }

  /** The report has a row per base row, one subtotal per province and one
      grand total. */
  lemma ReportRowCount(df1: Table, df2: Table)
    requires ReportOf(df1, df2).Ok?
    ensures HospitalBase(df1, df2).Ok?
    ensures var b := HospitalBase(df1, df2).value;
      |ReportOf(df1, df2).value.rows| == |b.rows| + |SubtotalGroups(b, Province)| + 1
  {
  }

  lemma LibraryHelpersApart()
    ensures Apart(LibraryHelpers, Province, CategoryColumn)
  {
    assert Flags(LibraryHelpers) == ["_group1_sort", "_group2_sort"];
    assert Province[0] != '_' && CategoryColumn[0] != '_';
  }

  /** A successful report is the grouping order of the unordered rows. */
  lemma ReportIsOrder(df1: Table, df2: Table)
    requires ReportOf(df1, df2).Ok?
    ensures Unordered(df1, df2).Ok?
    ensures ReportOf(df1, df2) ==
      GroupingOrder(LibraryHelpers, Unordered(df1, df2).value, Province, CategoryColumn, TotalLabel, GrandLabel)
  {
  }

  /** In the report, the grand-total row comes after every other row. */
  lemma ReportGrandTotalLast(df1: Table, df2: Table, i: int, j: int)
    requires ReportOf(df1, df2).Ok?
    requires 0 <= i < j < |ReportOf(df1, df2).value.rows|
    ensures var r := ReportOf(df1, df2).value;
      Cell(r, i, Province) == Str(GrandLabel) ==> Cell(r, j, Province) == Str(GrandLabel)
  {
    ReportIsOrder(df1, df2);
    LibraryHelpersApart();
    GroupingOrderOk(LibraryHelpers, Unordered(df1, df2).value, Province, CategoryColumn, TotalLabel, GrandLabel);
    GrandTotalLast(LibraryHelpers, Unordered(df1, df2).value, Province, CategoryColumn, TotalLabel, GrandLabel, i, j);
  }

  /** In the report, a province's subtotal comes after its category rows. */
  lemma ReportSubtotalAfterCategories(df1: Table, df2: Table, i: int, j: int)
    requires ReportOf(df1, df2).Ok?
    requires 0 <= i < j < |ReportOf(df1, df2).value.rows|
    ensures var r := ReportOf(df1, df2).value;
      Cell(r, i, Province) == Cell(r, j, Province) && Cell(r, i, CategoryColumn) == Str(TotalLabel) ==>
      Cell(r, j, CategoryColumn) == Str(TotalLabel)
  {
    ReportIsOrder(df1, df2);
    LibraryHelpersApart();
    GroupingOrderOk(LibraryHelpers, Unordered(df1, df2).value, Province, CategoryColumn, TotalLabel, GrandLabel);
    SubtotalAfterDetail(LibraryHelpers, Unordered(df1, df2).value, Province, CategoryColumn, TotalLabel, GrandLabel, i, j);
  }

  /** In the report, provinces other than the grand total are ascending,
      and within a province the categories other than the total are. */
  lemma ReportOrdered(df1: Table, df2: Table, i: int, j: int)
    requires ReportOf(df1, df2).Ok?
    requires 0 <= i < j < |ReportOf(df1, df2).value.rows|
    ensures var r := ReportOf(df1, df2).value;
      (Cell(r, i, Province) != Str(GrandLabel) && Cell(r, j, Province) != Str(GrandLabel) ==>
        ValueLe(Cell(r, i, Province), Cell(r, j, Province))) &&
      (Cell(r, i, Province) == Cell(r, j, Province) &&
        Cell(r, i, CategoryColumn) != Str(TotalLabel) && Cell(r, j, CategoryColumn) != Str(TotalLabel) ==>
        ValueLe(Cell(r, i, CategoryColumn), Cell(r, j, CategoryColumn)))
  {
    ReportIsOrder(df1, df2);
    LibraryHelpersApart();
    var u := Unordered(df1, df2).value;
    GroupingOrderOk(LibraryHelpers, u, Province, CategoryColumn, TotalLabel, GrandLabel);
    FirstColumnOrdered(LibraryHelpers, u, Province, CategoryColumn, TotalLabel, GrandLabel, i, j);
    SecondColumnOrdered(LibraryHelpers, u, Province, CategoryColumn, TotalLabel, GrandLabel, i, j);
  }

  /** The report holds exactly the unordered rows, rearranged. */
  lemma ReportIsPermutation(df1: Table, df2: Table)
    requires ReportOf(df1, df2).Ok?
    ensures var u, r := Unordered(df1, df2).value, ReportOf(df1, df2).value;
      multiset(r.rows) == multiset(seq(|u.rows|, i requires 0 <= i < |u.rows| => Reshape(u, i, r.columns)))
  {
    ReportIsOrder(df1, df2);
    LibraryHelpersApart();
    GroupingOrderOk(LibraryHelpers, Unordered(df1, df2).value, Province, CategoryColumn, TotalLabel, GrandLabel);
    OrderIsPermutation(LibraryHelpers, Unordered(df1, df2).value, Province, CategoryColumn, TotalLabel, GrandLabel);
  }

  // ---------------------------------------------------------------------
  // The transform object
  // ---------------------------------------------------------------------

  /** A dictionary of DataFrames: its keys in insertion order, each once. */
  ghost predicate WellFormed(names: seq<string>, frames: map<string, DataFrame>)
    reads frames.Values
  {
    NoDuplicates(names) && (forall n :: n in frames <==> n in names) &&
    forall n :: n in frames ==> frames[n].Valid()
  }

  /** `list(frames.values())`: the contents of the frames in key order. */
  function Snapshot(names: seq<string>, frames: map<string, DataFrame>): (ts: seq<Table>)
    reads frames.Values
    requires WellFormed(names, frames)
    ensures |ts| == |names|
    ensures forall k :: 0 <= k < |names| ==> ts[k] == frames[names[k]].AsTable()
  {
    seq(|names|, k requires 0 <= k < |names| && names[k] in frames && frames[names[k]].Valid() reads frames.Values =>
      frames[names[k]].AsTable())
  }

  /** Frames that each hold the relabelled contents of before show the
      relabelled snapshot. */
  lemma SnapshotRelabelled(names: seq<string>, frames: map<string, DataFrame>, before: seq<Table>)
    requires WellFormed(names, frames) && |before| == |names|
    requires forall k :: 0 <= k < |names| ==> frames[names[k]].AsTable() == Relabel(before[k])
    ensures Snapshot(names, frames) == RelabelAll(before)
  {
  }

  /** `_transform` on the dictionary `self.dataframes`: relabels every
      frame in place, then runs the chain on the first two. */
  method RunTransform(names: seq<string>, frames: map<string, DataFrame>) returns (r: Result<Table>)
    requires WellFormed(names, frames)
    modifies frames.Values
    ensures WellFormed(names, frames)
    ensures forall n :: n in names ==> frames[n].AsTable() == Relabel(old(frames[n].AsTable()))
    ensures r == Report(RelabelAll(old(Snapshot(names, frames))))
  {
    ghost var before := Snapshot(names, frames);
    RenameFrames(names, frames);
    var dfs := Snapshot(names, frames);
    assert dfs == RelabelAll(before);
    if |dfs| < 2 {
      r := Err(ValueError(TooFew));
    } else {
      r := RunChain(dfs[0], dfs[1]);
    }
    assert r == Report(dfs);
  }

  /** The loop over `self.dataframes.items()` calling `_rename_columns`: a
      frame held under two names is relabelled twice, which changes nothing
      more. */
  method RenameFrames(names: seq<string>, frames: map<string, DataFrame>)
    requires WellFormed(names, frames)
    modifies frames.Values
    ensures WellFormed(names, frames)
    ensures forall n :: n in names ==> frames[n].AsTable() == Relabel(old(frames[n].AsTable()))
    ensures Snapshot(names, frames) == RelabelAll(old(Snapshot(names, frames)))
  {
    ghost var before := Snapshot(names, frames);
    for k := 0 to |names|
      invariant WellFormed(names, frames)
      invariant forall n :: n in frames ==>
        frames[n].rows == old(frames[n].rows) &&
        (frames[n].columns == old(frames[n].columns) ||
         frames[n].columns == NormalizeColumns(old(frames[n].columns)))
      invariant forall j :: 0 <= j < k ==>
        frames[names[j]].columns == NormalizeColumns(old(frames[names[j]].columns))
    {
      NormalizeIdempotent(old(frames[names[k]].columns));
      RenameAt(names, frames, k);
    }
    forall n | n in names
      ensures frames[n].AsTable() == Relabel(old(frames[n].AsTable()))
    {
      var j :| 0 <= j < |names| && names[j] == n;
    }
    SnapshotRelabelled(names, frames, before);
  }

  /** One turn of the loop: `_rename_columns` on the frame under the k-th
      name. Storing it back under that name leaves the dictionary as it was,
      so the dictionary itself is not updated. */
  method RenameAt(names: seq<string>, frames: map<string, DataFrame>, k: nat)
    requires WellFormed(names, frames) && k < |names|
    modifies frames[names[k]]
    ensures WellFormed(names, frames)
    ensures frames[names[k]].columns == NormalizeColumns(old(frames[names[k]].columns))
    ensures frames[names[k]].rows == old(frames[names[k]].rows)
  {
    var df := frames[names[k]];
    df := RenameColumns(df);
  }

  /** The steps of `_transform` after the unpacking. */
  method RunChain(df1: Table, df2: Table) returns (r: Result<Table>)
    ensures r == ReportOf(df1, df2)
  {
    var df :- Prepare(df1, df2);
    var base :- Pivot(df, Province, CategoryColumn, AgeLabel, AgeGroups);
    r := Summarise(base);
  }

  /** Coercion, join, filter, selection and classification. */
  method Prepare(df1: Table, df2: Table) returns (r: Result<Table>)
    ensures r == Classified(df1, df2)
  {
    var df :- ConvertToNumeric(df1, Bill);
    df :- Join(df, df2, JoinKey, Inner);
    df :- ApplyFilters(df, Bill, ">=", MinimumBill);
    df :- SelectColumns(df, SelectedColumns);
    r := Case(df, KeptColumns, Bill, BillRanges, BillLabels, BillDefault, CategoryColumn);
  }

  /** The rollup of the pivot base, concatenated to it and ordered through
      a fresh DataFrame. */
  method Summarise(base: Table) returns (r: Result<Table>)
    ensures r == Summary(base)
  {
    var totals :- GroupByRollup(base, Province, CategoryColumn, GrandLabel, TotalLabel);
    var frame := new DataFrame(Concat(base, totals));
    r := OrderByGrouping(frame, Province, CategoryColumn, TotalLabel, GrandLabel);
  }

  /** The hospital `Transform` object: the extracted DataFrames by file name
      and the result. */
  class Transform {
    /** `self.dataframes`: its keys in insertion order and the frames they
        map to. The dictionary is only ever written with the frame already
        stored under the same key, so it never changes. */
    const names: seq<string>
    const dataframes: map<string, DataFrame>
    var data: Result<Table>

    ghost predicate Valid()
      reads dataframes.Values
    {
      WellFormed(names, dataframes)
    }

    /** `Transform(raw_data)`: the frames are relabelled in place and the
        report computed from the first two. */
    constructor (names: seq<string>, dataframes: map<string, DataFrame>)
      requires WellFormed(names, dataframes)
      modifies dataframes.Values
      ensures Valid() && this.names == names && this.dataframes == dataframes
      ensures forall n :: n in names ==> dataframes[n].AsTable() == Relabel(old(dataframes[n].AsTable()))
      ensures data == Report(RelabelAll(old(Snapshot(names, dataframes))))
    {
      var r := RunTransform(names, dataframes);
      this.names := names;
      this.dataframes := dataframes;
      data := r;
    }
  }
}
