/** The marketplace transform: rentals are coerced, joined with their
    segments, filtered, projected, counted per customer site, classified by
    unit count, and rolled up per marketplace and category with a subtotal
    per marketplace and a grand total, in the order the report prints. */
module Marketplace {
  import opened Values
  import opened Tables
  import opened Grouping
  import opened SqlColumns
  import opened SqlFilter
  import opened SqlJoin
  import opened SqlGroup
  import opened SqlCase
  import opened SqlRollup
  import opened Sorting
  import opened SqlOrder

  const Market := "MARKET_PLACE"
  const CategoryColumn := "Category"
  const SegmentColumn := "Segment"
  const UnitCount := "UnitCount"
  const Seg13 := "Seg 1-3"
  const Seg46 := "Seg 4-6"
  /** The label of the per-group count of segments, and of the grand-total row. */
  const GrandTotal := "Grand Total"
  const TotalLabel := "Total"
  const MarketHelpers := Helpers("_market_sort", "_category_sort")

  /** The columns `_select_columns` keeps. */
  const SelectedColumns := ["MARKET_PLACE", "Product_Code", "Segment", "Customer_Site_ID"]
  /** The keys `_count_units_by_customer_site` groups by. */
  const SiteKeys := ["MARKET_PLACE", "Customer_Site_ID", "Segment"]
  /** The columns `_classify_unit_counts` keeps. */
  const ClassifiedColumns := ["MARKET_PLACE", "Segment", "UnitCount"]
  const UnitRanges: seq<(int, int)> := [(1, 2), (3, 5)]
  const UnitLabels := ["1-2", "3-5"]
  const UnitDefault := "6 or more"

  /** items separated by sep. */
  function JoinedOperators(items: seq<string>, sep: string): (s: string)
    ensures |items| == 1 ==> s == items[0]
  {
    if |items| == 0 then "" else if |items| == 1 then items[0] else items[0] + sep + JoinedOperators(items[1..], sep)
  }

  /** The message `_apply_filters` raises for an unknown operator: the
      operator, then the supported ones. */
  function InvalidOperator(op: string): string {
    "Invalid operator: " + op + ". Supported operators are: " + JoinedOperators(Supported, ", ")
  }

  /** `_apply_filters(df, c, op, x)`: the library's filter, but an unknown
      operator is reported with the list of supported ones. */
  function FilterRows(t: Table, c: string, op: string, x: int): (r: Result<Table>)
    ensures c !in t.columns ==> r == Err(KeyError(c))
    ensures c in t.columns && !Comparable(t, c) ==> r.Err? && r.error.TypeError?
    ensures c in t.columns && Comparable(t, c) && op !in Supported ==> r == Err(ValueError(InvalidOperator(op)))
    ensures r.Ok? <==> c in t.columns && Comparable(t, c) && op in Supported
    ensures r.Ok? ==> r.value == Where(t, c, ParseOperator(op).value, x)
  {
    match ApplyFilters(t, c, op, x)
    case Err(ValueError(_)) => Err(ValueError(InvalidOperator(op)))
    case other => other
  }

  /** `_classify_unit_counts`: the market, segment and count of each site,
      and its category: '1-2', '3-5', or '6 or more'. */
  function ClassifyUnitCounts(t: Table): Result<Table> {
    Case(t, ClassifiedColumns, UnitCount, UnitRanges, UnitLabels, UnitDefault, CategoryColumn)
  }

  /** Each classified row's category is decided by its unit count alone:
      '1-2' for one or two units, '3-5' for three to five, '6 or more'
      otherwise; the classification fails only for a missing column or
      text among the counts. */
  lemma ClassifyCategories(t: Table)
    ensures ClassifyUnitCounts(t).Ok? <==>
      (forall k :: 0 <= k < |ClassifiedColumns| ==> ClassifiedColumns[k] in t.columns) &&
      forall i :: 0 <= i < |t.rows| ==> !Cell(t, i, UnitCount).Str?
    ensures ClassifyUnitCounts(t).Ok? ==>
      var r := ClassifyUnitCounts(t).value;
      r.columns == ClassifiedColumns + [CategoryColumn] && |r.rows| == |t.rows| &&
      forall i :: 0 <= i < |t.rows| ==>
        Cell(r, i, CategoryColumn) == Str(UnitCategory(AsNumber(Cell(t, i, UnitCount))))
  {
    assert UnitCount in ClassifiedColumns;
    assert CategoryColumn !in ClassifiedColumns;
    if ClassifyUnitCounts(t).Ok? {
      var r := ClassifyUnitCounts(t).value;
      forall i | 0 <= i < |t.rows|
        ensures Cell(r, i, CategoryColumn) == Str(UnitCategory(AsNumber(Cell(t, i, UnitCount))))
      {
        UnitLabel(Cell(t, i, UnitCount));
      }
    }
  }

  /** The category of a unit count, as the report names it. */
  function UnitCategory(n: Option<int>): string {
    if n.Some? && 1 <= n.value <= 2 then "1-2"
    else if n.Some? && 3 <= n.value <= 5 then "3-5"
    else "6 or more"
  }

  /** The label the unit ranges give one count. */
  lemma UnitLabel(v: Value)
    ensures Label(v, UnitRanges, UnitLabels, UnitDefault) == UnitCategory(AsNumber(v))
  {
    assert UnitRanges[0] == (1, 2) && UnitRanges[1] == (3, 5);
  }

  // ---------------------------------------------------------------------
  // `_build_marketplace_rollup`
  // ---------------------------------------------------------------------

  /** The (market, category) pair of row i; a missing value is a key of its
      own (`dropna=False`). */
  function PairKey(t: Table, i: int): (k: seq<Value>)
    ensures k == [Cell(t, i, Market), Cell(t, i, CategoryColumn)]
  {
    [Cell(t, i, Market), Cell(t, i, CategoryColumn)]
  }

  function PairKeys(t: Table): (ks: seq<seq<Value>>)
    ensures |ks| == |t.rows|
    ensures forall i :: 0 <= i < |ks| ==> ks[i] == PairKey(t, i)
  {
    seq(|t.rows|, i requires 0 <= i < |t.rows| => PairKey(t, i))
  }

  /** The base groups: every (market, category) pair once, in order of first
      appearance. */
  function BaseGroups(t: Table): (gs: seq<seq<Value>>)
    ensures NoDuplicates(gs)
    ensures forall g :: g in gs <==> g in PairKeys(t)
    ensures forall g :: 0 <= g < |gs| ==> |gs[g]| == 2
  {
    var gs := Distinct(PairKeys(t));
    assert forall g :: 0 <= g < |gs| ==> gs[g] in PairKeys(t);
    gs
  }

  /** One for each row whose segment is v: `(x == v).sum()` adds these up. */
  function SegmentIs(t: Table, v: string): (ws: seq<int>)
    ensures |ws| == |t.rows|
    ensures forall i :: 0 <= i < |ws| ==> ws[i] == if Cell(t, i, SegmentColumn) == Str(v) then 1 else 0
  {
    seq(|t.rows|, i requires 0 <= i < |t.rows| => if Cell(t, i, SegmentColumn) == Str(v) then 1 else 0)
  }

  /** One for each row with a segment: `'count'` adds these up. */
  function SegmentPresent(t: Table): (ws: seq<int>)
    ensures |ws| == |t.rows|
    ensures forall i :: 0 <= i < |ws| ==> ws[i] == if Cell(t, i, SegmentColumn) != Missing then 1 else 0
  {
    seq(|t.rows|, i requires 0 <= i < |t.rows| => if Cell(t, i, SegmentColumn) != Missing then 1 else 0)
  }

  /** The base row of group g: the pair, the two segment counts and the
      number of rows with a segment. */
  function BaseRow(t: Table, g: seq<Value>): (row: Row)
    ensures |row| == |g| + 3
  {
    g + [Int(SumFor(PairKeys(t), SegmentIs(t, Seg13), g)),
         Int(SumFor(PairKeys(t), SegmentIs(t, Seg46), g)),
         Int(SumFor(PairKeys(t), SegmentPresent(t), g))]
  }

  const BaseColumns := [Market, CategoryColumn, Seg13, Seg46, GrandTotal]

  /** The report's labels are pairwise different. */
  lemma LabelsApart()
    ensures Market != CategoryColumn && Market != Seg13 && Market != Seg46 && Market != GrandTotal
    ensures CategoryColumn != Seg13 && CategoryColumn != Seg46 && CategoryColumn != GrandTotal
    ensures Seg13 != Seg46 && Seg13 != GrandTotal && Seg46 != GrandTotal
  {
    assert |Market| == 12 && |CategoryColumn| == 8 && |GrandTotal| == 11;
    assert |Seg13| == 7 && |Seg46| == 7 && Seg13[4] != Seg46[4];
  }

  /** Where each base label stands in the base header. */
  lemma BaseLabels()
    ensures IndexOf(BaseColumns, Market) == 0 && IndexOf(BaseColumns, CategoryColumn) == 1
    ensures IndexOf(BaseColumns, Seg13) == 2 && IndexOf(BaseColumns, Seg46) == 3
    ensures IndexOf(BaseColumns, GrandTotal) == 4
  {
    LabelsApart();
    var b := BaseColumns;
    assert b[0] == Market && b[1] == CategoryColumn && b[2] == Seg13 && b[3] == Seg46 && b[4] == GrandTotal;
  }

  /** `df.groupby([market, category], dropna=False).agg(...)`: absent
      grouping or segment columns raise KeyError. */
  function Base(t: Table): (r: Result<Table>)
    ensures r.Ok? <==> Market in t.columns && CategoryColumn in t.columns && SegmentColumn in t.columns
    ensures r.Ok? ==> r.value.columns == BaseColumns && |r.value.rows| == |BaseGroups(t)|
    ensures r.Ok? ==> forall g :: 0 <= g < |r.value.rows| ==> r.value.rows[g] == BaseRow(t, BaseGroups(t)[g])
  {
    if Market !in t.columns then Err(KeyError(Market))
    else if CategoryColumn !in t.columns then Err(KeyError(CategoryColumn))
    else if SegmentColumn !in t.columns then Err(KeyError(SegmentColumn))
    else
      var gs := BaseGroups(t);
      var rows := seq(|gs|, g requires 0 <= g < |gs| => BaseRow(t, gs[g]));
      assert forall g :: 0 <= g < |rows| ==> |rows[g]| == |BaseColumns|;
      var b: Table := Frame(BaseColumns, rows);
      Ok(b)
  }

  /** The cells of base row g under its five labels. */
  lemma BaseCells(t: Table, g: nat)
    requires Base(t).Ok? && g < |BaseGroups(t)|
    ensures var b, k := Base(t).value, BaseGroups(t)[g];
      Cell(b, g, Market) == k[0] && Cell(b, g, CategoryColumn) == k[1] &&
      Cell(b, g, Seg13) == Int(SumFor(PairKeys(t), SegmentIs(t, Seg13), k)) &&
      Cell(b, g, Seg46) == Int(SumFor(PairKeys(t), SegmentIs(t, Seg46), k)) &&
      Cell(b, g, GrandTotal) == Int(SumFor(PairKeys(t), SegmentPresent(t), k))
  {
    BaseLabels();
  }

  /** Pointwise domination carries over to the sums of every group. */
  lemma {:induction false} SumForDominated(ks: seq<seq<Value>>, a: seq<int>, b: seq<int>, c: seq<int>, k: seq<Value>)
    requires |ks| == |a| == |b| == |c|
    requires forall i :: 0 <= i < |a| ==> a[i] >= b[i] + c[i]
    ensures SumFor(ks, a, k) >= SumFor(ks, b, k) + SumFor(ks, c, k)
    decreases |ks|
  {
    if |ks| > 0 {
      var n := |ks| - 1;
      SumForDominated(ks[..n], a[..n], b[..n], c[..n], k);
    }
  }

  /** In every base row the segment count is at least the two named
      segments' counts together: a row is in at most one of them and has a
      segment when it is in either. */
  lemma GrandTotalCoversSegments(t: Table, g: nat)
    requires Base(t).Ok? && g < |BaseGroups(t)|
    ensures var b := Base(t).value;
      Cell(b, g, GrandTotal).n >= Cell(b, g, Seg13).n + Cell(b, g, Seg46).n
  {
    BaseCells(t, g);
    SumForDominated(PairKeys(t), SegmentPresent(t), SegmentIs(t, Seg13), SegmentIs(t, Seg46), BaseGroups(t)[g]);
  }

  /** The base rows partition the input: every row's pair is one base group,
      no group repeats, and the segment counts of all groups add up to the
      number of rows with a segment. */
  lemma BasePartitions(t: Table)
    requires Base(t).Ok?
    ensures var gs := BaseGroups(t);
      (forall i :: 0 <= i < |t.rows| ==> exists g :: 0 <= g < |gs| && gs[g] == PairKey(t, i)) &&
      (forall g, h :: 0 <= g < h < |gs| ==> gs[g] != gs[h]) &&
      Sum(SumsFor(gs, PairKeys(t), SegmentPresent(t))) == Sum(SegmentPresent(t))
  {
    var gs, ks := BaseGroups(t), PairKeys(t);
    forall i | 0 <= i < |t.rows| ensures exists g :: 0 <= g < |gs| && gs[g] == PairKey(t, i) {
      assert ks[i] in gs;
    }
    assert forall i :: 0 <= i < |ks| ==> ks[i] in gs;
    PartitionSum(gs, ks, SegmentPresent(t));
  }

  const CountColumns := [Seg13, Seg46, GrandTotal]

  /** `base.groupby(market, as_index=False).agg(sums)` with the category set
      to the total label: markets missing from the base are left out. */
  function MarketSubtotals(base: Table): (s: Table)
    ensures |s.rows| == |SubtotalGroups(base, Market)|
  {
    TotalledSubtotals(base, Market, CountColumns, CategoryColumn, TotalLabel)
  }

  /** The one grand-total row: each count column summed over all base rows. */
  function MarketGrandRow(base: Table): (gt: Table)
    ensures |gt.rows| == 1
  {
    Frame(BaseColumns, [[Str(GrandTotal), Str(TotalLabel),
      Int(ColumnSum(base, Seg13)), Int(ColumnSum(base, Seg46)), Int(ColumnSum(base, GrandTotal))]])
  }

  /** The rows before ordering: base, subtotals, grand total. */
  function Unordered(base: Table): (u: Table)
    ensures |u.rows| == |base.rows| + |SubtotalGroups(base, Market)| + 1
  {
    Concat(Concat(base, MarketSubtotals(base)), MarketGrandRow(base))
  }

  /** `_build_marketplace_rollup(df)`. */
  function MarketplaceRollup(t: Table): (r: Result<Table>)
    ensures r.Ok? ==> Base(t).Ok?
    ensures r.Ok? ==> |r.value.rows| == |BaseGroups(t)| + |SubtotalGroups(Base(t).value, Market)| + 1
  {
    var base :- Base(t);
    GroupingOrder(MarketHelpers, Unordered(base), Market, CategoryColumn, TotalLabel, GrandTotal)
  }

  /** Subtotal row g holds its market, the total label and, in each count
      column, the sum over that market's base rows. */
  lemma MarketSubtotalRowCells(base: Table, g: nat, c: string)
    requires base.columns == BaseColumns && g < |SubtotalGroups(base, Market)|
    ensures var s, v := MarketSubtotals(base), SubtotalGroups(base, Market)[g];
      Cell(s, g, Market) == v &&
      Cell(s, g, CategoryColumn) == Str(TotalLabel) &&
      (c in CountColumns ==> Cell(s, g, c) == Int(SumFor(KeyCells(base, Market), KeyedNumbers(base, Market, c), v)))
  {
    LabelsApart();
    TotalledSubtotalsCells(base, Market, CountColumns, CategoryColumn, TotalLabel, g, c);
  }

  /** Subtotal row g (after the base rows) holds its market, the total label
      and, in each count column, the sum over that market's base rows. */
  lemma MarketSubtotalCells(base: Table, g: nat, c: string)
    requires base.columns == BaseColumns && g < |SubtotalGroups(base, Market)|
    ensures var u, v := Unordered(base), SubtotalGroups(base, Market)[g];
      Cell(u, |base.rows| + g, Market) == v &&
      Cell(u, |base.rows| + g, CategoryColumn) == Str(TotalLabel) &&
      (c in CountColumns ==>
        Cell(u, |base.rows| + g, c) == Int(SumFor(KeyCells(base, Market), KeyedNumbers(base, Market, c), v)))
  {
    MarketSubtotalRowCells(base, g, c);
    var s, gt := MarketSubtotals(base), MarketGrandRow(base);
    ConcatMiddle(base, s, gt, g, Market);
    ConcatMiddle(base, s, gt, g, CategoryColumn);
    ConcatMiddle(base, s, gt, g, c);
  }

  /** The grand-total row's cells under the base labels. */
  lemma MarketGrandRowCells(base: Table, c: string)
    ensures var gt := MarketGrandRow(base);
      Cell(gt, 0, Market) == Str(GrandTotal) && Cell(gt, 0, CategoryColumn) == Str(TotalLabel) &&
      (c in CountColumns ==> Cell(gt, 0, c) == Int(ColumnSum(base, c)))
  {
    BaseLabels();
  }

  /** The last unordered row is the grand total: its labels, then each count
      column summed over the base. */
  lemma MarketGrandCells(base: Table, c: string)
    ensures var u, last := Unordered(base), |base.rows| + |SubtotalGroups(base, Market)|;
      Cell(u, last, Market) == Str(GrandTotal) &&
      Cell(u, last, CategoryColumn) == Str(TotalLabel) &&
      (c in CountColumns ==> Cell(u, last, c) == Int(ColumnSum(base, c)))
  {
    MarketGrandRowCells(base, c);
    var s, gt := MarketSubtotals(base), MarketGrandRow(base);
    ConcatLast(base, s, gt, 0, Market);
    ConcatLast(base, s, gt, 0, CategoryColumn);
    ConcatLast(base, s, gt, 0, c);
  }

  /** When every market is present, the market subtotals of a count column
      add up to the grand-total row's value for it. */
  lemma MarketSubtotalsAddUp(base: Table, c: string)
    requires forall i :: 0 <= i < |base.rows| ==> Cell(base, i, Market) != Missing
    ensures Sum(SumsFor(SubtotalGroups(base, Market), KeyCells(base, Market), KeyedNumbers(base, Market, c)))
      == ColumnSum(base, c)
  {
    SubtotalsAddUp(base, Market, c);
    KeyedIsWhole(base, Market, c);
  }

  /** The marketplace's helper labels differ from each other and from the
      two grouping columns. */
  lemma MarketHelpersApart()
    ensures Apart(MarketHelpers, Market, CategoryColumn)
  {
    assert Flags(MarketHelpers) == ["_market_sort", "_category_sort"];
    assert Market != "_market_sort" && Market != "_category_sort";
    assert CategoryColumn != "_market_sort" && CategoryColumn != "_category_sort";
  }

  /** A successful rollup is the grouping order of the unordered rows. */
  lemma RollupIsOrder(t: Table)
    requires MarketplaceRollup(t).Ok?
    ensures Base(t).Ok?
    ensures MarketplaceRollup(t) == GroupingOrder(MarketHelpers, Unordered(Base(t).value), Market, CategoryColumn, TotalLabel, GrandTotal)
  {
  }

  /** Subtotals and the grand-total row carry only base labels, so the
      unordered table keeps the base header. */
  lemma UnorderedColumns(base: Table)
    requires base.columns == BaseColumns
    ensures Unordered(base).columns == BaseColumns
  {
    LabelsApart();
    var sub := MarketSubtotals(base);
    assert sub.columns == [Market, Seg13, Seg46, GrandTotal, CategoryColumn];
    assert forall k :: 0 <= k < |sub.columns| ==> sub.columns[k] in BaseColumns;
    var bs := Concat(base, sub);
    assert bs.columns == BaseColumns;
    var gt := MarketGrandRow(base);
    assert forall k :: 0 <= k < |gt.columns| ==> gt.columns[k] in bs.columns;
  }

  /** The rollup succeeds exactly when the base can be built, whatever the
      market and category cells hold; the report then has the base header. */
  lemma RollupSucceeds(t: Table)
    ensures MarketplaceRollup(t).Ok? <==> Base(t).Ok?
    ensures MarketplaceRollup(t).Ok? ==> MarketplaceRollup(t).value.columns == BaseColumns
  {
    if Base(t).Ok? {
      var u := Unordered(Base(t).value);
      UnorderedColumns(Base(t).value);
      MarketHelpersApart();
      GroupingOrderOk(MarketHelpers, u, Market, CategoryColumn, TotalLabel, GrandTotal);
      BaseColumnsKept();
      assert MarketplaceRollup(t) == GroupingOrder(MarketHelpers, u, Market, CategoryColumn, TotalLabel, GrandTotal);
    }
  }

  /** Dropping names that label no column changes nothing. */
  lemma {:induction false} RemainingNone(cols: seq<string>, names: seq<string>)
    requires forall k :: 0 <= k < |cols| ==> cols[k] !in names
    ensures Remaining(cols, names) == cols
  {
    if |cols| > 0 {
      RemainingNone(cols[1..], names);
    }
  }

  /** Dropping the helper columns leaves the base header whole. */
  lemma BaseColumnsKept()
    ensures Remaining(BaseColumns, Flags(MarketHelpers)) == BaseColumns
  {
    var f := Flags(MarketHelpers);
    assert f == ["_market_sort", "_category_sort"];
    forall k | 0 <= k < |BaseColumns| ensures BaseColumns[k] !in f {
      assert BaseColumns[k][0] != '_';
    }
    RemainingNone(BaseColumns, f);
  }

  /** In the report, the grand-total row comes after every other row. */
  lemma ReportGrandTotalLast(t: Table, i: int, j: int)
    requires MarketplaceRollup(t).Ok?
    requires 0 <= i < j < |MarketplaceRollup(t).value.rows|
    ensures var r := MarketplaceRollup(t).value;
      Cell(r, i, Market) == Str(GrandTotal) ==> Cell(r, j, Market) == Str(GrandTotal)
  {
    RollupIsOrder(t);
    MarketHelpersApart();
    var u := Unordered(Base(t).value);
    GroupingOrderOk(MarketHelpers, u, Market, CategoryColumn, TotalLabel, GrandTotal);
    GrandTotalLast(MarketHelpers, u, Market, CategoryColumn, TotalLabel, GrandTotal, i, j);
  }

  /** In the report, a market's subtotal row comes after that market's
      category rows. */
  lemma ReportSubtotalAfterCategories(t: Table, i: int, j: int)
    requires MarketplaceRollup(t).Ok?
    requires 0 <= i < j < |MarketplaceRollup(t).value.rows|
    ensures var r := MarketplaceRollup(t).value;
      Cell(r, i, Market) == Cell(r, j, Market) && Cell(r, i, CategoryColumn) == Str(TotalLabel) ==>
      Cell(r, j, CategoryColumn) == Str(TotalLabel)
  {
    RollupIsOrder(t);
    MarketHelpersApart();
    var u := Unordered(Base(t).value);
    GroupingOrderOk(MarketHelpers, u, Market, CategoryColumn, TotalLabel, GrandTotal);
    SubtotalAfterDetail(MarketHelpers, u, Market, CategoryColumn, TotalLabel, GrandTotal, i, j);
  }

  /** In the report, markets other than the grand total appear in ascending
      order. */
  lemma ReportMarketsOrdered(t: Table, i: int, j: int)
    requires MarketplaceRollup(t).Ok?
    requires 0 <= i < j < |MarketplaceRollup(t).value.rows|
    ensures var r := MarketplaceRollup(t).value;
      (Cell(r, i, Market) != Str(GrandTotal) && Cell(r, j, Market) != Str(GrandTotal) ==>
        ValueLe(Cell(r, i, Market), Cell(r, j, Market))) &&
      (Cell(r, i, Market) == Cell(r, j, Market) &&
        Cell(r, i, CategoryColumn) != Str(TotalLabel) && Cell(r, j, CategoryColumn) != Str(TotalLabel) ==>
        ValueLe(Cell(r, i, CategoryColumn), Cell(r, j, CategoryColumn)))
  {
    RollupIsOrder(t);
    MarketHelpersApart();
    var u := Unordered(Base(t).value);
    GroupingOrderOk(MarketHelpers, u, Market, CategoryColumn, TotalLabel, GrandTotal);
    FirstColumnOrdered(MarketHelpers, u, Market, CategoryColumn, TotalLabel, GrandTotal, i, j);
    SecondColumnOrdered(MarketHelpers, u, Market, CategoryColumn, TotalLabel, GrandTotal, i, j);
  }

  /** The report holds exactly the unordered rows, rearranged. */
  lemma ReportIsPermutation(t: Table)
    requires MarketplaceRollup(t).Ok?
    ensures var u, r := Unordered(Base(t).value), MarketplaceRollup(t).value;
      multiset(r.rows) == multiset(seq(|u.rows|, i requires 0 <= i < |u.rows| => Reshape(u, i, r.columns)))
  {
    RollupIsOrder(t);
    MarketHelpersApart();
    var u := Unordered(Base(t).value);
    GroupingOrderOk(MarketHelpers, u, Market, CategoryColumn, TotalLabel, GrandTotal);
    OrderIsPermutation(MarketHelpers, u, Market, CategoryColumn, TotalLabel, GrandTotal);
  }

  // ---------------------------------------------------------------------
  // The whole chain
  // ---------------------------------------------------------------------

  /** What `_transform` computes from the two extracted tables. */
  function TransformSpec(rentals: Table, segments: Table): Result<Table> {
    var df :- ConvertToNumeric(rentals, "Equipment_Rental_Payment_Month");
    var joined :- Join(df, segments, "Product_Code", Inner);
    var filtered :- FilterRows(joined, "Equipment_Rental_Payment_Month", ">=", 25);
    var selected :- SelectColumns(filtered, SelectedColumns);
    var counted :- GroupByCount(selected, SiteKeys, UnitCount);
    var classified :- ClassifyUnitCounts(counted);
    MarketplaceRollup(classified)
  }

  /** The marketplace `Transform` object: the two extracted tables, the
      configuration `_transform` records, and the result. */
  class Transform {
    var rentals: Table
    var segments: Table
    var data: Result<Table>
    var columnToNumber: string
    var columnToJoin: string
    var joinType: JoinKind
    var filterColumn: string
    var filterOperator: string
    var filterValue: int

    /** The configuration `_transform` sets before running the chain. */
    predicate Configured()
      reads this
    {
      columnToNumber == "Equipment_Rental_Payment_Month" && columnToJoin == "Product_Code" &&
      joinType == Inner && filterColumn == "Equipment_Rental_Payment_Month" &&
      filterOperator == ">=" && filterValue == 25
    }

    /** `Transform(extract)`: the extracted tables are given, and the result
        is computed at once. */
    constructor (rentals: Table, segments: Table)
      ensures this.rentals == rentals && this.segments == segments
      ensures Configured() && data == TransformSpec(rentals, segments)
    {
      this.rentals := rentals;
      this.segments := segments;
      data := Err(ValueError(""));
      columnToNumber, columnToJoin, joinType := "", "", Inner;
      filterColumn, filterOperator, filterValue := "", "", 0;
      new;
      data := RunTransform();
    }

    /** `_transform`: records the configuration, then runs the chain step by
        step on the tables held by the object. */
    method RunTransform() returns (r: Result<Table>)
      modifies this
      ensures rentals == old(rentals) && segments == old(segments) && data == old(data)
      ensures Configured() && r == TransformSpec(rentals, segments)
    {
      columnToNumber := "Equipment_Rental_Payment_Month";
      columnToJoin := "Product_Code";
      joinType := Inner;
      filterColumn := "Equipment_Rental_Payment_Month";
      filterOperator := ">=";
      filterValue := 25;
      var df :- ConvertToNumeric(rentals, columnToNumber);
      df :- Join(df, segments, columnToJoin, joinType);
      df :- FilterRows(df, filterColumn, filterOperator, filterValue);
      df :- SelectColumns(df, SelectedColumns);
      df :- GroupByCount(df, SiteKeys, UnitCount);
      df :- ClassifyUnitCounts(df);
      r := MarketplaceRollup(df);
    }
  }
}
