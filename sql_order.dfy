/** `df_orderby_grouping`: two helper flag columns mark the grand-total and
    subtotal rows, the rows are sorted by (grand flag, first grouping column,
    subtotal flag, second grouping column), and the flags are dropped. The
    flags are written into the caller's DataFrame before sorting. */
module SqlOrder {
  import opened Values
  import opened Tables
  import opened Sorting

  /** The labels of the two helper flag columns: the grand-total flag and
      the subtotal flag. */
  datatype Helpers = Helpers(grandFlag: string, totalFlag: string)

  /** The helper labels `df_orderby_grouping` uses. */
  const LibraryHelpers := Helpers("_group1_sort", "_group2_sort")

  /** `df[c] == label`: true exactly where the cell is that text. */
  function Marks(t: Table, c: string, text: string): (vs: seq<Value>)
    ensures |vs| == |t.rows|
    ensures forall i :: 0 <= i < |vs| ==> vs[i] == Flag(Cell(t, i, c) == Str(text))
  {
    seq(|t.rows|, i requires 0 <= i < |t.rows| => Flag(Cell(t, i, c) == Str(text)))
  }

  /** `df["_group1_sort"] = df[g1] == grand`. */
  function MarkGrand(h: Helpers, t: Table, g1: string, grand: string): Table {
    SetColumn(t, h.grandFlag, Marks(t, g1, grand))
  }

  /** `df["_group2_sort"] = df[g2] == total`. */
  function MarkTotal(h: Helpers, u: Table, g2: string, total: string): Table {
    SetColumn(u, h.totalFlag, Marks(u, g2, total))
  }

  function SortKeys(h: Helpers, g1: string, g2: string): seq<string> {
    [h.grandFlag, g1, h.totalFlag, g2]
  }

  function Flags(h: Helpers): seq<string> {
    [h.grandFlag, h.totalFlag]
  }

  /** Neither grouping column is one of the helper flags. */
  predicate Apart(h: Helpers, g1: string, g2: string) {
    g1 !in Flags(h) && g2 !in Flags(h) && h.grandFlag != h.totalFlag
  }

  /** What `df_orderby_grouping` returns. Reading an absent grouping column
      raises KeyError (the first before the second); the four-key sort then
      orders any cells, numbers before text within a column. */
  function GroupingOrder(h: Helpers, t: Table, g1: string, g2: string, total: string, grand: string): (r: Result<Table>)
    ensures g1 !in t.columns ==> r == Err(KeyError(g1))
    ensures g1 in t.columns && g2 !in t.columns && g2 != h.grandFlag ==> r == Err(KeyError(g2))
    ensures r.Ok? ==> g1 in t.columns && |r.value.rows| == |t.rows|
  {
    if g1 !in t.columns then Err(KeyError(g1))
    else
      var u := MarkGrand(h, t, g1, grand);
      if g2 !in u.columns then Err(KeyError(g2))
      else
        var w := MarkTotal(h, u, g2, total);
        var s :- SortValues(w, SortKeys(h, g1, g2));
        Ok(DropColumns(s, Flags(h)))
  }

  /** After the first flag: the other columns keep their cells and the
      flag says where the first grouping column holds the grand-total label. */
  lemma MarkGrandFacts(h: Helpers, t: Table, g1: string, grand: string)
    ensures var u := MarkGrand(h, t, g1, grand);
      |u.rows| == |t.rows| &&
      Remaining(u.columns, Flags(h)) == Remaining(t.columns, Flags(h)) &&
      (forall i, c :: c != h.grandFlag ==> Cell(u, i, c) == Cell(t, i, c)) &&
      (forall i :: 0 <= i < |u.rows| ==> Cell(u, i, h.grandFlag) == Flag(Cell(t, i, g1) == Str(grand)))
  {
    if h.grandFlag !in t.columns { RemainingAppendDropped(t.columns, h.grandFlag, Flags(h)); }
  }

  /** After the second flag, likewise for the total label. */
  lemma MarkTotalFacts(h: Helpers, u: Table, g2: string, total: string)
    ensures var w := MarkTotal(h, u, g2, total);
      |w.rows| == |u.rows| &&
      Remaining(w.columns, Flags(h)) == Remaining(u.columns, Flags(h)) &&
      (forall i, c :: c != h.totalFlag ==> Cell(w, i, c) == Cell(u, i, c)) &&
      (forall i :: 0 <= i < |w.rows| ==> Cell(w, i, h.totalFlag) == Flag(Cell(u, i, g2) == Str(total)))
  {
    if h.totalFlag !in u.columns { RemainingAppendDropped(u.columns, h.totalFlag, Flags(h)); }
  }

  /** The table with both flags: the other columns keep their cells, the
      flags hold booleans, and dropping the flags gives back t's labels. */
  lemma FlaggedFacts(h: Helpers, t: Table, g1: string, g2: string, total: string, grand: string)
    requires Apart(h, g1, g2)
    ensures var w := MarkTotal(h, MarkGrand(h, t, g1, grand), g2, total);
      |w.rows| == |t.rows| &&
      Remaining(w.columns, Flags(h)) == Remaining(t.columns, Flags(h)) &&
      (forall i, c :: c !in Flags(h) ==> Cell(w, i, c) == Cell(t, i, c)) &&
      (forall i :: 0 <= i < |w.rows| ==> Cell(w, i, h.grandFlag) == Flag(Cell(t, i, g1) == Str(grand))) &&
      (forall i :: 0 <= i < |w.rows| ==> Cell(w, i, h.totalFlag) == Flag(Cell(t, i, g2) == Str(total)))
  {
    var u := MarkGrand(h, t, g1, grand);
    var w := MarkTotal(h, u, g2, total);
    MarkGrandFacts(h, t, g1, grand);
    MarkTotalFacts(h, u, g2, total);
    forall i, c | c !in Flags(h) ensures Cell(w, i, c) == Cell(t, i, c) {
      assert Cell(w, i, c) == Cell(u, i, c);
    }
    forall i | 0 <= i < |w.rows| ensures Cell(w, i, h.grandFlag) == Flag(Cell(t, i, g1) == Str(grand)) {
      assert Cell(w, i, h.grandFlag) == Cell(u, i, h.grandFlag);
    }
    forall i | 0 <= i < |w.rows| ensures Cell(w, i, h.totalFlag) == Flag(Cell(t, i, g2) == Str(total)) {
      assert Cell(u, i, g2) == Cell(t, i, g2);
    }
  }

  /** With both grouping columns present the four-key sort succeeds, even
      when a grouping column mixes text and numbers (a rollup whose second
      column holds numbers beside the total label, say). */
  lemma SortSucceeds(h: Helpers, t: Table, g1: string, g2: string, total: string, grand: string)
    requires Apart(h, g1, g2) && g1 in t.columns && g2 in t.columns
    ensures var w := MarkTotal(h, MarkGrand(h, t, g1, grand), g2, total);
      g2 in MarkGrand(h, t, g1, grand).columns && SortValues(w, SortKeys(h, g1, g2)).Ok?
  {
    var u := MarkGrand(h, t, g1, grand);
    var w := MarkTotal(h, u, g2, total);
    var keys := SortKeys(h, g1, g2);
    FlaggedFacts(h, t, g1, g2, total, grand);
    assert w.columns == u.columns || w.columns == u.columns + [h.totalFlag];
    assert forall k :: 0 <= k < |keys| ==> keys[k] in w.columns;
    assert |keys| == 4;
  }

  /** Ordering succeeds exactly when both grouping columns exist, whatever
      their cells; the result keeps the input's labels but the flags. */
  lemma GroupingOrderOk(h: Helpers, t: Table, g1: string, g2: string, total: string, grand: string)
    requires Apart(h, g1, g2)
    ensures var r := GroupingOrder(h, t, g1, g2, total, grand);
      (r.Ok? <==> g1 in t.columns && g2 in t.columns) &&
      (r.Ok? ==> r.value.columns == Remaining(t.columns, Flags(h)))
  {
    if g1 in t.columns {
      MarkGrandFacts(h, t, g1, grand);
      if g2 in t.columns {
        SortSucceeds(h, t, g1, g2, total, grand);
        FlaggedFacts(h, t, g1, g2, total, grand);
      }
    }
  }

  /** What ordering needs to succeed: both grouping columns present and
      neither clashing with a flag. */
  predicate Orderable(h: Helpers, t: Table, g1: string, g2: string) {
    Apart(h, g1, g2) && g1 in t.columns && g2 in t.columns
  }

  /** Ordering an orderable table succeeds. */
  lemma OrderableOk(h: Helpers, t: Table, g1: string, g2: string, total: string, grand: string)
    requires Orderable(h, t, g1, g2)
    ensures GroupingOrder(h, t, g1, g2, total, grand).Ok?
  {
    GroupingOrderOk(h, t, g1, g2, total, grand);
  }

  /** `df_orderby_grouping(df, g1, g2, total, grand)`: the two flag columns
      are added to the caller's DataFrame itself (the first even when the
      second grouping column then turns out to be absent); the sorted copy
      without the flags is returned. */
  method OrderByGrouping(df: DataFrame, g1: string, g2: string, total: string, grand: string)
    returns (r: Result<Table>)
    requires df.Valid()
    modifies df
    ensures df.Valid()
    ensures r == GroupingOrder(LibraryHelpers, old(df.AsTable()), g1, g2, total, grand)
    ensures g1 !in old(df.columns) ==> df.AsTable() == old(df.AsTable())
    ensures g1 in old(df.columns) && g2 !in MarkGrand(LibraryHelpers, old(df.AsTable()), g1, grand).columns ==>
      df.AsTable() == MarkGrand(LibraryHelpers, old(df.AsTable()), g1, grand)
    ensures g1 in old(df.columns) && g2 in MarkGrand(LibraryHelpers, old(df.AsTable()), g1, grand).columns ==>
      df.AsTable() == MarkTotal(LibraryHelpers, MarkGrand(LibraryHelpers, old(df.AsTable()), g1, grand), g2, total)
  {
    var t := df.AsTable();
    if g1 !in df.columns {
      return Err(KeyError(g1));
    }
    var u := MarkGrand(LibraryHelpers, t, g1, grand);
    df.columns, df.rows := u.columns, u.rows;
    if g2 !in df.columns {
      return Err(KeyError(g2));
    }
    var w := MarkTotal(LibraryHelpers, u, g2, total);
    df.columns, df.rows := w.columns, w.rows;
    var sorted := SortValues(w, SortKeys(LibraryHelpers, g1, g2));
    if sorted.Err? {
      return Err(sorted.error);
    }
    r := Ok(DropColumns(sorted.value, Flags(LibraryHelpers)));
  }

  /** The sorted table, flags included. */
  function SortedFlagged(h: Helpers, t: Table, g1: string, g2: string, total: string, grand: string): (s: Table)
    requires Apart(h, g1, g2) && GroupingOrder(h, t, g1, g2, total, grand).Ok?
  {
    SortValues(MarkTotal(h, MarkGrand(h, t, g1, grand), g2, total), SortKeys(h, g1, g2)).value
  }

  /** Each sorted row is a flagged input row, so its flags still say whether
      its grouping cells are the grand-total and total labels. */
  lemma SortedRowFlags(h: Helpers, t: Table, g1: string, g2: string, total: string, grand: string, i: int)
    requires Orderable(h, t, g1, g2)
    requires 0 <= i < |t.rows|
    ensures GroupingOrder(h, t, g1, g2, total, grand).Ok?
    ensures var s := SortedFlagged(h, t, g1, g2, total, grand);
      var r := GroupingOrder(h, t, g1, g2, total, grand).value;
      Cell(s, i, h.grandFlag) == Flag(Cell(s, i, g1) == Str(grand)) &&
      Cell(s, i, h.totalFlag) == Flag(Cell(s, i, g2) == Str(total)) &&
      Cell(r, i, g1) == Cell(s, i, g1) && Cell(r, i, g2) == Cell(s, i, g2)
  {
    OrderableOk(h, t, g1, g2, total, grand);
    var w := MarkTotal(h, MarkGrand(h, t, g1, grand), g2, total);
    var s := SortedFlagged(h, t, g1, g2, total, grand);
    FlaggedFacts(h, t, g1, g2, total, grand);
    assert s.rows[i] in multiset(w.rows);
    var j :| 0 <= j < |w.rows| && w.rows[j] == s.rows[i];
    assert forall c :: Cell(s, i, c) == Cell(w, j, c);
  }

  /** The sort keys of two sorted rows, in order. */
  lemma SortedPair(h: Helpers, t: Table, g1: string, g2: string, total: string, grand: string, i: int, j: int)
    requires Orderable(h, t, g1, g2)
    requires 0 <= i < j < |t.rows|
    ensures GroupingOrder(h, t, g1, g2, total, grand).Ok?
    ensures var s := SortedFlagged(h, t, g1, g2, total, grand);
      KeyLe([Cell(s, i, h.grandFlag), Cell(s, i, g1), Cell(s, i, h.totalFlag), Cell(s, i, g2)],
            [Cell(s, j, h.grandFlag), Cell(s, j, g1), Cell(s, j, h.totalFlag), Cell(s, j, g2)])
  {
    OrderableOk(h, t, g1, g2, total, grand);
    var w := MarkTotal(h, MarkGrand(h, t, g1, grand), g2, total);
    var s := SortedFlagged(h, t, g1, g2, total, grand);
    var keys := SortKeys(h, g1, g2);
    assert s.columns == w.columns;
    var idx := Positions(w.columns, keys);
    assert KeyLe(KeyAt(s.rows[i], idx), KeyAt(s.rows[j], idx));
    FourCells(h, s, g1, g2, i);
    FourCells(h, s, g1, g2, j);
  }

  /** A row's sort key is its four cells under the sort labels. */
  lemma FourCells(h: Helpers, s: Table, g1: string, g2: string, i: int)
    requires forall k :: 0 <= k < 4 ==> SortKeys(h, g1, g2)[k] in s.columns
    requires 0 <= i < |s.rows|
    ensures KeyAt(s.rows[i], Positions(s.columns, SortKeys(h, g1, g2)))
      == [Cell(s, i, h.grandFlag), Cell(s, i, g1), Cell(s, i, h.totalFlag), Cell(s, i, g2)]
  {
    var a := KeyAt(s.rows[i], Positions(s.columns, SortKeys(h, g1, g2)));
    var b := [Cell(s, i, h.grandFlag), Cell(s, i, g1), Cell(s, i, h.totalFlag), Cell(s, i, g2)];
    assert forall m :: 0 <= m < 4 ==> a[m] == b[m];
  }

  /** One step of the lexicographic order. */
  lemma KeyLeStep(a: seq<Value>, b: seq<Value>)
    requires |a| > 0 && |b| > 0 && KeyLe(a, b)
    ensures ValueLe(a[0], b[0]) && (a[0] == b[0] ==> KeyLe(a[1..], b[1..]))
  {
  }

  /** Unfolds the lexicographic order on keys of four cells. */
  lemma KeyLe4(a: seq<Value>, b: seq<Value>)
    requires |a| == |b| == 4 && KeyLe(a, b)
    ensures ValueLe(a[0], b[0])
    ensures a[0] == b[0] ==> ValueLe(a[1], b[1])
    ensures a[0] == b[0] && a[1] == b[1] ==> ValueLe(a[2], b[2])
    ensures a[0] == b[0] && a[1] == b[1] && a[2] == b[2] ==> ValueLe(a[3], b[3])
  {
    KeyLeStep(a, b);
    if a[0] == b[0] {
      KeyLeStep(a[1..], b[1..]);
      if a[1] == b[1] {
        KeyLeStep(a[2..], b[2..]);
        assert a[1..][1..] == a[2..] && b[1..][1..] == b[2..];
        if a[2] == b[2] {
          KeyLeStep(a[3..], b[3..]);
          assert a[2..][1..] == a[3..] && b[2..][1..] == b[3..];
        }
      }
    }
  }

  /** The grand-total row comes last: every row after one whose first
      grouping column holds the grand-total label holds it too. */
  lemma GrandTotalLast(h: Helpers, t: Table, g1: string, g2: string, total: string, grand: string, i: int, j: int)
    requires Orderable(h, t, g1, g2)
    requires 0 <= i < j < |t.rows|
    ensures GroupingOrder(h, t, g1, g2, total, grand).Ok?
    ensures var r := GroupingOrder(h, t, g1, g2, total, grand).value;
      Cell(r, i, g1) == Str(grand) ==> Cell(r, j, g1) == Str(grand)
  {
    OrderableOk(h, t, g1, g2, total, grand);
    var s := SortedFlagged(h, t, g1, g2, total, grand);
    SortedRowFlags(h, t, g1, g2, total, grand, i);
    SortedRowFlags(h, t, g1, g2, total, grand, j);
    SortedPair(h, t, g1, g2, total, grand, i, j);
    KeyLe4([Cell(s, i, h.grandFlag), Cell(s, i, g1), Cell(s, i, h.totalFlag), Cell(s, i, g2)],
           [Cell(s, j, h.grandFlag), Cell(s, j, g1), Cell(s, j, h.totalFlag), Cell(s, j, g2)]);
  }

  /** Outside the grand total, rows are in order of the first grouping column. */
  lemma FirstColumnOrdered(h: Helpers, t: Table, g1: string, g2: string, total: string, grand: string, i: int, j: int)
    requires Orderable(h, t, g1, g2)
    requires 0 <= i < j < |t.rows|
    ensures GroupingOrder(h, t, g1, g2, total, grand).Ok?
    ensures var r := GroupingOrder(h, t, g1, g2, total, grand).value;
      Cell(r, i, g1) != Str(grand) && Cell(r, j, g1) != Str(grand) ==>
      ValueLe(Cell(r, i, g1), Cell(r, j, g1))
  {
    OrderableOk(h, t, g1, g2, total, grand);
    var s := SortedFlagged(h, t, g1, g2, total, grand);
    SortedRowFlags(h, t, g1, g2, total, grand, i);
    SortedRowFlags(h, t, g1, g2, total, grand, j);
    SortedPair(h, t, g1, g2, total, grand, i, j);
    KeyLe4([Cell(s, i, h.grandFlag), Cell(s, i, g1), Cell(s, i, h.totalFlag), Cell(s, i, g2)],
           [Cell(s, j, h.grandFlag), Cell(s, j, g1), Cell(s, j, h.totalFlag), Cell(s, j, g2)]);
  }

  /** Within one value of the first grouping column, the subtotal row comes
      after the detail rows. */
  lemma SubtotalAfterDetail(h: Helpers, t: Table, g1: string, g2: string, total: string, grand: string, i: int, j: int)
    requires Orderable(h, t, g1, g2)
    requires 0 <= i < j < |t.rows|
    ensures GroupingOrder(h, t, g1, g2, total, grand).Ok?
    ensures var r := GroupingOrder(h, t, g1, g2, total, grand).value;
      Cell(r, i, g1) == Cell(r, j, g1) && Cell(r, i, g2) == Str(total) ==> Cell(r, j, g2) == Str(total)
  {
    OrderableOk(h, t, g1, g2, total, grand);
    var s := SortedFlagged(h, t, g1, g2, total, grand);
    SortedRowFlags(h, t, g1, g2, total, grand, i);
    SortedRowFlags(h, t, g1, g2, total, grand, j);
    SortedPair(h, t, g1, g2, total, grand, i, j);
    KeyLe4([Cell(s, i, h.grandFlag), Cell(s, i, g1), Cell(s, i, h.totalFlag), Cell(s, i, g2)],
           [Cell(s, j, h.grandFlag), Cell(s, j, g1), Cell(s, j, h.totalFlag), Cell(s, j, g2)]);
  }

  /** Within one value of the first grouping column, detail rows are in
      order of the second grouping column. */
  lemma SecondColumnOrdered(h: Helpers, t: Table, g1: string, g2: string, total: string, grand: string, i: int, j: int)
    requires Orderable(h, t, g1, g2)
    requires 0 <= i < j < |t.rows|
    ensures GroupingOrder(h, t, g1, g2, total, grand).Ok?
    ensures var r := GroupingOrder(h, t, g1, g2, total, grand).value;
      Cell(r, i, g1) == Cell(r, j, g1) && Cell(r, i, g2) != Str(total) && Cell(r, j, g2) != Str(total) ==>
      ValueLe(Cell(r, i, g2), Cell(r, j, g2))
  {
    OrderableOk(h, t, g1, g2, total, grand);
    var s := SortedFlagged(h, t, g1, g2, total, grand);
    SortedRowFlags(h, t, g1, g2, total, grand, i);
    SortedRowFlags(h, t, g1, g2, total, grand, j);
    SortedPair(h, t, g1, g2, total, grand, i, j);
    KeyLe4([Cell(s, i, h.grandFlag), Cell(s, i, g1), Cell(s, i, h.totalFlag), Cell(s, i, g2)],
           [Cell(s, j, h.grandFlag), Cell(s, j, g1), Cell(s, j, h.totalFlag), Cell(s, j, g2)]);
  }

  /** A row laid out under the labels cols, reading its cells through labels. */
  function Lay(labels: seq<string>, row: Row, cols: seq<string>): (r: Row)
    ensures |r| == |cols|
  {
    seq(|cols|, k requires 0 <= k < |cols| =>
      if cols[k] in labels && IndexOf(labels, cols[k]) < |row| then row[IndexOf(labels, cols[k])] else Missing)
  }

  lemma ReshapeIsLay(t: Table, i: int, cols: seq<string>)
    requires 0 <= i < |t.rows|
    ensures Reshape(t, i, cols) == Lay(t.columns, t.rows[i], cols)
  {
  }

  function LayUnder(labels: seq<string>, cols: seq<string>): Row -> Row {
    (row: Row) => Lay(labels, row, cols)
  }

  /** The table's rows, laid out under cols. */
  lemma RowsLaidOut(t: Table, cols: seq<string>)
    ensures MapSeq(t.rows, LayUnder(t.columns, cols)) == seq(|t.rows|, i requires 0 <= i < |t.rows| => Reshape(t, i, cols))
  {
    forall i | 0 <= i < |t.rows|
      ensures MapSeq(t.rows, LayUnder(t.columns, cols))[i] == Reshape(t, i, cols)
    {
      MapSeqAt(t.rows, LayUnder(t.columns, cols), i);
      ReshapeIsLay(t, i, cols);
    }
  }

  /** Tables that agree on every cell under cols lay their rows out alike. */
  lemma SameReshape(a: Table, b: Table, cols: seq<string>)
    requires |a.rows| == |b.rows|
    requires forall i, k :: 0 <= i < |a.rows| && 0 <= k < |cols| ==> Cell(a, i, cols[k]) == Cell(b, i, cols[k])
    ensures seq(|a.rows|, i requires 0 <= i < |a.rows| => Reshape(a, i, cols))
         == seq(|b.rows|, i requires 0 <= i < |b.rows| => Reshape(b, i, cols))
  {
    forall i | 0 <= i < |a.rows| ensures Reshape(a, i, cols) == Reshape(b, i, cols) { }
  }

  /** Ordering only rearranges: the result's rows are the input's rows laid
      out under the result's labels, each as often as in the input. */
  lemma OrderIsPermutation(h: Helpers, t: Table, g1: string, g2: string, total: string, grand: string)
    requires Orderable(h, t, g1, g2)
    ensures GroupingOrder(h, t, g1, g2, total, grand).Ok?
    ensures var r := GroupingOrder(h, t, g1, g2, total, grand).value;
      multiset(r.rows) == multiset(seq(|t.rows|, i requires 0 <= i < |t.rows| => Reshape(t, i, r.columns)))
  {
    OrderableOk(h, t, g1, g2, total, grand);
    SortedRowsKept(h, t, g1, g2, total, grand);
  }

  /** The proof of the above once ordering is known to succeed. */
  lemma SortedRowsKept(h: Helpers, t: Table, g1: string, g2: string, total: string, grand: string)
    requires Apart(h, g1, g2) && GroupingOrder(h, t, g1, g2, total, grand).Ok?
    ensures var r := GroupingOrder(h, t, g1, g2, total, grand).value;
      multiset(r.rows) == multiset(seq(|t.rows|, i requires 0 <= i < |t.rows| => Reshape(t, i, r.columns)))
  {
    var w := MarkTotal(h, MarkGrand(h, t, g1, grand), g2, total);
    var s := SortedFlagged(h, t, g1, g2, total, grand);
    var r := GroupingOrder(h, t, g1, g2, total, grand).value;
    var cols := r.columns;
    assert r == DropColumns(s, Flags(h));
    assert s.columns == w.columns;
    MapPermutation(s.rows, w.rows, LayUnder(w.columns, cols));
    RowsLaidOut(s, cols);
    assert r.rows == seq(|s.rows|, i requires 0 <= i < |s.rows| => Reshape(s, i, cols));
    RowsLaidOut(w, cols);
    assert forall k :: 0 <= k < |cols| ==> cols[k] !in Flags(h);
    UnflaggedReshape(h, t, g1, g2, total, grand, cols);
  }

  /** Under labels other than the flags, the flagged rows read as the input rows. */
  lemma UnflaggedReshape(h: Helpers, t: Table, g1: string, g2: string, total: string, grand: string, cols: seq<string>)
    requires Apart(h, g1, g2)
    requires forall k :: 0 <= k < |cols| ==> cols[k] !in Flags(h)
    ensures var w := MarkTotal(h, MarkGrand(h, t, g1, grand), g2, total);
      seq(|w.rows|, i requires 0 <= i < |w.rows| => Reshape(w, i, cols))
        == seq(|t.rows|, i requires 0 <= i < |t.rows| => Reshape(t, i, cols))
  {
    FlaggedFacts(h, t, g1, g2, total, grand);
    SameReshape(MarkTotal(h, MarkGrand(h, t, g1, grand), g2, total), t, cols);
  }
}
