/** Tables as the pipeline sees a pandas DataFrame: labelled columns in order
    and rows of cells, plus the column-level primitives the operations are
    built from (`df[c]`, `df[c] = ...`, `df[cols]`, `pd.concat`, `df.drop`). */
module Tables {
  import opened Values

  type Row = seq<Value>

  datatype Frame = Frame(columns: seq<string>, rows: seq<Row>)

  predicate Rectangular(f: Frame) {
    forall i :: 0 <= i < |f.rows| ==> |f.rows[i]| == |f.columns|
  }

  /** A DataFrame's contents: every row has one cell per column label. Labels
      may repeat (pandas allows it); a lookup finds the first. */
  type Table = f: Frame | Rectangular(f) witness Frame([], [])

  /** Position of the first column labelled c. */
  function IndexOf(cols: seq<string>, c: string): (k: nat)
    requires c in cols
    ensures k < |cols| && cols[k] == c
    ensures forall j :: 0 <= j < k ==> cols[j] != c
  {
    if cols[0] == c then 0 else 1 + IndexOf(cols[1..], c)
  }

  lemma IndexOfPrefix(a: seq<string>, b: seq<string>, c: string)
    requires c in a
    ensures IndexOf(a + b, c) == IndexOf(a, c)
  {
    var k := IndexOf(a, c);
    var m := IndexOf(a + b, c);
    assert (a + b)[k] == c;
  }

  /** A label placed after front: its cell is the row's entry at that place. */
  lemma CellAfter(t: Table, front: seq<string>, labels: seq<string>, i: nat, c: string)
    requires t.columns == front + labels && i < |t.rows| && c !in front && c in labels
    ensures Cell(t, i, c) == t.rows[i][|front| + IndexOf(labels, c)]
  {
    var k := IndexOf(labels, c);
    assert (front + labels)[|front| + k] == c;
    assert forall j :: 0 <= j < |front| ==> (front + labels)[j] != c;
    assert forall j :: |front| <= j < |front| + k ==> (front + labels)[j] == labels[j - |front|];
  }


  /** The first of labels that cols lacks: the label a lookup of several
      columns reports in its KeyError. */
  function FirstAbsent(cols: seq<string>, labels: seq<string>): (c: string)
    requires exists k :: 0 <= k < |labels| && labels[k] !in cols
    ensures c in labels && c !in cols
  {
    if labels[0] !in cols then labels[0] else FirstAbsent(cols, labels[1..])
  }

  /** `df[c][i]`: the cell of row i under label c; missing outside the table. */
  function Cell(t: Table, i: int, c: string): Value {
    if 0 <= i < |t.rows| && c in t.columns then t.rows[i][IndexOf(t.columns, c)] else Missing
  }

  /** `df[c]` as a list of cells. */
  function ColumnValues(t: Table, c: string): (vs: seq<Value>)
    ensures |vs| == |t.rows|
    ensures forall i :: 0 <= i < |vs| ==> vs[i] == Cell(t, i, c)
  {
    seq(|t.rows|, i requires 0 <= i < |t.rows| => Cell(t, i, c))
  }

  /** `df[c] = vs`: overwrites column c where it stands, or appends it as the
      last column; every other column keeps its cells. */
  function SetColumn(t: Table, c: string, vs: seq<Value>): (r: Table)
    requires |vs| == |t.rows|
    ensures r.columns == if c in t.columns then t.columns else t.columns + [c]
    ensures |r.rows| == |t.rows|
    ensures forall i :: 0 <= i < |r.rows| ==> Cell(r, i, c) == vs[i]
    ensures forall i, d :: d != c ==> Cell(r, i, d) == Cell(t, i, d)
  {
    if c in t.columns then
      var k := IndexOf(t.columns, c);
      var r: Table := Frame(t.columns, seq(|t.rows|, i requires 0 <= i < |t.rows| => t.rows[i][k := vs[i]]));
      assert forall d :: d != c && d in t.columns ==> IndexOf(t.columns, d) != k;
      r
    else
      var cols := t.columns + [c];
      var r: Table := Frame(cols, seq(|t.rows|, i requires 0 <= i < |t.rows| => t.rows[i] + [vs[i]]));
      assert forall d :: d in t.columns ==> IndexOf(cols, d) == IndexOf(t.columns, d) by {
        forall d | d in t.columns { IndexOfPrefix(t.columns, [c], d); }
      }
      assert IndexOf(cols, c) == |t.columns|;
      r
  }

  /** `df[cols]`: exactly the listed columns, in the listed order, for every row. */
  function Project(t: Table, cols: seq<string>): (r: Table)
    requires forall k :: 0 <= k < |cols| ==> cols[k] in t.columns
    ensures r.columns == cols && |r.rows| == |t.rows|
    ensures forall i, k :: 0 <= i < |r.rows| && 0 <= k < |cols| ==> r.rows[i][k] == Cell(t, i, cols[k])
    ensures forall i, c :: Cell(r, i, c) == if c in cols then Cell(t, i, c) else Missing
  {
    Frame(cols, seq(|t.rows|, i requires 0 <= i < |t.rows| =>
      seq(|cols|, k requires 0 <= k < |cols| => Cell(t, i, cols[k]))))
  }

  /** Labels of b that a lacks, in b's order, each once. */
  function NewLabels(a: seq<string>, b: seq<string>): (n: seq<string>)
    decreases |b|
  {
    if |b| == 0 then []
    else
      var rest := NewLabels(a + [b[0]], b[1..]);
      if b[0] in a then rest else [b[0]] + rest
  }

  /** The new labels are those of b missing from a. */
  lemma {:induction false} NewLabelsHas(a: seq<string>, b: seq<string>, c: string)
    ensures c in NewLabels(a, b) <==> c in b && c !in a
    decreases |b|
  {
    if |b| > 0 {
      NewLabelsHas(a + [b[0]], b[1..], c);
      assert c in b <==> c == b[0] || c in b[1..];
    }
  }

  /** Labels all already present add nothing. */
  lemma {:induction false} NoNewLabels(a: seq<string>, b: seq<string>)
    requires forall k :: 0 <= k < |b| ==> b[k] in a
    ensures NewLabels(a, b) == []
    decreases |b|
  {
    if |b| > 0 {
      assert b[0] in a;
      NoNewLabels(a + [b[0]], b[1..]);
    }
  }

  /** Row i of t laid out under the labels cols. */
  function Reshape(t: Table, i: int, cols: seq<string>): (r: Row)
    ensures |r| == |cols|
  {
    seq(|cols|, j requires 0 <= j < |cols| => Cell(t, i, cols[j]))
  }

  /** `pd.concat([a, b], ignore_index=True)`: the rows of a, then the rows of
      b, over a's labels followed by the labels only b has; a cell is missing
      where its table lacks the label. */
  function Concat(a: Table, b: Table): (r: Table)
    ensures r.columns == a.columns + NewLabels(a.columns, b.columns)
    ensures (forall k :: 0 <= k < |b.columns| ==> b.columns[k] in a.columns) ==> r.columns == a.columns
    ensures |r.rows| == |a.rows| + |b.rows|
    ensures forall i, c :: 0 <= i < |a.rows| ==> Cell(r, i, c) == Cell(a, i, c)
    ensures forall i, c :: 0 <= i < |b.rows| ==> Cell(r, |a.rows| + i, c) == Cell(b, i, c)
  {
    var cols := a.columns + NewLabels(a.columns, b.columns);
    assert (forall k :: 0 <= k < |b.columns| ==> b.columns[k] in a.columns) ==> cols == a.columns by {
      if forall k :: 0 <= k < |b.columns| ==> b.columns[k] in a.columns {
        NoNewLabels(a.columns, b.columns);
      }
    }
    var r: Table := Frame(cols,
      seq(|a.rows|, i requires 0 <= i < |a.rows| => Reshape(a, i, cols)) +
      seq(|b.rows|, i requires 0 <= i < |b.rows| => Reshape(b, i, cols)));
    assert forall i, c :: 0 <= i < |a.rows| && c in cols ==> Cell(r, i, c) == Cell(a, i, c) by {
      forall i, c | 0 <= i < |a.rows| && c in cols
        ensures Cell(r, i, c) == Cell(a, i, c)
      {
        assert cols[IndexOf(cols, c)] == c;
      }
    }
    assert forall i, c :: 0 <= i < |b.rows| && c in cols ==> Cell(r, |a.rows| + i, c) == Cell(b, i, c) by {
      forall i, c | 0 <= i < |b.rows| && c in cols
        ensures Cell(r, |a.rows| + i, c) == Cell(b, i, c)
      {
        assert cols[IndexOf(cols, c)] == c;
      }
    }
    forall c | c in b.columns ensures c in cols {
      NewLabelsHas(a.columns, b.columns, c);
    }
    r
  }

  /** In a table built from three by concatenation, the middle table's rows
      keep their cells. */
  lemma ConcatMiddle(a: Table, b: Table, e: Table, i: nat, c: string)
    requires i < |b.rows|
    ensures Cell(Concat(Concat(a, b), e), |a.rows| + i, c) == Cell(b, i, c)
  {
    var ab := Concat(a, b);
    assert Cell(ab, |a.rows| + i, c) == Cell(b, i, c);
  }

  /** ... and so do the last table's rows. */
  lemma ConcatLast(a: Table, b: Table, e: Table, i: nat, c: string)
    requires i < |e.rows|
    ensures Cell(Concat(Concat(a, b), e), |a.rows| + |b.rows| + i, c) == Cell(e, i, c)
  {
    var ab := Concat(a, b);
    assert |ab.rows| == |a.rows| + |b.rows|;
  }

  /** The labels of cols that are not in names, in order. */
  function Remaining(cols: seq<string>, names: seq<string>): (r: seq<string>)
    ensures forall c :: c in r <==> c in cols && c !in names
    ensures |r| <= |cols|
  {
    if |cols| == 0 then []
    else (if cols[0] in names then [] else [cols[0]]) + Remaining(cols[1..], names)
  }

  /** A label that is dropped anyway may be appended first without effect. */
  lemma {:induction false} RemainingAppendDropped(cols: seq<string>, x: string, names: seq<string>)
    requires x in names
    ensures Remaining(cols + [x], names) == Remaining(cols, names)
    decreases |cols|
  {
    if |cols| > 0 {
      assert (cols + [x])[1..] == cols[1..] + [x];
      RemainingAppendDropped(cols[1..], x, names);
    } else {
      assert Remaining([x], names) == [] + Remaining([x][1..], names);
    }
  }

  /** `df.drop(columns=names)`: the columns labelled by names go, the others
      keep their order and their cells. */
  function DropColumns(t: Table, names: seq<string>): (r: Table)
    ensures r.columns == Remaining(t.columns, names)
    ensures |r.rows| == |t.rows|
    ensures forall i, c :: Cell(r, i, c) == if c in names then Missing else Cell(t, i, c)
  {
    Project(t, Remaining(t.columns, names))
  }

  /** The positions below n that keep accepts, in increasing order: the rows
      a boolean mask `df[mask]` lets through. */
  function Indices(n: nat, keep: nat -> bool): (r: seq<nat>)
    ensures |r| <= n
    ensures forall i: nat :: i in r <==> i < n && keep(i)
    decreases n
  {
    if n == 0 then [] else Indices(n - 1, keep) + (if keep(n - 1) then [n - 1] else [])
  }

  /** Each selected position is below n and accepted by keep. */
  lemma IndicesAt(n: nat, keep: nat -> bool)
    ensures forall k :: 0 <= k < |Indices(n, keep)| ==> Indices(n, keep)[k] < n && keep(Indices(n, keep)[k])
  {
    var r := Indices(n, keep);
    forall k | 0 <= k < |r| ensures r[k] < n && keep(r[k]) {
      assert r[k] in r;
    }
  }

  /** The selected positions come in increasing order. */
  lemma {:induction false} IndicesIncrease(n: nat, keep: nat -> bool)
    ensures forall k, m :: 0 <= k < m < |Indices(n, keep)| ==> Indices(n, keep)[k] < Indices(n, keep)[m]
  {
    if n > 0 {
      IndicesIncrease(n - 1, keep);
      IndicesAt(n - 1, keep);
      var prev, r := Indices(n - 1, keep), Indices(n, keep);
      forall k, m | 0 <= k < m < |r| ensures r[k] < r[m] {
        assert r[k] == prev[k];
        if m >= |prev| { assert r[m] == n - 1; } else { assert r[m] == prev[m]; }
      }
    }
  }

  /** One more position, kept by the mask, comes last. */
  lemma IndicesStep(n: nat, keep: nat -> bool)
    requires keep(n)
    ensures Indices(n + 1, keep) == Indices(n, keep) + [n]
  {
  }

  /** The positions 0 .. n-1 followed by n are the positions 0 .. n. */
  lemma CountingUp(r: seq<nat>, n: nat)
    requires |r| == n && forall k :: 0 <= k < n ==> r[k] == k
    ensures |r + [n]| == n + 1 && forall k :: 0 <= k < n + 1 ==> (r + [n])[k] == k
  {
  }

  /** A mask that lets every row through selects every position. */
  lemma {:induction false} IndicesOfAll(n: nat, keep: nat -> bool)
    requires forall i :: 0 <= i < n ==> keep(i)
    ensures |Indices(n, keep)| == n
    ensures forall k :: 0 <= k < n ==> Indices(n, keep)[k] == k
  {
    if n > 0 {
      assert keep(n - 1);
      IndicesOfAll(n - 1, keep);
      IndicesStep(n - 1, keep);
      var r := Indices(n - 1, keep);
      CountingUp(r, n - 1);
      assert Indices(n, keep) == r + [n - 1];
    }
  }

  /** The rows of t at the positions idx, in that order, under t's labels. */
  function Pick(t: Table, idx: seq<nat>): (r: Table)
    requires forall k :: 0 <= k < |idx| ==> idx[k] < |t.rows|
    ensures r.columns == t.columns && |r.rows| == |idx|
    ensures forall k :: 0 <= k < |idx| ==> r.rows[k] == t.rows[idx[k]]
    ensures forall k, c :: 0 <= k < |idx| ==> Cell(r, k, c) == Cell(t, idx[k], c)
  {
    Frame(t.columns, seq(|idx|, k requires 0 <= k < |idx| => t.rows[idx[k]]))
  }

  /** A DataFrame object: the pipeline's in-place operations relabel its
      columns or add columns to it, so its contents are fields. */
  class DataFrame {
    var columns: seq<string>
    var rows: seq<Row>

    ghost predicate Valid()
      reads this
    {
      Rectangular(Frame(columns, rows))
    }

    function AsTable(): Table
      reads this
      requires Valid()
    {
      Frame(columns, rows)
    }

    constructor (t: Table)
      ensures Valid() && AsTable() == t
    {
      columns := t.columns;
      rows := t.rows;
    }
  }
}
