/** `df1.merge(df2, on=key, how=kind)`: which rows pair up, the labels of
    the joined table, and the cells of each joined row. Which rows pair up
    depends only on the two key columns, so the pairing is computed on them. */
module SqlJoin {
  import opened Values
  import opened Tables

  datatype JoinKind = Inner | LeftOuter | RightOuter | FullOuter

  /** One output row: a left row paired with a right row, or a row of one
      side alone (the other side's cells missing). */
  datatype Link = Both(i: nat, j: nat) | LeftOnly(i: nat) | RightOnly(j: nat)

  /** Left row i and right row j pair up when their key cells are equal;
      missing keys match each other, as in pandas. lk and rk are the key
      columns of the two tables. */
  predicate Matches(lk: seq<Value>, rk: seq<Value>, i: nat, j: nat) {
    i < |lk| && j < |rk| && lk[i] == rk[j]
  }

  /** The right rows whose key matches left row i, in right-table order. */
  function RightPartners(lk: seq<Value>, rk: seq<Value>, i: nat): (m: seq<nat>)
    ensures forall j: nat :: j in m <==> Matches(lk, rk, i, j)
  {
    Indices(|rk|, (j: nat) => Matches(lk, rk, i, j))
  }

  /** The left rows whose key matches right row j, in left-table order. */
  function LeftPartners(lk: seq<Value>, rk: seq<Value>, j: nat): (m: seq<nat>)
    ensures forall i: nat :: i in m <==> Matches(lk, rk, i, j)
  {
    Indices(|lk|, (i: nat) => Matches(lk, rk, i, j))
  }

  predicate Unmatched(lk: seq<Value>, rk: seq<Value>, i: nat) {
    forall j: nat :: j < |rk| ==> !Matches(lk, rk, i, j)
  }

  predicate UnmatchedRight(lk: seq<Value>, rk: seq<Value>, j: nat) {
    forall i: nat :: i < |lk| ==> !Matches(lk, rk, i, j)
  }

  /** Left row i paired with each of the right rows m, in m's order. */
  function PairsOfLeft(i: nat, m: seq<nat>): (links: seq<Link>)
    ensures |links| == |m|
    ensures forall x :: x in links <==> x.Both? && x.i == i && x.j in m
  {
    if |m| == 0 then [] else [Both(i, m[0])] + PairsOfLeft(i, m[1..])
  }

  /** Each of the left rows m paired with right row j, in m's order. */
  function PairsOfRight(m: seq<nat>, j: nat): (links: seq<Link>)
    ensures |links| == |m|
    ensures forall x :: x in links <==> x.Both? && x.j == j && x.i in m
  {
    if |m| == 0 then [] else [Both(m[0], j)] + PairsOfRight(m[1..], j)
  }

  /** The links that left row i contributes to a left-driven join. */
  predicate FromLeftRow(lk: seq<Value>, rk: seq<Value>, i: nat, padded: bool, x: Link) {
    match x
    case Both(i', j) => i' == i && Matches(lk, rk, i, j)
    case LeftOnly(i') => i' == i && padded && Unmatched(lk, rk, i)
    case RightOnly(_) => false
  }

  /** The links that right row j contributes to a right join. */
  predicate FromRightRow(lk: seq<Value>, rk: seq<Value>, j: nat, x: Link) {
    match x
    case Both(i, j') => j' == j && Matches(lk, rk, i, j)
    case RightOnly(j') => j' == j && UnmatchedRight(lk, rk, j)
    case LeftOnly(_) => false
  }

  /** Left row i has no right partner exactly when its partner list is empty. */
  lemma NoRightPartners(lk: seq<Value>, rk: seq<Value>, i: nat)
    ensures |RightPartners(lk, rk, i)| == 0 <==> Unmatched(lk, rk, i)
  {
    var m := RightPartners(lk, rk, i);
    if |m| > 0 { assert m[0] in m; }
  }

  /** Right row j has no left partner exactly when its partner list is empty. */
  lemma NoLeftPartners(lk: seq<Value>, rk: seq<Value>, j: nat)
    ensures |LeftPartners(lk, rk, j)| == 0 <==> UnmatchedRight(lk, rk, j)
  {
    var m := LeftPartners(lk, rk, j);
    if |m| > 0 { assert m[0] in m; }
  }

  /** The links left row i contributes: one per right partner, or a lone
      left link when it has none and padded is set. */
  function LeftBlock(lk: seq<Value>, rk: seq<Value>, i: nat, padded: bool): (links: seq<Link>)
    ensures padded ==> |links| >= 1
  {
    var m := RightPartners(lk, rk, i);
    if |m| == 0 then (if padded then [LeftOnly(i)] else []) else PairsOfLeft(i, m)
  }

  lemma LeftBlockHas(lk: seq<Value>, rk: seq<Value>, i: nat, padded: bool, x: Link)
    ensures x in LeftBlock(lk, rk, i, padded) <==> FromLeftRow(lk, rk, i, padded, x)
  {
    NoRightPartners(lk, rk, i);
  }

  /** The links right row j contributes: one per left partner, or a lone
      right link when it has none. */
  function RightBlock(lk: seq<Value>, rk: seq<Value>, j: nat): (links: seq<Link>)
    ensures |links| >= 1
  {
    var m := LeftPartners(lk, rk, j);
    if |m| == 0 then [RightOnly(j)] else PairsOfRight(m, j)
  }

  lemma RightBlockHas(lk: seq<Value>, rk: seq<Value>, j: nat, x: Link)
    ensures x in RightBlock(lk, rk, j) <==> FromRightRow(lk, rk, j, x)
  {
    NoLeftPartners(lk, rk, j);
  }

  /** Right row j alone, when no left row matches it. */
  function LoneBlock(lk: seq<Value>, rk: seq<Value>, j: nat): (links: seq<Link>)
    ensures forall x :: x in links <==> x == RightOnly(j) && UnmatchedRight(lk, rk, j)
  {
    NoLeftPartners(lk, rk, j);
    if |LeftPartners(lk, rk, j)| == 0 then [RightOnly(j)] else []
  }

  /** The blocks one after another. */
  function Flatten(bs: seq<seq<Link>>): (links: seq<Link>)
    ensures (forall j :: 0 <= j < |bs| ==> |bs[j]| >= 1) ==> |links| >= |bs|
  {
    if |bs| == 0 then [] else Flatten(bs[..|bs| - 1]) + bs[|bs| - 1]
  }

  /** A link is in the flattening exactly when it is in one of the blocks. */
  lemma {:induction false} FlattenHas(bs: seq<seq<Link>>, x: Link)
    ensures x in Flatten(bs) <==> exists j :: 0 <= j < |bs| && x in bs[j]
  {
    if |bs| > 0 {
      var front, last := bs[..|bs| - 1], bs[|bs| - 1];
      FlattenHas(front, x);
      assert x in Flatten(front) + last <==> x in Flatten(front) || x in last;
      if x in Flatten(front) {
        var j :| 0 <= j < |front| && x in front[j];
        assert bs[j] == front[j];
      }
      if exists j :: 0 <= j < |bs| && x in bs[j] {
        var j :| 0 <= j < |bs| && x in bs[j];
        if j < |front| { assert front[j] == bs[j]; }
      }
    }
  }

  /** The links the first n left rows produce, left row by left row; within
      a left row its partners follow right-table order. */
  function LeftDriven(lk: seq<Value>, rk: seq<Value>, n: nat, padded: bool): (links: seq<Link>)
    ensures padded ==> |links| >= n
  {
    Flatten(seq(n, i requires 0 <= i < n => LeftBlock(lk, rk, i, padded)))
  }

  /** A left-driven link comes from one of the first n left rows: a pair
      with a matching right row, or, when padded is set, an unmatched left
      row alone. */
  predicate LeftRowBelow(lk: seq<Value>, rk: seq<Value>, n: nat, padded: bool, x: Link) {
    !x.RightOnly? && x.i < n && FromLeftRow(lk, rk, x.i, padded, x)
  }

  lemma LeftDrivenHas(lk: seq<Value>, rk: seq<Value>, n: nat, padded: bool, x: Link)
    ensures x in LeftDriven(lk, rk, n, padded) <==> LeftRowBelow(lk, rk, n, padded, x)
  {
    var bs := seq(n, i requires 0 <= i < n => LeftBlock(lk, rk, i, padded));
    FlattenHas(bs, x);
    if LeftRowBelow(lk, rk, n, padded, x) {
      LeftBlockHas(lk, rk, x.i, padded, x);
      assert x in bs[x.i];
    }
    if exists j :: 0 <= j < n && x in bs[j] {
      var j :| 0 <= j < n && x in bs[j];
      LeftBlockHas(lk, rk, j, padded, x);
    }
  }

  /** The links of a right join: right row by right row, each with its
      partners in left-table order, or alone when it has none. */
  function RightDriven(lk: seq<Value>, rk: seq<Value>, n: nat): (links: seq<Link>)
    ensures |links| >= n
  {
    Flatten(seq(n, j requires 0 <= j < n => RightBlock(lk, rk, j)))
  }

  /** A right-driven link comes from one of the first n right rows: a pair
      with a matching left row, or an unmatched right row alone. */
  predicate RightRowBelow(lk: seq<Value>, rk: seq<Value>, n: nat, x: Link) {
    !x.LeftOnly? && x.j < n && FromRightRow(lk, rk, x.j, x)
  }

  lemma RightDrivenHas(lk: seq<Value>, rk: seq<Value>, n: nat, x: Link)
    ensures x in RightDriven(lk, rk, n) <==> RightRowBelow(lk, rk, n, x)
  {
    var bs := seq(n, j requires 0 <= j < n => RightBlock(lk, rk, j));
    FlattenHas(bs, x);
    if RightRowBelow(lk, rk, n, x) {
      RightBlockHas(lk, rk, x.j, x);
      assert x in bs[x.j];
    }
    if exists j :: 0 <= j < n && x in bs[j] {
      var j :| 0 <= j < n && x in bs[j];
      RightBlockHas(lk, rk, j, x);
    }
  }

  /** The right rows among the first n that no left row matches. */
  function LoneRight(lk: seq<Value>, rk: seq<Value>, n: nat): (links: seq<Link>)
    ensures forall x :: x in links <==> x.RightOnly? && x.j < n && UnmatchedRight(lk, rk, x.j)
    decreases n
  {
    if n == 0 then [] else LoneRight(lk, rk, n - 1) + LoneBlock(lk, rk, n - 1)
  }

  /** Which rows the join produces, in output order. An outer join lists the
      left join first and then the right rows nobody matched. A left or
      outer join keeps at least one row for each left row, a right join one
      for each right row. */
  function Links(lk: seq<Value>, rk: seq<Value>, kind: JoinKind): (links: seq<Link>)
    ensures kind == LeftOuter || kind == FullOuter ==> |links| >= |lk|
    ensures kind == RightOuter ==> |links| >= |rk|
  {
    match kind
    case Inner => LeftDriven(lk, rk, |lk|, false)
    case LeftOuter => LeftDriven(lk, rk, |lk|, true)
    case RightOuter => RightDriven(lk, rk, |rk|)
    case FullOuter => LeftDriven(lk, rk, |lk|, true) + LoneRight(lk, rk, |rk|)
  }

  /** What a join of the given kind lets through: every pair of rows whose
      keys match; for left and outer joins each left row without a partner;
      for right and outer joins each right row without one. */
  predicate Admitted(lk: seq<Value>, rk: seq<Value>, kind: JoinKind, x: Link) {
    match x
    case Both(i, j) => Matches(lk, rk, i, j)
    case LeftOnly(i) => (kind == LeftOuter || kind == FullOuter) && i < |lk| && Unmatched(lk, rk, i)
    case RightOnly(j) => (kind == RightOuter || kind == FullOuter) && j < |rk| && UnmatchedRight(lk, rk, j)
  }

  /** Every kind of join produces exactly the admitted links: the matching
      pairs, plus the partnerless rows of the side(s) it keeps. */
  lemma LinksExact(lk: seq<Value>, rk: seq<Value>, kind: JoinKind)
    ensures forall x :: x in Links(lk, rk, kind) <==> Admitted(lk, rk, kind, x)
  {
    forall x ensures x in Links(lk, rk, kind) <==> Admitted(lk, rk, kind, x) {
      match kind
      case Inner => LeftDrivenHas(lk, rk, |lk|, false, x);
      case LeftOuter => LeftDrivenHas(lk, rk, |lk|, true, x);
      case RightOuter => RightDrivenHas(lk, rk, |rk|, x);
      case FullOuter =>
        LeftDrivenHas(lk, rk, |lk|, true, x);
        var a, b := LeftDriven(lk, rk, |lk|, true), LoneRight(lk, rk, |rk|);
        assert x in a + b <==> x in a || x in b;
    }
  }

  /** On the key columns of two tables, a match is a pair of rows whose key
      cells are equal. */
  lemma KeyColumnsMatch(l: Table, r: Table, key: string, i: nat, j: nat)
    ensures Matches(ColumnValues(l, key), ColumnValues(r, key), i, j) <==>
      i < |l.rows| && j < |r.rows| && Cell(l, i, key) == Cell(r, j, key)
  {
  }

  /** The rows of `df1.merge(df2, on=key, how=kind)`, in output order. */
  function JoinLinks(l: Table, r: Table, key: string, kind: JoinKind): seq<Link> {
    Links(ColumnValues(l, key), ColumnValues(r, key), kind)
  }

  predicate LinkIn(l: Table, r: Table, x: Link) {
    match x
    case Both(i, j) => i < |l.rows| && j < |r.rows|
    case LeftOnly(i) => i < |l.rows|
    case RightOnly(j) => j < |r.rows|
  }

  lemma LinksInRange(l: Table, r: Table, key: string, kind: JoinKind)
    ensures forall x :: x in JoinLinks(l, r, key, kind) ==> LinkIn(l, r, x)
  {
    LinksExact(ColumnValues(l, key), ColumnValues(r, key), kind);
  }

  /** A left label shared with a non-key right label gets the suffix `_x`. */
  function LeftLabel(c: string, rc: seq<string>, key: string): string {
    if c != key && c in rc then c + "_x" else c
  }

  /** A right label shared with a left label gets the suffix `_y`. */
  function RightLabel(c: string, lc: seq<string>): string {
    if c in lc then c + "_y" else c
  }

  /** The right labels other than the key, in right-table order. */
  function RightRest(r: Table, key: string): seq<string> {
    Remaining(r.columns, [key])
  }

  /** The joined table's labels: the left labels, then the right labels
      other than the key, suffixed where they clash. */
  function JoinColumns(l: Table, r: Table, key: string): (cols: seq<string>)
    ensures |cols| == |l.columns| + |RightRest(r, key)|
    ensures forall k :: 0 <= k < |l.columns| ==> cols[k] == LeftLabel(l.columns[k], r.columns, key)
    ensures forall q :: 0 <= q < |RightRest(r, key)| ==>
      cols[|l.columns| + q] == RightLabel(RightRest(r, key)[q], l.columns)
  {
    seq(|l.columns|, k requires 0 <= k < |l.columns| => LeftLabel(l.columns[k], r.columns, key)) +
    seq(|RightRest(r, key)|, q requires 0 <= q < |RightRest(r, key)| => RightLabel(RightRest(r, key)[q], l.columns))
  }

  /** One joined row: the left row's cells (for a lone right row, only its
      key, under the key label), then the right row's cells other than the
      key (missing for a lone left row). */
  function JoinedRow(l: Table, r: Table, key: string, x: Link): (row: Row)
    requires LinkIn(l, r, x)
    ensures |row| == |l.columns| + |RightRest(r, key)|
  {
    var rest := RightRest(r, key);
    var left := match x
      case Both(i, _) => l.rows[i]
      case LeftOnly(i) => l.rows[i]
      case RightOnly(j) => seq(|l.columns|, k requires 0 <= k < |l.columns| =>
                             if l.columns[k] == key then Cell(r, j, key) else Missing);
    var right := match x
      case Both(_, j) => seq(|rest|, q requires 0 <= q < |rest| => Cell(r, j, rest[q]))
      case RightOnly(j) => seq(|rest|, q requires 0 <= q < |rest| => Cell(r, j, rest[q]))
      case LeftOnly(_) => seq(|rest|, q => Missing);
    left + right
  }

  /** The key column holds only integers and missing cells, so pandas
      stores it as int64 (float64 once a cell is missing). */
  predicate NumberKey(t: Table, key: string) {
    forall i :: 0 <= i < |t.rows| ==> Cell(t, i, key).Int? || Cell(t, i, key).Missing?
  }

  /** The key column holds text and no integer: an object column pandas
      infers as string-like ("string", or "mixed" beside missing cells or
      booleans). */
  predicate TextKey(t: Table, key: string) {
    (exists i :: 0 <= i < |t.rows| && Cell(t, i, key).Str?) &&
    forall i :: 0 <= i < |t.rows| ==> !Cell(t, i, key).Int?
  }

  /** merge refuses to pair a numeric key column with a string-like one.
      The check is skipped when a side has no rows. */
  predicate KeyKindsClash(l: Table, r: Table, key: string) {
    |l.rows| > 0 && |r.rows| > 0 &&
    ((NumberKey(l, key) && TextKey(r, key)) || (TextKey(l, key) && NumberKey(r, key)))
  }

  /** The dtype pandas gives a key column, as its merge message names it. */
  function KeyDtype(t: Table, key: string): string {
    if !NumberKey(t, key) then "object"
    else if exists i :: 0 <= i < |t.rows| && Cell(t, i, key).Missing? then "float64"
    else "int64"
  }

  /** `join_dataframes(df1, df2, key, kind)`. The key must label a column of
      both tables (KeyError otherwise), and the two key columns must not be
      a numeric one and a string-like one (ValueError); the result has one
      row per link, in link order. */
  function Join(l: Table, r: Table, key: string, kind: JoinKind): (res: Result<Table>)
    ensures res.Err? <==> key !in l.columns || key !in r.columns || KeyKindsClash(l, r, key)
    ensures key !in l.columns || key !in r.columns ==> res == Err(KeyError(key))
    ensures key in l.columns && key in r.columns && KeyKindsClash(l, r, key) ==> res.Err? && res.error.ValueError?
    ensures res.Ok? ==> res.value.columns == JoinColumns(l, r, key)
    ensures res.Ok? ==> |res.value.rows| == |JoinLinks(l, r, key, kind)|
    ensures res.Ok? ==> forall p :: 0 <= p < |res.value.rows| ==>
      LinkIn(l, r, JoinLinks(l, r, key, kind)[p]) &&
      res.value.rows[p] == JoinedRow(l, r, key, JoinLinks(l, r, key, kind)[p])
  {
    if key !in l.columns || key !in r.columns then Err(KeyError(key))
    else if KeyKindsClash(l, r, key) then
      Err(ValueError("You are trying to merge on " + KeyDtype(l, key) + " and " + KeyDtype(r, key) +
                     " columns for key '" + key + "'. If you wish to proceed you should use pd.concat"))
    else
      var links := JoinLinks(l, r, key, kind);
      LinksInRange(l, r, key, kind);
      var cols := JoinColumns(l, r, key);
      var t: Table := Frame(cols, seq(|links|, p requires 0 <= p < |links| => JoinedRow(l, r, key, links[p])));
      Ok(t)
  }

  /** In a joined row that pairs left row i with right row j, the left part
      is left row i, the right part holds right row j's non-key cells, and
      the key cell agrees with both sides. */
  lemma JoinedPairCells(l: Table, r: Table, key: string, i: nat, j: nat)
    requires key in l.columns && i < |l.rows| && j < |r.rows| && Cell(l, i, key) == Cell(r, j, key)
    ensures var row := JoinedRow(l, r, key, Both(i, j));
      row[..|l.columns|] == l.rows[i] &&
      row[IndexOf(l.columns, key)] == Cell(l, i, key) == Cell(r, j, key) &&
      forall q :: 0 <= q < |RightRest(r, key)| ==> row[|l.columns| + q] == Cell(r, j, RightRest(r, key)[q])
  {
  }

  /** A lone right row keeps its key under the key label and nothing else of
      the left side. */
  lemma JoinedLoneRightCells(l: Table, r: Table, key: string, j: nat)
    requires key in l.columns && j < |r.rows|
    ensures var row := JoinedRow(l, r, key, RightOnly(j));
      row[IndexOf(l.columns, key)] == Cell(r, j, key) &&
      forall k :: 0 <= k < |l.columns| && l.columns[k] != key ==> row[k] == Missing
  {
  }
}
