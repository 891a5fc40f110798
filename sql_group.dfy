/** `GROUP BY`: `df.groupby(keys, as_index=False).size()` and
    `df.groupby(keys, as_index=False).agg(name=(col, func))`. Rows with a
    missing value in any grouping column take part in no group (pandas'
    default `dropna=True`); the groups are listed in order of first
    appearance. */
module SqlGroup {
  import opened Values
  import opened Tables
  import opened Grouping

  /** The cells of row i under the grouping labels. */
  function GroupKey(t: Table, keys: seq<string>, i: int): (k: seq<Value>)
    ensures |k| == |keys|
    ensures forall m :: 0 <= m < |keys| ==> k[m] == Cell(t, i, keys[m])
  {
    seq(|keys|, m requires 0 <= m < |keys| => Cell(t, i, keys[m]))
  }

  /** Row i has a value under every grouping label. */
  predicate Complete(t: Table, keys: seq<string>, i: int) {
    forall m :: 0 <= m < |keys| ==> Cell(t, i, keys[m]) != Missing
  }

  /** The rows that take part in grouping, in table order. */
  function Grouped(t: Table, keys: seq<string>): (idx: seq<nat>)
    ensures forall p :: 0 <= p < |idx| ==> idx[p] < |t.rows| && Complete(t, keys, idx[p])
    ensures forall i: nat :: i in idx <==> i < |t.rows| && Complete(t, keys, i)
  {
    IndicesAt(|t.rows|, (i: nat) => Complete(t, keys, i));
    Indices(|t.rows|, (i: nat) => Complete(t, keys, i))
  }

  /** The group key of each grouped row, in table order. */
  function GroupKeys(t: Table, keys: seq<string>): (ks: seq<seq<Value>>)
    ensures |ks| == |Grouped(t, keys)|
    ensures forall p :: 0 <= p < |ks| ==> ks[p] == GroupKey(t, keys, Grouped(t, keys)[p])
  {
    var idx := Grouped(t, keys);
    seq(|idx|, p requires 0 <= p < |idx| => GroupKey(t, keys, idx[p]))
  }

  /** The groups: each complete key once, in order of first appearance. */
  function Groups(t: Table, keys: seq<string>): (gs: seq<seq<Value>>)
    ensures NoDuplicates(gs)
    ensures forall g :: g in gs <==> g in GroupKeys(t, keys)
  {
    Distinct(GroupKeys(t, keys))
  }

  /** The reasons grouping is refused: no key at all (ValueError), or a key
      the table lacks (KeyError). */
  function CheckKeys(t: Table, keys: seq<string>): (r: Option<Error>)
    ensures r.None? <==> |keys| > 0 && forall m :: 0 <= m < |keys| ==> keys[m] in t.columns
    ensures |keys| == 0 ==> r == Some(ValueError("No group keys passed!"))
    ensures |keys| > 0 && r.Some? ==> r.value.KeyError? && r.value.key in keys && r.value.key !in t.columns
  {
    if |keys| == 0 then Some(ValueError("No group keys passed!"))
    else if exists m :: 0 <= m < |keys| && keys[m] !in t.columns then Some(KeyError(FirstAbsent(t.columns, keys)))
    else None
  }

  /** The table with one row per group: its key cells, then the value the
      group's aggregate takes. */
  function GroupedTable(keys: seq<string>, name: string, gs: seq<seq<Value>>, agg: seq<Value>): (r: Table)
    requires |agg| == |gs|
    requires forall g :: 0 <= g < |gs| ==> |gs[g]| == |keys|
    ensures r.columns == keys + [name] && |r.rows| == |gs|
    ensures forall g :: 0 <= g < |gs| ==> r.rows[g][..|keys|] == gs[g] && r.rows[g][|keys|] == agg[g]
  {
    Frame(keys + [name], seq(|gs|, g requires 0 <= g < |gs| => gs[g] + [agg[g]]))
  }

  /** `df_groupby_count(df, keys, name)`: one row per group holding the
      group's key cells and, under name, how many rows have that key. */
  function GroupByCount(t: Table, keys: seq<string>, name: string): (r: Result<Table>)
    ensures CheckKeys(t, keys).Some? ==> r == Err(CheckKeys(t, keys).value)
    ensures CheckKeys(t, keys).None? ==> r.Ok?
    ensures r.Ok? ==> r.value.columns == keys + [name] && |r.value.rows| == |Groups(t, keys)|
    ensures r.Ok? ==> forall g :: 0 <= g < |r.value.rows| ==>
      r.value.rows[g][..|keys|] == Groups(t, keys)[g] &&
      r.value.rows[g][|keys|] == Int(Count(GroupKeys(t, keys), Groups(t, keys)[g]) as int)
  {
    match CheckKeys(t, keys)
    case Some(e) => Err(e)
    case None =>
      var gs := Groups(t, keys);
      assert forall g :: 0 <= g < |gs| ==> gs[g] in GroupKeys(t, keys);
      Ok(GroupedTable(keys, name, gs, seq(|gs|, g requires 0 <= g < |gs| => Int(Count(GroupKeys(t, keys), gs[g]) as int))))
  }

  /** Every complete row belongs to exactly one group of the count, every
      count is at least one, and the counts add up to the number of complete
      rows. */
  lemma GroupByCountPartitions(t: Table, keys: seq<string>, name: string)
    requires GroupByCount(t, keys, name).Ok?
    ensures var gs := Groups(t, keys);
      (forall i :: 0 <= i < |t.rows| && Complete(t, keys, i) ==>
        exists g :: 0 <= g < |gs| && gs[g] == GroupKey(t, keys, i)) &&
      (forall g, h :: 0 <= g < h < |gs| ==> gs[g] != gs[h]) &&
      (forall g :: 0 <= g < |gs| ==> Count(GroupKeys(t, keys), gs[g]) >= 1) &&
      Sum(seq(|gs|, g requires 0 <= g < |gs| => Count(GroupKeys(t, keys), gs[g]) as int)) == |Grouped(t, keys)|
  {
    var gs, ks := Groups(t, keys), GroupKeys(t, keys);
    forall i | 0 <= i < |t.rows| && Complete(t, keys, i)
      ensures exists g :: 0 <= g < |gs| && gs[g] == GroupKey(t, keys, i)
    {
      var idx := Grouped(t, keys);
      var p :| 0 <= p < |idx| && idx[p] == i;
      assert ks[p] in gs;
    }
    forall g | 0 <= g < |gs| ensures Count(ks, gs[g]) >= 1 {
      CountPositive(ks, gs[g]);
    }
    CountsAddUp(gs, ks);
  }

  datatype AggFunc = CountOf | SumOf | MinOf | MaxOf

  /** The cells of the aggregated column for the grouped rows, in order. */
  function AggCells(t: Table, keys: seq<string>, col: string): (vs: seq<Value>)
    ensures |vs| == |Grouped(t, keys)|
    ensures forall p :: 0 <= p < |vs| ==> vs[p] == Cell(t, Grouped(t, keys)[p], col)
  {
    var idx := Grouped(t, keys);
    seq(|idx|, p requires 0 <= p < |idx| => Cell(t, idx[p], col))
  }

  function Presence(vs: seq<Value>): (ws: seq<int>)
    ensures |ws| == |vs|
    ensures forall p :: 0 <= p < |vs| ==> ws[p] == if vs[p].Missing? then 0 else 1
  {
    seq(|vs|, p requires 0 <= p < |vs| => if vs[p].Missing? then 0 else 1)
  }

  function Numbers(vs: seq<Value>): (ws: seq<int>)
    ensures |ws| == |vs|
    ensures forall p :: 0 <= p < |vs| ==> ws[p] == IntOf(vs[p])
  {
    seq(|vs|, p requires 0 <= p < |vs| => IntOf(vs[p]))
  }

  function Present(vs: seq<Value>): (os: seq<Option<int>>)
    ensures |os| == |vs|
    ensures forall p :: 0 <= p < |vs| ==> os[p] == AsNumber(vs[p])
  {
    seq(|vs|, p requires 0 <= p < |vs| => AsNumber(vs[p]))
  }

  /** The text of each text cell; None for any other cell. */
  function Texts(vs: seq<Value>): (os: seq<Option<string>>)
    ensures |os| == |vs|
    ensures forall p :: 0 <= p < |vs| ==> os[p] == if vs[p].Str? then Some(vs[p].s) else None
  {
    seq(|vs|, p requires 0 <= p < |vs| => if vs[p].Str? then Some(vs[p].s) else None)
  }

  /** Some row of group g holds text in the aggregated column. */
  predicate HasText(ks: seq<seq<Value>>, vs: seq<Value>, g: seq<Value>) {
    exists p :: 0 <= p < |ks| && p < |vs| && ks[p] == g && vs[p].Str?
  }

  /** Two rows of one group hold text and a number: the object column's sum
      or comparison meets a `str` beside an `int`, which Python refuses. */
  predicate Mixed(ks: seq<seq<Value>>, vs: seq<Value>) {
    exists p, q :: 0 <= p < |ks| && 0 <= q < |ks| && p < |vs| && q < |vs| &&
      ks[p] == ks[q] && vs[p].Str? && AsNumber(vs[q]).Some?
  }

  /** The sum of an object column's group of texts: the texts joined in
      row order, missing cells skipped. */
  function Joined(ks: seq<seq<Value>>, vs: seq<Value>, g: seq<Value>): string
    requires |ks| == |vs|
    decreases |ks|
  {
    if |ks| == 0 then ""
    else
      var n := |ks| - 1;
      Joined(ks[..n], vs[..n], g) + (if ks[n] == g && vs[n].Str? then vs[n].s else "")
  }

  /** a is at least as good a text extreme as b under Python's string order. */
  predicate TextAtLeastAsExtreme(a: string, b: string, highest: bool) {
    if highest then TextLe(b, a) else TextLe(a, b)
  }

  /** The alphabetically first (or, with highest, last) text paired with key
      g; None when g has no text. */
  function TextExtreme(ks: seq<seq<Value>>, os: seq<Option<string>>, g: seq<Value>, highest: bool): (r: Option<string>)
    requires |ks| == |os|
    ensures r.None? <==> forall p :: 0 <= p < |ks| && ks[p] == g ==> os[p].None?
    ensures r.Some? ==> exists p :: 0 <= p < |ks| && ks[p] == g && os[p] == r
    decreases |ks|
  {
    if |ks| == 0 then None
    else
      var n := |ks| - 1;
      var prev := TextExtreme(ks[..n], os[..n], g, highest);
      var last := if ks[n] == g then os[n] else None;
      if last.None? then prev
      else if prev.None? || TextAtLeastAsExtreme(last.value, prev.value, highest) then last
      else prev
  }

  /** The text extreme is at least as extreme as every text of its group. */
  lemma {:induction false} TextExtremeBound(ks: seq<seq<Value>>, os: seq<Option<string>>, g: seq<Value>, highest: bool)
    requires |ks| == |os|
    ensures var r := TextExtreme(ks, os, g, highest);
      r.Some? ==> forall p :: 0 <= p < |ks| && ks[p] == g && os[p].Some? ==>
        TextAtLeastAsExtreme(r.value, os[p].value, highest)
    decreases |ks|
  {
    if |ks| > 0 {
      var n := |ks| - 1;
      TextExtremeBound(ks[..n], os[..n], g, highest);
      var prev := TextExtreme(ks[..n], os[..n], g, highest);
      var r := TextExtreme(ks, os, g, highest);
      if r.Some? {
        forall p | 0 <= p < |ks| && ks[p] == g && os[p].Some?
          ensures TextAtLeastAsExtreme(r.value, os[p].value, highest)
        {
          var x := os[p].value;
          if p == n {
            if r.value == x { TextLeReflexive(x); } else { TextLeTotal(r.value, x); }
          } else {
            assert ks[..n][p] == g && os[..n][p] == os[p];
            if r.value != prev.value {
              if highest { TextLeTransitive(x, prev.value, r.value); }
              else { TextLeTransitive(r.value, prev.value, x); }
            }
          }
        }
      }
    }
  }

  /** What one group's aggregate is: the number of its present cells; for a
      group holding text, its texts joined or its alphabetical extreme; for
      any other group, the sum of its numbers (zero when none), or their
      minimum or maximum (missing when none). */
  function Aggregate(ks: seq<seq<Value>>, vs: seq<Value>, g: seq<Value>, f: AggFunc): Value
    requires |ks| == |vs|
  {
    match f
    case CountOf => Int(SumFor(ks, Presence(vs), g))
    case SumOf =>
      if HasText(ks, vs, g) then Str(Joined(ks, vs, g)) else Int(SumFor(ks, Numbers(vs), g))
    case MinOf =>
      if HasText(ks, vs, g) then TextOrMissing(TextExtreme(ks, Texts(vs), g, false))
      else (match Extreme(ks, Present(vs), g, false) case Some(m) => Int(m) case None => Missing)
    case MaxOf =>
      if HasText(ks, vs, g) then TextOrMissing(TextExtreme(ks, Texts(vs), g, true))
      else (match Extreme(ks, Present(vs), g, true) case Some(m) => Int(m) case None => Missing)
  }

  function TextOrMissing(o: Option<string>): Value {
    match o
    case Some(s) => Str(s)
    case None => Missing
  }

  /** The table `df_groupby` returns once the keys are known good: one row
      per group holding its key cells and, under name, the aggregate of the
      group's cells in col. */
  function Aggregated(t: Table, keys: seq<string>, name: string, col: string, f: AggFunc): (r: Table)
    ensures r.columns == keys + [name] && |r.rows| == |Groups(t, keys)|
    ensures forall g :: 0 <= g < |r.rows| ==>
      r.rows[g][..|keys|] == Groups(t, keys)[g] &&
      r.rows[g][|keys|] == Aggregate(GroupKeys(t, keys), AggCells(t, keys, col), Groups(t, keys)[g], f)
  {
    var gs, ks, vs := Groups(t, keys), GroupKeys(t, keys), AggCells(t, keys, col);
    assert forall g :: 0 <= g < |gs| ==> gs[g] in ks;
    GroupedTable(keys, name, gs, seq(|gs|, g requires 0 <= g < |gs| => Aggregate(ks, vs, gs[g], f)))
  }

  /** `df_groupby(df, keys, name, col, func)`. Key errors as for counting; an
      absent col raises KeyError; a sum, minimum or maximum over a group
      that holds both text and numbers raises TypeError. */
  function GroupByAgg(t: Table, keys: seq<string>, name: string, col: string, f: AggFunc): (r: Result<Table>)
    ensures CheckKeys(t, keys).Some? ==> r == Err(CheckKeys(t, keys).value)
    ensures CheckKeys(t, keys).None? && col !in t.columns ==> r == Err(KeyError(col))
    ensures r.Err? && r.error.TypeError? ==> f != CountOf && Mixed(GroupKeys(t, keys), AggCells(t, keys, col))
    ensures r.Ok? <==> (CheckKeys(t, keys).None? && col in t.columns &&
                        (f == CountOf || !Mixed(GroupKeys(t, keys), AggCells(t, keys, col))))
    ensures r.Ok? ==> r.value == Aggregated(t, keys, name, col, f)
  {
    match CheckKeys(t, keys)
    case Some(e) => Err(e)
    case None =>
      if col !in t.columns then Err(KeyError(col))
      else if f != CountOf && Mixed(GroupKeys(t, keys), AggCells(t, keys, col)) then
        Err(TypeError(if f == SumOf then "unsupported operand type(s) for +: 'int' and 'str'"
                      else "'<' not supported between instances of 'str' and 'int'"))
      else Ok(Aggregated(t, keys, name, col, f))
  }

  /** Group sums add up to the sum over all grouped rows, and group counts to
      the number of grouped rows whose cell is present. */
  lemma GroupTotalsAddUp(t: Table, keys: seq<string>, col: string)
    ensures var gs, ks, vs := Groups(t, keys), GroupKeys(t, keys), AggCells(t, keys, col);
      Sum(seq(|gs|, g requires 0 <= g < |gs| => SumFor(ks, Numbers(vs), gs[g]))) == Sum(Numbers(vs)) &&
      Sum(seq(|gs|, g requires 0 <= g < |gs| => SumFor(ks, Presence(vs), gs[g]))) == Sum(Presence(vs))
  {
    var gs, ks, vs := Groups(t, keys), GroupKeys(t, keys), AggCells(t, keys, col);
    assert forall p :: 0 <= p < |ks| ==> ks[p] in gs;
    PartitionSum(gs, ks, Numbers(vs));
    PartitionSum(gs, ks, Presence(vs));
    assert seq(|gs|, g requires 0 <= g < |gs| => SumFor(ks, Numbers(vs), gs[g])) == SumsFor(gs, ks, Numbers(vs));
    assert seq(|gs|, g requires 0 <= g < |gs| => SumFor(ks, Presence(vs), gs[g])) == SumsFor(gs, ks, Presence(vs));
  }

  /** In a group holding text, the minimum is the alphabetically first of
      its texts. */
  lemma TextMinimum(ks: seq<seq<Value>>, vs: seq<Value>, g: seq<Value>)
    requires |ks| == |vs| && HasText(ks, vs, g)
    ensures var m := Aggregate(ks, vs, g, MinOf);
      m.Str? && (exists p :: 0 <= p < |ks| && ks[p] == g && vs[p] == m) &&
      (forall p :: 0 <= p < |ks| && ks[p] == g && vs[p].Str? ==> TextLe(m.s, vs[p].s))
  {
    var os := Texts(vs);
    var q :| 0 <= q < |ks| && q < |vs| && ks[q] == g && vs[q].Str?;
    assert os[q].Some?;
    var e := TextExtreme(ks, os, g, false);
    var p :| 0 <= p < |ks| && ks[p] == g && os[p] == e;
    assert vs[p] == Str(e.value);
    TextExtremeBound(ks, os, g, false);
    forall p | 0 <= p < |ks| && ks[p] == g && vs[p].Str? ensures TextLe(e.value, vs[p].s) {
      assert os[p] == Some(vs[p].s);
    }
  }

  /** In a group without text, the minimum is the least of its numbers, and
      missing exactly when it has none. */
  lemma NumberMinimum(ks: seq<seq<Value>>, vs: seq<Value>, g: seq<Value>)
    requires |ks| == |vs| && !HasText(ks, vs, g)
    ensures var m := Aggregate(ks, vs, g, MinOf);
      (m.Missing? <==> forall p :: 0 <= p < |ks| && ks[p] == g ==> AsNumber(vs[p]).None?) &&
      (m.Int? ==> (exists p :: 0 <= p < |ks| && ks[p] == g && AsNumber(vs[p]) == Some(m.n)) &&
                  forall p :: 0 <= p < |ks| && ks[p] == g && AsNumber(vs[p]).Some? ==> m.n <= AsNumber(vs[p]).value)
  {
    var e := Extreme(ks, Present(vs), g, false);
    if e.Some? {
      var p :| 0 <= p < |ks| && ks[p] == g && Present(vs)[p] == e;
      assert AsNumber(vs[p]) == Some(e.value);
    }
  }

  /** A group's minimum is one of its values and no value of the group
      lies below it: among its texts, alphabetically, when the group holds
      text; among its numbers otherwise, and then it is missing exactly when
      the group has no number. */
  lemma GroupMinimum(t: Table, keys: seq<string>, col: string, g: seq<Value>)
    ensures var ks, vs := GroupKeys(t, keys), AggCells(t, keys, col);
      var m := Aggregate(ks, vs, g, MinOf);
      (!HasText(ks, vs, g) ==>
        (m.Missing? <==> forall p :: 0 <= p < |ks| && ks[p] == g ==> AsNumber(vs[p]).None?) &&
        (m.Int? ==> (exists p :: 0 <= p < |ks| && ks[p] == g && AsNumber(vs[p]) == Some(m.n)) &&
                    forall p :: 0 <= p < |ks| && ks[p] == g && AsNumber(vs[p]).Some? ==> m.n <= AsNumber(vs[p]).value)) &&
      (HasText(ks, vs, g) ==>
        m.Str? && (exists p :: 0 <= p < |ks| && ks[p] == g && vs[p] == m) &&
        (forall p :: 0 <= p < |ks| && ks[p] == g && vs[p].Str? ==> TextLe(m.s, vs[p].s)))
  {
    var ks, vs := GroupKeys(t, keys), AggCells(t, keys, col);
    if HasText(ks, vs, g) { TextMinimum(ks, vs, g); } else { NumberMinimum(ks, vs, g); }
  }

  /** The text sum of a group holds every text of the group once, whatever
      its length: the lengths of the joined texts of all groups add up to
      the length of all the texts of the grouped rows. */
  lemma {:induction false} JoinedLength(ks: seq<seq<Value>>, vs: seq<Value>, g: seq<Value>)
    requires |ks| == |vs|
    ensures |Joined(ks, vs, g)| == SumFor(ks, TextLengths(vs), g)
    decreases |ks|
  {
    if |ks| > 0 {
      var n := |ks| - 1;
      JoinedLength(ks[..n], vs[..n], g);
      assert TextLengths(vs)[..n] == TextLengths(vs[..n]);
    }
  }

  /** The length of each text cell, 0 for any other cell. */
  function TextLengths(vs: seq<Value>): (ws: seq<int>)
    ensures |ws| == |vs|
    ensures forall p :: 0 <= p < |vs| ==> ws[p] == if vs[p].Str? then |vs[p].s| else 0
  {
    seq(|vs|, p requires 0 <= p < |vs| => if vs[p].Str? then |vs[p].s| else 0)
  }

  /** The joined texts of the groups together are as long as all the texts
      of the grouped rows: no text is lost or counted twice. */
  lemma JoinedTextsAddUp(t: Table, keys: seq<string>, col: string)
    ensures var gs, ks, vs := Groups(t, keys), GroupKeys(t, keys), AggCells(t, keys, col);
      Sum(seq(|gs|, g requires 0 <= g < |gs| => |Joined(ks, vs, gs[g])|)) == Sum(TextLengths(vs))
  {
    var gs, ks, vs := Groups(t, keys), GroupKeys(t, keys), AggCells(t, keys, col);
    assert forall p :: 0 <= p < |ks| ==> ks[p] in gs;
    PartitionSum(gs, ks, TextLengths(vs));
    forall g | 0 <= g < |gs| ensures |Joined(ks, vs, gs[g])| == SumFor(ks, TextLengths(vs), gs[g]) {
      JoinedLength(ks, vs, gs[g]);
    }
    assert seq(|gs|, g requires 0 <= g < |gs| => |Joined(ks, vs, gs[g])|) == SumsFor(gs, ks, TextLengths(vs));
  }
}
