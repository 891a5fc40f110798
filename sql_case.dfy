/** `CASE WHEN value BETWEEN lo AND hi THEN label ... ELSE default END`, as
    `df_case` builds it from `Series.between` and `np.select`. */
module SqlCase {
  import opened Values
  import opened Tables

  /** `Series.between(lo, hi)` for one cell: inclusive at both ends; a
      missing cell is in no range. */
  predicate Between(v: Value, range: (int, int)) {
    match AsNumber(v)
    case Some(n) => range.0 <= n <= range.1
    case None => false
  }

  /** The position of the first range holding v, or |ranges| when none does. */
  function FirstRange(v: Value, ranges: seq<(int, int)>): (k: nat)
    ensures k <= |ranges|
    ensures k < |ranges| ==> Between(v, ranges[k])
    ensures forall j :: 0 <= j < k ==> !Between(v, ranges[j])
  {
    if |ranges| == 0 then 0
    else if Between(v, ranges[0]) then 0
    else 1 + FirstRange(v, ranges[1..])
  }

  /** The label `np.select` picks for one cell: the first range holding the
      value decides; the default applies when no range holds it. */
  function Label(v: Value, ranges: seq<(int, int)>, labels: seq<string>, default: string): (s: string)
    requires |ranges| == |labels|
    ensures forall k :: (0 <= k < |ranges| && Between(v, ranges[k]) &&
                         forall j :: 0 <= j < k ==> !Between(v, ranges[j])) ==> s == labels[k]
    ensures (forall k :: 0 <= k < |ranges| ==> !Between(v, ranges[k])) ==> s == default
    ensures s in labels || s == default
  {
    var k := FirstRange(v, ranges);
    if k < |ranges| then labels[k] else default
  }

  /** The table `df_case` returns once every check has passed: the keep
      columns and, under newCol, each row's label. */
  function Labelled(t: Table, keep: seq<string>, valueCol: string, ranges: seq<(int, int)>,
                    labels: seq<string>, default: string, newCol: string): (r: Table)
    requires |ranges| == |labels|
    requires forall k :: 0 <= k < |keep| ==> keep[k] in t.columns
    ensures r.columns == (if newCol in keep then keep else keep + [newCol])
    ensures |r.rows| == |t.rows|
    ensures forall i :: 0 <= i < |t.rows| ==>
      Cell(r, i, newCol) == Str(Label(Cell(t, i, valueCol), ranges, labels, default))
    ensures forall i, d :: d != newCol ==>
      Cell(r, i, d) == if d in keep then Cell(t, i, d) else Missing
  {
    SetColumn(Project(t, keep), newCol, seq(|t.rows|, i requires 0 <= i < |t.rows| =>
      Str(Label(Cell(t, i, valueCol), ranges, labels, default))))
  }

  /** `df_case(df, keep, value_col, ranges, labels, default, new_col)`.
      Checked in the order the helper meets them: ranges and labels of
      different lengths (ValueError), a keep label the table lacks
      (KeyError), then, with no range at all, `np.select`'s ValueError (the
      value column is never read); otherwise a value column outside keep
      (KeyError) and text in the value column (TypeError from the first
      range test). */
  function Case(t: Table, keep: seq<string>, valueCol: string, ranges: seq<(int, int)>,
                labels: seq<string>, default: string, newCol: string): (r: Result<Table>)
    ensures |ranges| != |labels| ==> r == Err(ValueError("Ranges and labels must match"))
    ensures |ranges| == |labels| && (exists k :: 0 <= k < |keep| && keep[k] !in t.columns) ==>
      r.Err? && r.error.KeyError? && r.error.key in keep && r.error.key !in t.columns
    ensures |ranges| == |labels| == 0 && (forall k :: 0 <= k < |keep| ==> keep[k] in t.columns) ==>
      r == Err(ValueError("select with an empty condition list is not possible"))
    ensures |ranges| == |labels| > 0 && (forall k :: 0 <= k < |keep| ==> keep[k] in t.columns) && valueCol !in keep ==>
      r == Err(KeyError(valueCol))
    ensures r.Err? && r.error.TypeError? ==> valueCol in keep && exists i :: 0 <= i < |t.rows| && Cell(t, i, valueCol).Str?
    ensures r.Ok? <==> (|ranges| == |labels| && |ranges| > 0 &&
                        (forall k :: 0 <= k < |keep| ==> keep[k] in t.columns) && valueCol in keep &&
                        forall i :: 0 <= i < |t.rows| ==> !Cell(t, i, valueCol).Str?)
    ensures r.Ok? ==> |ranges| == |labels| && (forall k :: 0 <= k < |keep| ==> keep[k] in t.columns) &&
                      r.value == Labelled(t, keep, valueCol, ranges, labels, default, newCol)
  {
    if |ranges| != |labels| then Err(ValueError("Ranges and labels must match"))
    else if exists k :: 0 <= k < |keep| && keep[k] !in t.columns then Err(KeyError(FirstAbsent(t.columns, keep)))
    else if |ranges| == 0 then Err(ValueError("select with an empty condition list is not possible"))
    else if valueCol !in keep then Err(KeyError(valueCol))
    else if exists i :: 0 <= i < |t.rows| && Cell(t, i, valueCol).Str? then
      Err(TypeError("'>=' not supported between instances of 'str' and 'int'"))
    else Ok(Labelled(t, keep, valueCol, ranges, labels, default, newCol))
  }

  /** Ranges that do not overlap give each value at most one candidate, so
      the label is the one of the range holding the value, whichever that is. */
  lemma DisjointRangesLabel(v: Value, ranges: seq<(int, int)>, labels: seq<string>, default: string, k: nat)
    requires |ranges| == |labels| && k < |ranges| && Between(v, ranges[k])
    requires forall a, b :: 0 <= a < b < |ranges| ==> ranges[a].1 < ranges[b].0
    ensures Label(v, ranges, labels, default) == labels[k]
  {
    forall j | 0 <= j < k ensures !Between(v, ranges[j]) {
      assert ranges[j].1 < ranges[k].0;
    }
  }
}
