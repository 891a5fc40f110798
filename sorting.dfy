/** `DataFrame.sort_values(by=[...])`, stated by what it guarantees: the rows
    come out as a permutation of the rows that went in, ordered
    lexicographically by the cells under the `by` labels. */
module Sorting {
  import opened Values
  import opened Tables

  /** The cells of a row at the given positions: its sort key. */
  function KeyAt(r: Row, idx: seq<nat>): (k: seq<Value>)
    ensures |k| == |idx|
  {
    seq(|idx|, m requires 0 <= m < |idx| => if idx[m] < |r| then r[idx[m]] else Missing)
  }

  /** Lexicographic order on sort keys: the first differing cell decides. */
  predicate KeyLe(a: seq<Value>, b: seq<Value>)
    decreases |a|
  {
    |a| == 0 || |b| == 0 || (ValueLe(a[0], b[0]) && (a[0] == b[0] ==> KeyLe(a[1..], b[1..])))
  }

  lemma {:induction false} KeyLeTotal(a: seq<Value>, b: seq<Value>)
    ensures KeyLe(a, b) || KeyLe(b, a)
    decreases |a|
  {
    if |a| > 0 && |b| > 0 {
      ValueLeTotalOrder(a[0], b[0], b[0]);
      if a[0] == b[0] { KeyLeTotal(a[1..], b[1..]); }
    }
  }

  lemma {:induction false} KeyLeTransitive(a: seq<Value>, b: seq<Value>, c: seq<Value>)
    requires |a| == |b| == |c|
    requires KeyLe(a, b) && KeyLe(b, c)
    ensures KeyLe(a, c)
    decreases |a|
  {
    if |a| > 0 {
      ValueLeTotalOrder(a[0], b[0], c[0]);
      ValueLeTotalOrder(b[0], c[0], a[0]);
      ValueLeTotalOrder(c[0], a[0], b[0]);
      if a[0] == b[0] && b[0] == c[0] {
        KeyLeTransitive(a[1..], b[1..], c[1..]);
      }
    }
  }

  /** Two keys ordered both ways agree cell by cell. */
  lemma {:induction false} KeyLeAntisymmetric(a: seq<Value>, b: seq<Value>)
    requires |a| == |b|
    requires KeyLe(a, b) && KeyLe(b, a)
    ensures a == b
    decreases |a|
  {
    if |a| > 0 {
      ValueLeTotalOrder(a[0], b[0], b[0]);
      KeyLeAntisymmetric(a[1..], b[1..]);
      assert a == [a[0]] + a[1..];
      assert b == [b[0]] + b[1..];
    }
  }

  predicate SortedBy(s: seq<Row>, idx: seq<nat>) {
    forall i, j :: 0 <= i < j < |s| ==> KeyLe(KeyAt(s[i], idx), KeyAt(s[j], idx))
  }

  /** Puts r in front of the first row it does not come after. */
  function Insert(r: Row, s: seq<Row>, idx: seq<nat>): (o: seq<Row>)
    ensures multiset(o) == multiset(s) + multiset{r}
    ensures |o| == |s| + 1
  {
    if |s| == 0 then [r]
    else if KeyLe(KeyAt(r, idx), KeyAt(s[0], idx)) then [r] + s
    else
      assert s == [s[0]] + s[1..];
      [s[0]] + Insert(r, s[1..], idx)
  }

  /** Every row of s has a key at or after k. */
  predicate AllAfter(k: seq<Value>, s: seq<Row>, idx: seq<nat>) {
    forall j :: 0 <= j < |s| ==> KeyLe(k, KeyAt(s[j], idx))
  }

  lemma {:induction false} InsertAllAfter(k: seq<Value>, r: Row, s: seq<Row>, idx: seq<nat>)
    requires AllAfter(k, s, idx) && KeyLe(k, KeyAt(r, idx))
    ensures AllAfter(k, Insert(r, s, idx), idx)
    decreases |s|
  {
    if |s| > 0 && !KeyLe(KeyAt(r, idx), KeyAt(s[0], idx)) {
      InsertAllAfter(k, r, s[1..], idx);
    }
  }

  /** A row in front of a sorted list keeps it sorted when no row comes before it. */
  lemma ConsSorted(x: Row, s: seq<Row>, idx: seq<nat>)
    requires SortedBy(s, idx) && AllAfter(KeyAt(x, idx), s, idx)
    ensures SortedBy([x] + s, idx)
  {
    var o := [x] + s;
    forall i, j | 0 <= i < j < |o| ensures KeyLe(KeyAt(o[i], idx), KeyAt(o[j], idx)) {
      if i > 0 { assert o[i] == s[i - 1] && o[j] == s[j - 1]; }
    }
  }

  lemma {:induction false} InsertSorted(r: Row, s: seq<Row>, idx: seq<nat>)
    requires SortedBy(s, idx)
    ensures SortedBy(Insert(r, s, idx), idx)
    decreases |s|
  {
    if |s| > 0 {
      var kr, k0 := KeyAt(r, idx), KeyAt(s[0], idx);
      if KeyLe(kr, k0) {
        forall j | 0 <= j < |s| ensures KeyLe(kr, KeyAt(s[j], idx)) {
          if j > 0 { KeyLeTransitive(kr, k0, KeyAt(s[j], idx)); }
        }
        ConsSorted(r, s, idx);
      } else {
        KeyLeTotal(kr, k0);
        InsertSorted(r, s[1..], idx);
        assert AllAfter(k0, s[1..], idx);
        InsertAllAfter(k0, r, s[1..], idx);
        ConsSorted(s[0], Insert(r, s[1..], idx), idx);
      }
    }
  }

  /** Insertion sort: ordered by the key and a permutation of the input. */
  function SortRows(s: seq<Row>, idx: seq<nat>): (o: seq<Row>)
    ensures multiset(o) == multiset(s)
    ensures |o| == |s|
    ensures SortedBy(o, idx)
    decreases |s|
  {
    if |s| == 0 then []
    else
      var rest := SortRows(s[1..], idx);
      InsertSorted(s[0], rest, idx);
      assert s == [s[0]] + s[1..];
      Insert(s[0], rest, idx)
  }

  /** A sort column that holds text together with numbers: Python refuses
      to compare a str with an int. */
  predicate MixesTextAndNumbers(t: Table, c: string) {
    (exists i :: 0 <= i < |t.rows| && Cell(t, i, c).Str?) &&
    (exists i :: 0 <= i < |t.rows| && AsNumber(Cell(t, i, c)).Some?)
  }

  /** `df.sort_values(by=keys)`. A missing label raises KeyError. A single
      key is sorted by a plain argsort of its cells, which refuses a column
      mixing text and numbers (TypeError). Several keys are sorted through
      ordered categoricals whose categories are sorted numbers first, then
      text, so a mixed column is ordered rather than refused. Otherwise the
      rows are sorted by their cells under keys, in that order of priority. */
  function SortValues(t: Table, keys: seq<string>): (r: Result<Table>)
    ensures (exists k :: 0 <= k < |keys| && keys[k] !in t.columns) ==> r.Err? && r.error.KeyError?
    ensures r.Ok? <==> (forall k :: 0 <= k < |keys| ==> keys[k] in t.columns) &&
                       !(|keys| == 1 && MixesTextAndNumbers(t, keys[0]))
    ensures r.Err? && r.error.TypeError? ==> |keys| == 1 && MixesTextAndNumbers(t, keys[0])
    ensures r.Ok? ==> r.value.columns == t.columns && multiset(r.value.rows) == multiset(t.rows)
    ensures r.Ok? ==> SortedBy(r.value.rows, Positions(t.columns, keys))
  {
    if exists k :: 0 <= k < |keys| && keys[k] !in t.columns then Err(KeyError(FirstAbsent(t.columns, keys)))
    else if |keys| == 1 && MixesTextAndNumbers(t, keys[0]) then
      Err(TypeError("'<' not supported between instances of 'str' and 'int'"))
    else
      var rows := SortRows(t.rows, Positions(t.columns, keys));
      assert forall i :: 0 <= i < |rows| ==> rows[i] in multiset(t.rows);
      var sorted: Table := Frame(t.columns, rows);
      Ok(sorted)
  }

  /** The positions of the labels keys within cols. */
  function Positions(cols: seq<string>, keys: seq<string>): (idx: seq<nat>)
    requires forall k :: 0 <= k < |keys| ==> keys[k] in cols
    ensures |idx| == |keys|
    ensures forall k :: 0 <= k < |keys| ==> idx[k] == IndexOf(cols, keys[k])
  {
    seq(|keys|, k requires 0 <= k < |keys| => IndexOf(cols, keys[k]))
  }

  /** In a sorted table, the sort key of row i is the list of its cells under keys. */
  lemma KeyIsCells(t: Table, keys: seq<string>, i: int)
    requires forall k :: 0 <= k < |keys| ==> keys[k] in t.columns
    requires 0 <= i < |t.rows|
    ensures KeyAt(t.rows[i], Positions(t.columns, keys)) == seq(|keys|, k requires 0 <= k < |keys| => Cell(t, i, keys[k]))
  {
  }

  /** f applied to each element of a, in order. */
  function MapSeq<A, B>(a: seq<A>, f: A -> B): (r: seq<B>)
    ensures |r| == |a|
  {
    if |a| == 0 then [] else [f(a[0])] + MapSeq(a[1..], f)
  }

  /** The i-th element of a mapped sequence is f of the i-th element. */
  lemma {:induction false} MapSeqAt<A, B>(a: seq<A>, f: A -> B, i: nat)
    requires i < |a|
    ensures MapSeq(a, f)[i] == f(a[i])
    decreases i
  {
    if i > 0 { MapSeqAt(a[1..], f, i - 1); }
  }

  /** Mapping a concatenation maps each part. */
  lemma {:induction false} MapSeqConcat<A, B>(a: seq<A>, b: seq<A>, f: A -> B)
    ensures MapSeq(a + b, f) == MapSeq(a, f) + MapSeq(b, f)
    decreases |a|
  {
    if |a| > 0 {
      MapSeqConcat(a[1..], b, f);
      assert (a + b)[1..] == a[1..] + b;
    } else {
      assert a + b == b;
    }
  }

  /** Taking the first element out of a and a copy of it out of b leaves
      permutations of each other. */
  lemma RemoveMatching<A>(a: seq<A>, b: seq<A>, j: nat)
    requires multiset(a) == multiset(b) && |a| > 0 && j < |b| && b[j] == a[0]
    ensures multiset(a[1..]) == multiset(b[..j] + b[j + 1..])
  {
    assert a == [a[0]] + a[1..];
    assert b == b[..j] + [b[j]] + b[j + 1..];
    assert multiset(a[1..]) == multiset(a) - multiset{a[0]};
  }

  /** Rearranging the input rearranges the output the same way: mapping two
      permutations of each other gives permutations of each other. */
  lemma {:induction false} MapPermutation<A, B>(a: seq<A>, b: seq<A>, f: A -> B)
    requires multiset(a) == multiset(b)
    ensures multiset(MapSeq(a, f)) == multiset(MapSeq(b, f))
    decreases |a|
  {
    if |a| > 0 {
      var x := a[0];
      assert x in multiset(b);
      var j :| 0 <= j < |b| && b[j] == x;
      var front, back := b[..j], b[j + 1..];
      RemoveMatching(a, b, j);
      assert b == front + ([x] + back);
      MapPermutation(a[1..], front + back, f);
      MapSeqConcat(front, [x] + back, f);
      MapSeqConcat(front, back, f);
      assert ([x] + back)[1..] == back;
      assert MapSeq([x] + back, f) == [f(x)] + MapSeq(back, f);
      assert MapSeq(a, f) == [f(x)] + MapSeq(a[1..], f);
    } else {
      assert |b| == |multiset(b)|;
    }
  }
}
