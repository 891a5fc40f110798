/** Group-by arithmetic on parallel lists of keys and weights: the distinct
    keys in order of first appearance, per-key sums and counts, and the fact
    that per-group totals add up to the overall total. */
module Grouping {
  import opened Values

  predicate NoDuplicates<K(==)>(s: seq<K>) {
    forall i, j :: 0 <= i < j < |s| ==> s[i] != s[j]
  }

  /** The distinct elements of ks, in order of first appearance. */
  function Distinct<K(==,!new)>(ks: seq<K>): (d: seq<K>)
    ensures forall k :: k in d <==> k in ks
    ensures NoDuplicates(d)
    ensures |d| <= |ks|
    decreases |ks|
  {
    if |ks| == 0 then []
    else
      var p := Distinct(ks[..|ks| - 1]);
      var last := ks[|ks| - 1];
      assert forall k :: k in ks <==> k in ks[..|ks| - 1] || k == last by {
        assert ks == ks[..|ks| - 1] + [last];
      }
      if last in p then p else p + [last]
  }

  lemma {:induction false} DistinctKeepsDistinct<K(!new)>(s: seq<K>)
    requires NoDuplicates(s)
    ensures Distinct(s) == s
    decreases |s|
  {
    if |s| > 0 {
      DistinctKeepsDistinct(s[..|s| - 1]);
      assert s[|s| - 1] !in s[..|s| - 1];
      assert s == s[..|s| - 1] + [s[|s| - 1]];
    }
  }

  function Sum(ws: seq<int>): int
    decreases |ws|
  {
    if |ws| == 0 then 0 else Sum(ws[..|ws| - 1]) + ws[|ws| - 1]
  }

  /** Sum of the weights paired with key k. */
  function SumFor<K(==)>(ks: seq<K>, ws: seq<int>, k: K): int
    requires |ks| == |ws|
    decreases |ks|
  {
    if |ks| == 0 then 0
    else SumFor(ks[..|ks| - 1], ws[..|ws| - 1], k) + (if ks[|ks| - 1] == k then ws[|ws| - 1] else 0)
  }

  /** How many times k occurs in ks. */
  function Count<K(==)>(ks: seq<K>, k: K): nat
    decreases |ks|
  {
    if |ks| == 0 then 0
    else Count(ks[..|ks| - 1], k) + (if ks[|ks| - 1] == k then 1 else 0)
  }

  function Ones(n: nat): (r: seq<int>)
    ensures |r| == n && forall i :: 0 <= i < n ==> r[i] == 1
  {
    seq(n, i => 1)
  }

  /** Per-key sums, one for each key of d, in d's order. */
  function SumsFor<K(==)>(d: seq<K>, ks: seq<K>, ws: seq<int>): (r: seq<int>)
    requires |ks| == |ws|
    ensures |r| == |d|
    ensures forall g :: 0 <= g < |d| ==> r[g] == SumFor(ks, ws, d[g])
  {
    seq(|d|, g requires 0 <= g < |d| => SumFor(ks, ws, d[g]))
  }

  lemma {:induction false} SumOnes(n: nat)
    ensures Sum(Ones(n)) == n
  {
    if n > 0 {
      SumOnes(n - 1);
      assert Ones(n)[..n - 1] == Ones(n - 1);
    }
  }

  lemma {:induction false} CountIsSumOfOnes<K>(ks: seq<K>, k: K)
    ensures Count(ks, k) == SumFor(ks, Ones(|ks|), k)
    decreases |ks|
  {
    if |ks| > 0 {
      CountIsSumOfOnes(ks[..|ks| - 1], k);
      assert Ones(|ks|)[..|ks| - 1] == Ones(|ks| - 1);
    }
  }

  /** A key that occurs is counted at least once. */
  lemma {:induction false} CountPositive<K>(ks: seq<K>, k: K)
    requires k in ks
    ensures Count(ks, k) >= 1
    decreases |ks|
  {
    if ks[|ks| - 1] != k {
      assert ks == ks[..|ks| - 1] + [ks[|ks| - 1]];
      CountPositive(ks[..|ks| - 1], k);
    }
  }

  lemma {:induction false} SumAdd(a: seq<int>, b: seq<int>, c: seq<int>)
    requires |a| == |b| == |c|
    requires forall i :: 0 <= i < |c| ==> c[i] == a[i] + b[i]
    ensures Sum(c) == Sum(a) + Sum(b)
    decreases |c|
  {
    if |c| > 0 {
      SumAdd(a[..|a| - 1], b[..|b| - 1], c[..|c| - 1]);
    }
  }

  /** Adding w to exactly the entry of a key that occurs once adds w to the sum. */
  lemma {:induction false} SumIndicator<K>(d: seq<K>, k: K, w: int, e: seq<int>)
    requires NoDuplicates(d) && k in d
    requires |e| == |d|
    requires forall g :: 0 <= g < |d| ==> e[g] == if d[g] == k then w else 0
    ensures Sum(e) == w
    decreases |d|
  {
    var n := |d| - 1;
    if d[n] == k {
      assert forall g :: 0 <= g < n ==> d[g] != k;
      SumZero(e[..n]);
    } else {
      assert k in d[..n] by { assert d == d[..n] + [d[n]]; }
      SumIndicator(d[..n], k, w, e[..n]);
    }
  }

  lemma {:induction false} SumZero(e: seq<int>)
    requires forall g :: 0 <= g < |e| ==> e[g] == 0
    ensures Sum(e) == 0
    decreases |e|
  {
    if |e| > 0 {
      SumZero(e[..|e| - 1]);
    }
  }

  /** Group totals add up: when d lists every key once, the per-key sums
      over d add up to the sum of all weights. */
  lemma {:induction false} PartitionSum<K>(d: seq<K>, ks: seq<K>, ws: seq<int>)
    requires |ks| == |ws|
    requires NoDuplicates(d)
    requires forall i :: 0 <= i < |ks| ==> ks[i] in d
    ensures Sum(SumsFor(d, ks, ws)) == Sum(ws)
    decreases |ks|
  {
    if |ks| == 0 {
      SumZero(SumsFor(d, ks, ws));
    } else {
      var n := |ks| - 1;
      var ks', ws' := ks[..n], ws[..n];
      PartitionSum(d, ks', ws');
      var e := seq(|d|, g requires 0 <= g < |d| => if d[g] == ks[n] then ws[n] else 0);
      SumIndicator(d, ks[n], ws[n], e);
      SumAdd(SumsFor(d, ks', ws'), e, SumsFor(d, ks, ws));
    }
  }

  /** Counts add up: when d lists every key once, the counts over d add up
      to the number of keys. */
  lemma CountsAddUp<K>(d: seq<K>, ks: seq<K>)
    requires NoDuplicates(d)
    requires forall i :: 0 <= i < |ks| ==> ks[i] in d
    ensures Sum(seq(|d|, g requires 0 <= g < |d| => Count(ks, d[g]) as int)) == |ks|
  {
    PartitionSum(d, ks, Ones(|ks|));
    SumOnes(|ks|);
    forall g | 0 <= g < |d| ensures Count(ks, d[g]) == SumFor(ks, Ones(|ks|), d[g]) {
      CountIsSumOfOnes(ks, d[g]);
    }
    assert seq(|d|, g requires 0 <= g < |d| => Count(ks, d[g]) as int) == SumsFor(d, ks, Ones(|ks|));
  }

  /** a is at least as good an extreme as b: not above it for a minimum,
      not below it for a maximum. */
  predicate AtLeastAsExtreme(a: int, b: int, highest: bool) {
    if highest then a >= b else a <= b
  }

  /** The smallest (or, with highest, the largest) of the present values
      paired with key k; None when k has no present value. */
  function Extreme<K(==)>(ks: seq<K>, vs: seq<Option<int>>, k: K, highest: bool): (r: Option<int>)
    requires |ks| == |vs|
    ensures r.None? <==> forall p :: 0 <= p < |ks| && ks[p] == k ==> vs[p].None?
    ensures r.Some? ==> exists p :: 0 <= p < |ks| && ks[p] == k && vs[p] == r
    ensures r.Some? ==> forall p :: 0 <= p < |ks| && ks[p] == k && vs[p].Some? ==>
      AtLeastAsExtreme(r.value, vs[p].value, highest)
    decreases |ks|
  {
    if |ks| == 0 then None
    else
      var n := |ks| - 1;
      var prev := Extreme(ks[..n], vs[..n], k, highest);
      var last := if ks[n] == k then vs[n] else None;
      if last.None? then prev
      else if prev.None? || AtLeastAsExtreme(last.value, prev.value, highest) then last
      else prev
  }

  /** 1 where ks holds k, 0 elsewhere. */
  function Indicator<K(==)>(ks: seq<K>, k: K): (ws: seq<int>)
    ensures |ws| == |ks|
    ensures forall p :: 0 <= p < |ks| ==> ws[p] == if ks[p] == k then 1 else 0
  {
    seq(|ks|, p requires 0 <= p < |ks| => if ks[p] == k then 1 else 0)
  }

  function Zip<A, B>(xs: seq<A>, ys: seq<B>): (zs: seq<(A, B)>)
    requires |xs| == |ys|
    ensures |zs| == |xs|
    ensures forall p :: 0 <= p < |xs| ==> zs[p] == (xs[p], ys[p])
  {
    seq(|xs|, p requires 0 <= p < |xs| => (xs[p], ys[p]))
  }

  lemma {:induction false} SumOfIndicator<K>(ks: seq<K>, k: K)
    ensures Sum(Indicator(ks, k)) == Count(ks, k)
    decreases |ks|
  {
    if |ks| > 0 {
      var n := |ks| - 1;
      SumOfIndicator(ks[..n], k);
      assert Indicator(ks, k)[..n] == Indicator(ks[..n], k);
    }
  }

  /** Counting pairs (x, y) is summing, over the ys, the indicator of x. */
  lemma {:induction false} CountOfPairs<A, B>(xs: seq<A>, ys: seq<B>, x: A, y: B)
    requires |xs| == |ys|
    ensures Count(Zip(xs, ys), (x, y)) == SumFor(ys, Indicator(xs, x), y)
    decreases |xs|
  {
    if |xs| > 0 {
      var n := |xs| - 1;
      CountOfPairs(xs[..n], ys[..n], x, y);
      assert Zip(xs, ys)[..n] == Zip(xs[..n], ys[..n]);
      assert Indicator(xs, x)[..n] == Indicator(xs[..n], x);
    }
  }

  /** When every y is listed once in d, the counts of (x, y) over the ys of d
      add up to the number of times x occurs: a cross-tabulation's row totals. */
  lemma CrossTabRowTotal<A, B>(xs: seq<A>, ys: seq<B>, d: seq<B>, x: A)
    requires |xs| == |ys|
    requires NoDuplicates(d)
    requires forall p :: 0 <= p < |ys| ==> ys[p] in d
    ensures Sum(seq(|d|, k requires 0 <= k < |d| => Count(Zip(xs, ys), (x, d[k])) as int)) == Count(xs, x)
  {
    var ind := Indicator(xs, x);
    PartitionSum(d, ys, ind);
    SumOfIndicator(xs, x);
    forall k | 0 <= k < |d| ensures Count(Zip(xs, ys), (x, d[k])) == SumFor(ys, ind, d[k]) {
      CountOfPairs(xs, ys, x, d[k]);
    }
    assert seq(|d|, k requires 0 <= k < |d| => Count(Zip(xs, ys), (x, d[k])) as int) == SumsFor(d, ys, ind);
  }
}
