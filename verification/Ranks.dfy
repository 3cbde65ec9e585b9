/**
 `rankdata` of scripts/analyze.py: ranks with average ties. The loop over a sorted index order gives
 every element the number of smaller ones plus half of one more than its ties; the ranks add up to
 n(n + 1)/2, follow the order of the data and see nothing but that order.
 */
module Ranks {

  // ---------------------------------------------------------------- the closed form

  ghost function Below(xs: seq<real>, x: real): set<nat> {
    set i: nat | i < |xs| && xs[i] < x
  }

  ghost function Same(xs: seq<real>, x: real): set<nat> {
    set i: nat | i < |xs| && xs[i] == x
  }

  /** How many are smaller, and the middle of the ties. */
  ghost function Rank(xs: seq<real>, x: real): real {
    |Below(xs, x)| as real + (|Same(xs, x)| as real + 1.0) / 2.0
  }

  // ---------------------------------------------------------------- sorted(range(n), key=...)

  ghost predicate InRange(o: seq<nat>, k: nat) {
    forall a :: 0 <= a < |o| ==> o[a] < k
  }

  ghost predicate Ascending(xs: seq<real>, o: seq<nat>)
    requires InRange(o, |xs|)
  {
    forall a, b :: 0 <= a < b < |o| ==> o[a] != o[b] && xs[o[a]] <= xs[o[b]]
  }

  ghost predicate Covers(o: seq<nat>, k: nat) {
    forall i :: 0 <= i < k ==> i in o
  }

  /** The first `k` indices, each once, by their value. */
  ghost predicate IsOrder(xs: seq<real>, o: seq<nat>, k: nat)
    requires k <= |xs|
  {
    |o| == k && InRange(o, k) && Ascending(xs, o) && Covers(o, k)
  }

  method SortedIndices(xs: seq<real>) returns (o: seq<nat>)
    ensures IsOrder(xs, o, |xs|)
  {
    o := [];
    var k := 0;
    while k < |xs|
      invariant 0 <= k <= |xs| && IsOrder(xs, o, k)
    {
      var p := k;
      while p > 0 && xs[o[p - 1]] > xs[k]
        invariant 0 <= p <= k
        invariant forall a :: p <= a < k ==> xs[o[a]] > xs[k]
      {
        p := p - 1;
      }
      Inserted(xs, o, k, p);
      o := o[..p] + [k] + o[p..];
      k := k + 1;
    }
  }

  lemma Inserted(xs: seq<real>, o: seq<nat>, k: nat, p: nat)
    requires k < |xs| && IsOrder(xs, o, k) && p <= k
    requires p > 0 ==> xs[o[p - 1]] <= xs[k]
    requires forall a :: p <= a < k ==> xs[o[a]] > xs[k]
    ensures IsOrder(xs, o[..p] + [k] + o[p..], k + 1)
  {
    var r := o[..p] + [k] + o[p..];
    InsertedCovers(o, k, p);
    forall a | 0 <= a < |r| ensures r[a] < k + 1 {
      assert r[a] == if a < p then o[a] else if a == p then k else o[a - 1];
    }
    assert InRange(r, |xs|);
    forall a, b | 0 <= a < b < |r| ensures r[a] != r[b] && xs[r[a]] <= xs[r[b]] {
      InsertedPair(xs, o, k, p, a, b);
    }
  }

  lemma InsertedCovers(o: seq<nat>, k: nat, p: nat)
    requires |o| == k && p <= k && Covers(o, k)
    ensures Covers(o[..p] + [k] + o[p..], k + 1)
  {
    var r := o[..p] + [k] + o[p..];
    forall i | 0 <= i < k + 1 ensures i in r {
      if i < k {
        assert i in o;
        var a :| 0 <= a < |o| && o[a] == i;
        assert r[if a < p then a else a + 1] == i;
      } else {
        assert r[p] == k;
      }
    }
  }

  lemma InsertedPair(xs: seq<real>, o: seq<nat>, k: nat, p: nat, a: nat, b: nat)
    requires k < |xs| && IsOrder(xs, o, k) && p <= k && a < b <= k
    requires p > 0 ==> xs[o[p - 1]] <= xs[k]
    requires forall c :: p <= c < k ==> xs[o[c]] > xs[k]
    ensures var r := o[..p] + [k] + o[p..]; r[a] <= k && r[b] <= k && r[a] != r[b] && xs[r[a]] <= xs[r[b]]
  {
    if b == p && a < p - 1 {
      assert xs[o[a]] <= xs[o[p - 1]];
    }
  }

  // ---------------------------------------------------------------- one group of ties

  lemma {:induction false} SliceSize(o: seq<nat>, lo: nat, hi: nat)
    requires lo <= hi <= |o| && forall a, b :: 0 <= a < b < |o| ==> o[a] != o[b]
    ensures |set k | lo <= k < hi :: o[k]| == hi - lo
    decreases hi - lo
  {
    var s := set k | lo <= k < hi :: o[k];
    if lo < hi {
      SliceSize(o, lo, hi - 1);
      var t := set k | lo <= k < hi - 1 :: o[k];
      assert s == t + {o[hi - 1]} && o[hi - 1] !in t;
    } else {
      assert s == {};
    }
  }

  /** Positions `i` to `j` of the order hold exactly the elements equal to `x`. */
  ghost predicate Group(xs: seq<real>, o: seq<nat>, i: nat, j: nat, x: real)
    requires IsOrder(xs, o, |xs|) && i <= j < |xs|
  {
    && (forall k :: i <= k <= j ==> xs[o[k]] == x)
    && (i > 0 ==> xs[o[i - 1]] < x)
    && (j + 1 < |xs| ==> xs[o[j + 1]] > x)
  }

  lemma GroupPosition(xs: seq<real>, o: seq<nat>, i: nat, j: nat, x: real, k: nat)
    requires IsOrder(xs, o, |xs|) && i <= j < |xs| && Group(xs, o, i, j, x) && k < |xs|
    ensures (xs[o[k]] < x <==> k < i) && (xs[o[k]] == x <==> i <= k <= j)
  {
    if k < i {
      assert k < i - 1 ==> xs[o[k]] <= xs[o[i - 1]];
    } else if k > j {
      assert k > j + 1 ==> xs[o[j + 1]] <= xs[o[k]];
    }
  }

  lemma GroupSets(xs: seq<real>, o: seq<nat>, i: nat, j: nat, x: real)
    requires IsOrder(xs, o, |xs|) && i <= j < |xs| && Group(xs, o, i, j, x)
    ensures Below(xs, x) == set k | 0 <= k < i :: o[k]
    ensures Same(xs, x) == set k | i <= k < j + 1 :: o[k]
  {
    var below, same := set k | 0 <= k < i :: o[k], set k | i <= k < j + 1 :: o[k];
    forall k | 0 <= k < |xs| ensures (xs[o[k]] < x <==> k < i) && (xs[o[k]] == x <==> i <= k <= j) {
      GroupPosition(xs, o, i, j, x, k);
    }
    forall m: nat | m < |xs| ensures (m in below <== xs[m] < x) && (m in same <== xs[m] == x) {
      assert m in o;
      var k :| 0 <= k < |o| && o[k] == m;
    }
    assert below <= Below(xs, x) && same <= Same(xs, x);
  }

  lemma GroupRank(xs: seq<real>, o: seq<nat>, i: nat, j: nat, x: real)
    requires IsOrder(xs, o, |xs|) && i <= j < |xs| && Group(xs, o, i, j, x)
    ensures Rank(xs, x) == (i + j) as real / 2.0 + 1.0
  {
    SliceSize(o, 0, i);
    SliceSize(o, i, j + 1);
    GroupSets(xs, o, i, j, x);
  }

  /** `rankdata`. */
  method RankData(xs: seq<real>) returns (ranks: array<real>)
    ensures fresh(ranks) && ranks.Length == |xs|
    ensures forall m :: 0 <= m < |xs| ==> ranks[m] == Rank(xs, xs[m])
  {
    var n := |xs|;
    var o := SortedIndices(xs);
    ranks := new real[n](_ => 0.0);
    var i := 0;
    while i < n
      invariant 0 <= i <= n
      invariant 0 < i < n ==> xs[o[i - 1]] < xs[o[i]]
      invariant forall k :: 0 <= k < i ==> ranks[o[k]] == Rank(xs, xs[o[k]])
    {
      var j := i;
      while j + 1 < n && xs[o[j + 1]] == xs[o[i]]
        invariant i <= j < n
        invariant forall k :: i <= k <= j ==> xs[o[k]] == xs[o[i]]
      {
        j := j + 1;
      }
      assert j + 1 < n ==> xs[o[j]] <= xs[o[j + 1]];
      GroupRank(xs, o, i, j, xs[o[i]]);
      var avg := (i + j) as real / 2.0 + 1.0;
      var k := i;
      while k <= j
        invariant i <= k <= j + 1
        invariant forall a :: 0 <= a < k ==> ranks[o[a]] == Rank(xs, xs[o[a]])
      {
        ranks[o[k]] := avg;
        k := k + 1;
      }
      i := j + 1;
    }
    forall m | 0 <= m < n ensures ranks[m] == Rank(xs, xs[m]) {
      assert m in o;
    }
  }

  // ---------------------------------------------------------------- the ranks as a sequence

  ghost function RanksOf(xs: seq<real>): (r: seq<real>)
    ensures |r| == |xs| && forall m :: 0 <= m < |xs| ==> r[m] == Rank(xs, xs[m])
  {
    seq(|xs|, m requires 0 <= m < |xs| => Rank(xs, xs[m]))
  }

  /** What `y` adds to the rank of `x`. */
  function Share(y: real, x: real): real {
    if y < x then 1.0 else if y == x then 0.5 else 0.0
  }

  function Score(xs: seq<real>, x: real, k: nat): real
    requires k <= |xs|
  {
    if k == 0 then 0.0 else Score(xs, x, k - 1) + Share(xs[k - 1], x)
  }

  lemma CountOneMore(xs: seq<real>, x: real, k: nat)
    requires 0 < k <= |xs|
    ensures |Below(xs[..k], x)| == |Below(xs[..k - 1], x)| + if xs[k - 1] < x then 1 else 0
    ensures |Same(xs[..k], x)| == |Same(xs[..k - 1], x)| + if xs[k - 1] == x then 1 else 0
  {
    var b, s := Below(xs[..k - 1], x), Same(xs[..k - 1], x);
    assert Below(xs[..k], x) == if xs[k - 1] < x then b + {k - 1} else b;
    assert Same(xs[..k], x) == if xs[k - 1] == x then s + {k - 1} else s;
  }

  lemma {:induction false} ScoreCounts(xs: seq<real>, x: real, k: nat)
    requires k <= |xs|
    ensures Score(xs, x, k) == |Below(xs[..k], x)| as real + |Same(xs[..k], x)| as real / 2.0
  {
    if k == 0 {
      assert Below(xs[..0], x) == {} && Same(xs[..0], x) == {};
    } else {
      ScoreCounts(xs, x, k - 1);
      CountOneMore(xs, x, k);
    }
  }

  lemma RankIsScore(xs: seq<real>, x: real)
    ensures Rank(xs, x) == Score(xs, x, |xs|) + 0.5
  {
    ScoreCounts(xs, x, |xs|);
    assert xs[..|xs|] == xs;
  }

  // ---------------------------------------------------------------- the sum

  function Sum(xs: seq<real>, k: nat): real
    requires k <= |xs|
  {
    if k == 0 then 0.0 else Sum(xs, k - 1) + xs[k - 1]
  }

  function Triangle(n: nat): real {
    n as real * (n as real + 1.0) / 2.0
  }

  /** All ranks over the first `n` elements, summed over the first `k` of those. */
  function RankSum(xs: seq<real>, n: nat, k: nat): real
    requires k <= n <= |xs|
  {
    if k == 0 then 0.0 else RankSum(xs, n, k - 1) + Score(xs, xs[k - 1], n) + 0.5
  }

  /** A further element shifts the earlier ranks by what its own rank does not gain from them. */
  lemma {:induction false} OneMoreElement(xs: seq<real>, n: nat, k: nat)
    requires k <= n < |xs|
    ensures RankSum(xs, n + 1, k) + Score(xs, xs[n], k) == RankSum(xs, n, k) + k as real
  {
    if k > 0 {
      OneMoreElement(xs, n, k - 1);
      assert Share(xs[n], xs[k - 1]) + Share(xs[k - 1], xs[n]) == 1.0;
    }
  }

  lemma {:induction false} RankSumClosed(xs: seq<real>, n: nat)
    requires n <= |xs|
    ensures RankSum(xs, n, n) == Triangle(n)
  {
    if n > 0 {
      RankSumClosed(xs, n - 1);
      OneMoreElement(xs, n - 1, n - 1);
      var m := (n - 1) as real;
      assert m * (m + 1.0) / 2.0 + m + 1.0 == (m + 1.0) * (m + 2.0) / 2.0;
    }
  }

  lemma {:induction false} SumOfRanks(xs: seq<real>, k: nat)
    requires k <= |xs|
    ensures Sum(RanksOf(xs), k) == RankSum(xs, |xs|, k)
  {
    if k > 0 {
      SumOfRanks(xs, k - 1);
      RankIsScore(xs, xs[k - 1]);
    }
  }

  /** The ranks of n values add up to n(n + 1)/2, whatever the ties. */
  lemma RanksAddUp(xs: seq<real>)
    ensures Sum(RanksOf(xs), |xs|) == Triangle(|xs|)
  {
    SumOfRanks(xs, |xs|);
    RankSumClosed(xs, |xs|);
  }

  // ---------------------------------------------------------------- order

  lemma {:induction false} ScoreMonotone(xs: seq<real>, x: real, y: real, k: nat)
    requires x <= y && k <= |xs|
    ensures Score(xs, x, k) <= Score(xs, y, k)
    ensures x < y && (exists i :: 0 <= i < k && xs[i] == x) ==> Score(xs, x, k) < Score(xs, y, k)
  {
    if k > 0 {
      ScoreMonotone(xs, x, y, k - 1);
    }
  }

  /** Ranks order the elements as their values do. */
  lemma RankFollowsOrder(xs: seq<real>, i: nat, j: nat)
    requires i < |xs| && j < |xs|
    ensures Rank(xs, xs[i]) < Rank(xs, xs[j]) <==> xs[i] < xs[j]
  {
    RankIsScore(xs, xs[i]);
    RankIsScore(xs, xs[j]);
    if xs[i] < xs[j] {
      ScoreMonotone(xs, xs[i], xs[j], |xs|);
    } else {
      ScoreMonotone(xs, xs[j], xs[i], |xs|);
    }
  }

  /** Two lists whose elements compare alike. */
  ghost predicate SameOrder(xs: seq<real>, ys: seq<real>) {
    |xs| == |ys| && forall i, j :: 0 <= i < |xs| && 0 <= j < |xs| ==> (xs[i] < xs[j] <==> ys[i] < ys[j])
  }

  /** Ranks depend on the order alone; any strictly increasing map leaves them as they are. */
  lemma RanksSeeOnlyOrder(xs: seq<real>, ys: seq<real>)
    requires SameOrder(xs, ys)
    ensures RanksOf(xs) == RanksOf(ys)
  {
    forall m | 0 <= m < |xs| ensures Rank(xs, xs[m]) == Rank(ys, ys[m]) {
      assert Below(xs, xs[m]) == Below(ys, ys[m]);
      forall i: nat | i < |xs| ensures xs[i] == xs[m] <==> ys[i] == ys[m] {
        assert xs[m] < xs[i] <==> ys[m] < ys[i];
      }
      assert Same(xs, xs[m]) == Same(ys, ys[m]);
    }
  }

  /** Two lists whose elements compare the other way round. */
  ghost predicate OppositeOrder(xs: seq<real>, ys: seq<real>) {
    |xs| == |ys| && forall i, j :: 0 <= i < |xs| && 0 <= j < |xs| ==> (xs[i] < xs[j] <==> ys[j] < ys[i])
  }

  lemma {:induction false} ScoreMirrored(xs: seq<real>, ys: seq<real>, m: nat, k: nat)
    requires OppositeOrder(xs, ys) && m < |xs| && k <= |xs|
    ensures Score(xs, xs[m], k) + Score(ys, ys[m], k) == k as real
  {
    if k > 0 {
      ScoreMirrored(xs, ys, m, k - 1);
      assert xs[m] < xs[k - 1] <==> ys[k - 1] < ys[m];
    }
  }

  /** Turning the order round mirrors every rank. */
  lemma RanksMirrored(xs: seq<real>, ys: seq<real>, m: nat)
    requires OppositeOrder(xs, ys) && m < |xs|
    ensures RanksOf(xs)[m] + RanksOf(ys)[m] == |xs| as real + 1.0
  {
    RankIsScore(xs, xs[m]);
    RankIsScore(ys, ys[m]);
    ScoreMirrored(xs, ys, m, |xs|);
  }
}
