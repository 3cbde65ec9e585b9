/**
 `pearson` and `spearman` of scripts/analyze.py. The square root is avoided by returning what it is
 taken of: a coefficient is `num / sqrt(prod)`. It lies between -1 and 1; the rank correlation is 1
 exactly when the two lists order their pairs alike and -1 exactly when they order them oppositely.
 */
module Correlation {
  import opened Wrappers
  import opened LinearSolve
  import opened Ridge
  import Ranks

  /** The coefficient `num / sqrt(prod)`. */
  datatype Rho = Rho(num: real, prod: real)

  function Mean(xs: Vec): real
    requires |xs| > 0
  {
    Ranks.Sum(xs, |xs|) / |xs| as real
  }

  function Deviations(xs: Vec): (d: Vec)
    requires |xs| > 0
    ensures |d| == |xs| && forall i :: 0 <= i < |d| ==> d[i] == xs[i] - Mean(xs)
  {
    seq(|xs|, i requires 0 <= i < |xs| => xs[i] - Mean(xs))
  }

  function Coefficient(u: Vec, w: Vec): Option<Rho>
    requires |u| == |w|
  {
    if Dot(u, u) <= 0.0 || Dot(w, w) <= 0.0 then None else Some(Rho(Dot(u, w), Times(Dot(u, u), Dot(w, w))))
  }

  function PearsonOf(xs: Vec, ys: Vec): Option<Rho>
    requires |xs| == |ys|
  {
    if |xs| < 3 then None else Coefficient(Deviations(xs), Deviations(ys))
  }

  method MeanOf(xs: Vec) returns (m: real)
    requires |xs| > 0
    ensures m == Mean(xs)
  {
    var s, i := 0.0, 0;
    while i < |xs|
      invariant 0 <= i <= |xs| && s == Ranks.Sum(xs, i)
    {
      s := s + xs[i];
      i := i + 1;
    }
    m := s / |xs| as real;
  }

  method SumOfProducts(xs: Vec, mx: real, ys: Vec, my: real) returns (s: real)
    requires 0 < |xs| == |ys| && mx == Mean(xs) && my == Mean(ys)
    ensures s == Dot(Deviations(xs), Deviations(ys))
  {
    ghost var u, w := Deviations(xs), Deviations(ys);
    s := 0.0;
    var i := 0;
    while i < |xs|
      invariant 0 <= i <= |xs| && s + DotFrom(u, w, i) == Dot(u, w)
    {
      s := s + (xs[i] - mx) * (ys[i] - my);
      i := i + 1;
    }
  }

  /** `pearson`. */
  method Pearson(xs: Vec, ys: Vec) returns (r: Option<Rho>)
    requires |xs| == |ys|
    ensures r == PearsonOf(xs, ys)
  {
    if |xs| < 3 {
      return None;
    }
    var mx := MeanOf(xs);
    var my := MeanOf(ys);
    var sxy := SumOfProducts(xs, mx, ys, my);
    var sxx := SumOfProducts(xs, mx, xs, mx);
    var syy := SumOfProducts(ys, my, ys, my);
    if sxx <= 0.0 || syy <= 0.0 {
      return None;
    }
    r := Some(Rho(sxy, Times(sxx, syy)));
  }

  // ---------------------------------------------------------------- Cauchy-Schwarz

  /** `|w|^2 u - (u . w) w` divided by `|w|^2`: the part of `u` across `w`. */
  function Across(u: Vec, w: Vec, t: real): (v: Vec)
    requires |u| == |w|
    ensures |v| == |u| && forall i :: 0 <= i < |v| ==> v[i] == u[i] + (-t) * w[i]
  {
    AddScaled(u, -t, w)
  }

  lemma AcrossNorm(u: Vec, w: Vec, t: real)
    requires |u| == |w|
    ensures var v := Across(u, w, t);
            Dot(v, v) == (Dot(u, u) + Times(-t, Dot(u, w))) + Times(-t, Dot(u, w) + Times(-t, Dot(w, w)))
  {
    var v := Across(u, w, t);
    DotAddScaled(u, -t, w, v);
    DotAddScaled(u, -t, w, u);
    DotAddScaled(u, -t, w, w);
    DotSymmetric(u, v, 0);
    DotSymmetric(w, v, 0);
    DotSymmetric(w, u, 0);
  }

  lemma AcrossValue(a: real, b: real, c: real, t: real, n: real)
    requires a > 0.0 && t * a == b
    requires n == (c + Times(-t, b)) + Times(-t, b + Times(-t, a))
    ensures Times(n, a) == Times(c, a) - Squared(b)
  {
    assert Times(-t, a) == -b;
    assert n == c - t * b;
    assert (c - t * b) * a == c * a - (t * b) * a;
    assert (t * b) * a == (t * a) * b;
  }

  /** The squared product of two lists is at most the product of their squares. */
  lemma CauchySchwarz(u: Vec, w: Vec)
    requires |u| == |w| && Dot(w, w) > 0.0
    ensures Squared(Dot(u, w)) <= Times(Dot(u, u), Dot(w, w))
    ensures Squared(Dot(u, w)) == Times(Dot(u, u), Dot(w, w)) ==>
              exists t: real :: Times(t, Dot(w, w)) == Dot(u, w) && forall i :: 0 <= i < |u| ==> u[i] == t * w[i]
  {
    var a, b, c := Dot(w, w), Dot(u, w), Dot(u, u);
    var t := b / a;
    assert t * a == b;
    var v := Across(u, w, t);
    var n := Dot(v, v);
    AcrossNorm(u, w, t);
    AcrossValue(a, b, c, t, n);
    SquareNonNegative(v, 0);
    NormDecides(n, a, c, b);
    if Squared(b) == Times(c, a) {
      forall i | 0 <= i < |u| ensures u[i] == t * w[i] {
        if v[i] != 0.0 {
          SquarePositive(v, 0, i);
        }
      }
      assert Times(t, a) == b;
    }
  }

  lemma NormDecides(n: real, a: real, c: real, b: real)
    requires n >= 0.0 && a > 0.0 && Times(n, a) == Times(c, a) - Squared(b)
    ensures Squared(b) <= Times(c, a)
    ensures Squared(b) == Times(c, a) ==> n == 0.0
  {
    assert n > 0.0 ==> n * a > 0.0;
  }

  /** Every coefficient lies between -1 and 1. */
  lemma PearsonBounded(xs: Vec, ys: Vec)
    requires |xs| == |ys| && PearsonOf(xs, ys).Some?
    ensures var r := PearsonOf(xs, ys).value; r.prod > 0.0 && Squared(r.num) <= r.prod
  {
    var u, w := Deviations(xs), Deviations(ys);
    CauchySchwarz(u, w);
    Positive(Dot(u, u), Dot(w, w));
  }

  lemma Positive(a: real, b: real)
    requires a > 0.0 && b > 0.0
    ensures Times(a, b) > 0.0
  {
  }

  // ---------------------------------------------------------------- when there is none

  ghost predicate Constant(xs: Vec) {
    forall i, j :: 0 <= i < |xs| && 0 <= j < |xs| ==> xs[i] == xs[j]
  }

  lemma {:induction false} ConstantSum(xs: Vec, c: real, k: nat)
    requires k <= |xs| && forall i :: 0 <= i < k ==> xs[i] == c
    ensures Ranks.Sum(xs, k) == k as real * c
  {
    if k > 0 {
      ConstantSum(xs, c, k - 1);
      assert (k - 1) as real * c + c == k as real * c;
    }
  }

  lemma ConstantMean(xs: Vec)
    requires |xs| > 0 && Constant(xs)
    ensures forall i :: 0 <= i < |xs| ==> xs[i] == Mean(xs)
  {
    ConstantSum(xs, xs[0], |xs|);
    var n := |xs| as real;
    assert n * xs[0] / n == xs[0];
  }

  lemma {:induction false} ZeroNorm(d: Vec, lo: nat)
    requires lo <= |d| && forall i :: lo <= i < |d| ==> d[i] == 0.0
    ensures DotFrom(d, d, lo) == 0.0
    decreases |d| - lo
  {
    if lo < |d| {
      ZeroNorm(d, lo + 1);
    }
  }

  lemma SpreadOrConstant(xs: Vec)
    requires |xs| > 0
    ensures var d := Deviations(xs); Dot(d, d) <= 0.0 <==> Constant(xs)
  {
    var d := Deviations(xs);
    if Constant(xs) {
      ConstantMean(xs);
      ZeroNorm(d, 0);
    } else {
      var i, j :| 0 <= i < |xs| && 0 <= j < |xs| && xs[i] != xs[j];
      SquarePositive(d, 0, if d[i] != 0.0 then i else j);
    }
  }

  /** No coefficient exactly for fewer than three points or a side without spread. */
  lemma PearsonNoneExactly(xs: Vec, ys: Vec)
    requires |xs| == |ys|
    ensures PearsonOf(xs, ys).None? <==> |xs| < 3 || Constant(xs) || Constant(ys)
  {
    if |xs| >= 3 {
      SpreadOrConstant(xs);
      SpreadOrConstant(ys);
    }
  }

  // ---------------------------------------------------------------- spearman

  /** The pairs without a missing side, among the first `k`. */
  function Pairs(xs: seq<Option<real>>, ys: seq<Option<real>>, k: nat): (r: (Vec, Vec))
    requires k <= |xs| && k <= |ys|
    ensures |r.0| == |r.1| <= k
  {
    if k == 0 then ([], [])
    else
      var (a, b) := Pairs(xs, ys, k - 1);
      if xs[k - 1].Some? && ys[k - 1].Some? then (a + [xs[k - 1].value], b + [ys[k - 1].value]) else (a, b)
  }

  ghost function SpearmanOf(a: Vec, b: Vec): Option<Rho>
    requires |a| == |b|
  {
    PearsonOf(Ranks.RanksOf(a), Ranks.RanksOf(b))
  }

  /** The rank correlation of two lists with gaps. */
  ghost function SpearmanWithGaps(xs: seq<Option<real>>, ys: seq<Option<real>>): Option<Rho> {
    var n := if |xs| < |ys| then |xs| else |ys|;
    SpearmanOf(Pairs(xs, ys, n).0, Pairs(xs, ys, n).1)
  }

  /** `spearman`; surplus entries of the longer list are ignored. */
  method Spearman(xs: seq<Option<real>>, ys: seq<Option<real>>) returns (r: Option<Rho>)
    ensures r == SpearmanWithGaps(xs, ys)
  {
    var n := if |xs| < |ys| then |xs| else |ys|;
    var a: Vec, b: Vec, i := [], [], 0;
    while i < n
      invariant 0 <= i <= n && (a, b) == Pairs(xs, ys, i)
    {
      if xs[i].Some? && ys[i].Some? {
        a, b := a + [xs[i].value], b + [ys[i].value];
      }
      i := i + 1;
    }
    if |a| < 3 {
      return None;
    }
    r := RankCorrelation(a, b);
  }

  method RankCorrelation(a: Vec, b: Vec) returns (r: Option<Rho>)
    requires |a| == |b|
    ensures r == SpearmanOf(a, b)
  {
    var ra := Ranks.RankData(a);
    var rb := Ranks.RankData(b);
    assert ra[..] == Ranks.RanksOf(a) && rb[..] == Ranks.RanksOf(b);
    r := Pearson(ra[..], rb[..]);
  }

  /** Only the order of each list counts. */
  lemma SpearmanSeesOnlyOrder(a: Vec, b: Vec, a': Vec, b': Vec)
    requires |a| == |b| && Ranks.SameOrder(a, a') && Ranks.SameOrder(b, b')
    ensures SpearmanOf(a, b) == SpearmanOf(a', b')
  {
    Ranks.RanksSeeOnlyOrder(a, a');
    Ranks.RanksSeeOnlyOrder(b, b');
  }

  /** The positions of those pairs. */
  function Complete(xs: seq<Option<real>>, ys: seq<Option<real>>, k: nat): (r: seq<nat>)
    requires k <= |xs| && k <= |ys|
    ensures forall m :: 0 <= m < |r| ==> r[m] < k && xs[r[m]].Some? && ys[r[m]].Some?
  {
    if k == 0 then []
    else Complete(xs, ys, k - 1) + if xs[k - 1].Some? && ys[k - 1].Some? then [k - 1] else []
  }

  /** None is left out, and they are in order. */
  lemma {:induction false} CompleteIsComplete(xs: seq<Option<real>>, ys: seq<Option<real>>, k: nat)
    requires k <= |xs| && k <= |ys|
    ensures forall i: nat :: i in Complete(xs, ys, k) <==> i < k && xs[i].Some? && ys[i].Some?
    ensures forall m, l :: 0 <= m < l < |Complete(xs, ys, k)| ==> Complete(xs, ys, k)[m] < Complete(xs, ys, k)[l]
  {
    if k > 0 {
      CompleteIsComplete(xs, ys, k - 1);
    }
  }

  lemma {:induction false} PairsAreComplete(xs: seq<Option<real>>, ys: seq<Option<real>>, k: nat)
    requires k <= |xs| && k <= |ys|
    ensures var (a, b), at := Pairs(xs, ys, k), Complete(xs, ys, k);
            |a| == |at| && forall m :: 0 <= m < |at| ==> a[m] == xs[at[m]].value && b[m] == ys[at[m]].value
  {
    if k > 0 {
      PairsAreComplete(xs, ys, k - 1);
    }
  }

  /** The same gaps, and the values present are ordered alike. */
  ghost predicate SameGapsAndOrder(xs: seq<Option<real>>, xs': seq<Option<real>>) {
    && |xs| == |xs'| && (forall i :: 0 <= i < |xs| ==> (xs[i].Some? <==> xs'[i].Some?))
    && forall i, j :: 0 <= i < |xs| && 0 <= j < |xs| && xs[i].Some? && xs[j].Some? ==>
                        (xs[i].value < xs[j].value <==> xs'[i].value < xs'[j].value)
  }

  lemma {:induction false} SameComplete(xs: seq<Option<real>>, ys: seq<Option<real>>,
                                        xs': seq<Option<real>>, ys': seq<Option<real>>, k: nat)
    requires k <= |xs| && k <= |ys| && SameGapsAndOrder(xs, xs') && SameGapsAndOrder(ys, ys')
    ensures Complete(xs, ys, k) == Complete(xs', ys', k)
  {
    if k > 0 {
      SameComplete(xs, ys, xs', ys', k - 1);
    }
  }

  /** So it is for lists with gaps, whatever stands on the incomplete pairs' other side. */
  lemma SpearmanWithGapsSeesOnlyOrder(xs: seq<Option<real>>, ys: seq<Option<real>>,
                                      xs': seq<Option<real>>, ys': seq<Option<real>>)
    requires SameGapsAndOrder(xs, xs') && SameGapsAndOrder(ys, ys')
    ensures SpearmanWithGaps(xs, ys) == SpearmanWithGaps(xs', ys')
  {
    var n := if |xs| < |ys| then |xs| else |ys|;
    PairsAreComplete(xs, ys, n);
    PairsAreComplete(xs', ys', n);
    SameComplete(xs, ys, xs', ys', n);
    var (a, b) := Pairs(xs, ys, n);
    var (a', b') := Pairs(xs', ys', n);
    SpearmanSeesOnlyOrder(a, b, a', b');
  }

  ghost predicate StrictlyRising(f: real -> real) {
    forall x: real, y: real :: x < y ==> f(x) < f(y)
  }

  /** A map on the values that are present. */
  function Mapped(f: real -> real, xs: seq<Option<real>>): (r: seq<Option<real>>)
    ensures |r| == |xs|
    ensures forall i :: 0 <= i < |xs| ==> r[i] == if xs[i].Some? then Some(f(xs[i].value)) else None
  {
    seq(|xs|, i requires 0 <= i < |xs| => if xs[i].Some? then Some(f(xs[i].value)) else None)
  }

  /** A strictly increasing change of scale on either side never changes the coefficient. */
  lemma SpearmanIgnoresScale(f: real -> real, g: real -> real, xs: seq<Option<real>>, ys: seq<Option<real>>)
    requires StrictlyRising(f) && StrictlyRising(g)
    ensures SpearmanWithGaps(Mapped(f, xs), Mapped(g, ys)) == SpearmanWithGaps(xs, ys)
  {
    RisingKeepsOrder(f, xs);
    RisingKeepsOrder(g, ys);
    SpearmanWithGapsSeesOnlyOrder(xs, ys, Mapped(f, xs), Mapped(g, ys));
  }

  lemma RisingKeepsOrder(f: real -> real, xs: seq<Option<real>>)
    requires StrictlyRising(f)
    ensures SameGapsAndOrder(xs, Mapped(f, xs))
  {
    forall x: real, y: real ensures x < y <==> f(x) < f(y) {
      assert y < x ==> f(y) < f(x);
    }
  }

  lemma TiesAgree(a: Vec, i: nat, j: nat)
    requires i < |a| && j < |a|
    ensures Ranks.RanksOf(a)[i] == Ranks.RanksOf(a)[j] <==> a[i] == a[j]
  {
    Ranks.RankFollowsOrder(a, i, j);
    Ranks.RankFollowsOrder(a, j, i);
  }

  lemma ConstantRanks(a: Vec)
    ensures Constant(Ranks.RanksOf(a)) <==> Constant(a)
  {
    forall i, j | 0 <= i < |a| && 0 <= j < |a|
      ensures Ranks.RanksOf(a)[i] == Ranks.RanksOf(a)[j] <==> a[i] == a[j]
    {
      TiesAgree(a, i, j);
    }
  }

  /** No rank correlation exactly for fewer than three complete pairs or a side with one value. */
  lemma SpearmanNoneExactly(a: Vec, b: Vec)
    requires |a| == |b|
    ensures SpearmanOf(a, b).None? <==> |a| < 3 || Constant(a) || Constant(b)
  {
    PearsonNoneExactly(Ranks.RanksOf(a), Ranks.RanksOf(b));
    ConstantRanks(a);
    ConstantRanks(b);
  }

  // ---------------------------------------------------------------- the extreme values

  ghost predicate IsOne(r: Rho) {
    r.num > 0.0 && Squared(r.num) == r.prod
  }

  ghost predicate IsMinusOne(r: Rho) {
    r.num < 0.0 && Squared(r.num) == r.prod
  }

  lemma SignOf(t: real, a: real, b: real)
    requires a > 0.0 && Times(t, a) == b
    ensures (b > 0.0 ==> t > 0.0) && (b < 0.0 ==> t < 0.0)
  {
    assert t <= 0.0 ==> t * a <= 0.0;
    assert t >= 0.0 ==> t * a >= 0.0;
  }

  lemma ScaledOrders(t: real, x: real, y: real, p: real, q: real)
    requires p == t * x && q == t * y
    ensures t > 0.0 ==> (p < q <==> x < y)
    ensures t < 0.0 ==> (p < q <==> y < x)
  {
    assert q - p == t * (y - x);
    if t > 0.0 {
      SignOfProduct(t, y - x);
    } else if t < 0.0 {
      SignOfProduct(-t, x - y);
    }
  }

  lemma SignOfProduct(t: real, d: real)
    requires t > 0.0
    ensures t * d > 0.0 <==> d > 0.0
  {
    assert d <= 0.0 ==> t * d <= 0.0;
  }

  lemma Extreme(xs: Vec, ys: Vec, r: Rho)
    requires |xs| == |ys| && PearsonOf(xs, ys) == Some(r) && Squared(r.num) == r.prod
    ensures r.num > 0.0 ==> Ranks.SameOrder(xs, ys)
    ensures r.num < 0.0 ==> Ranks.OppositeOrder(xs, ys)
  {
    var u, w := Deviations(xs), Deviations(ys);
    CauchySchwarz(u, w);
    var t: real :| Times(t, Dot(w, w)) == Dot(u, w) && forall i :: 0 <= i < |u| ==> u[i] == t * w[i];
    SignOf(t, Dot(w, w), Dot(u, w));
    forall i, j | 0 <= i < |xs| && 0 <= j < |xs|
      ensures r.num > 0.0 ==> (xs[i] < xs[j] <==> ys[i] < ys[j])
      ensures r.num < 0.0 ==> (xs[i] < xs[j] <==> ys[j] < ys[i])
    {
      ScaledOrders(t, w[i], w[j], u[i], u[j]);
    }
  }

  lemma RankOrderIsOrder(a: Vec, b: Vec)
    requires |a| == |b|
    ensures Ranks.SameOrder(Ranks.RanksOf(a), Ranks.RanksOf(b)) <==> Ranks.SameOrder(a, b)
    ensures Ranks.OppositeOrder(Ranks.RanksOf(a), Ranks.RanksOf(b)) <==> Ranks.OppositeOrder(a, b)
  {
    RanksKeepOrder(a);
    RanksKeepOrder(b);
  }

  lemma RanksKeepOrder(a: Vec)
    ensures forall i, j :: 0 <= i < |a| && 0 <= j < |a| ==> (Ranks.RanksOf(a)[i] < Ranks.RanksOf(a)[j] <==> a[i] < a[j])
  {
    forall i, j | 0 <= i < |a| && 0 <= j < |a| ensures Ranks.RanksOf(a)[i] < Ranks.RanksOf(a)[j] <==> a[i] < a[j] {
      Ranks.RankFollowsOrder(a, i, j);
    }
  }

  lemma Quotient(n: real, c: real, s: real)
    requires n > 0.0 && s == n * c / 2.0
    ensures s / n == c / 2.0
  {
    var m, h := s / n, c / 2.0;
    assert n * m == s;
    assert n * h == s;
    Cancel(n, m, h);
  }

  lemma TriangleMean(n: nat, s: real)
    requires n > 0 && s == Ranks.Triangle(n)
    ensures s / n as real == (n as real + 1.0) / 2.0
  {
    Quotient(n as real, n as real + 1.0, s);
  }

  /** The mean rank is the same for all data of one length. */
  lemma MeanRank(a: Vec)
    requires |a| > 0
    ensures Mean(Ranks.RanksOf(a)) == (|a| as real + 1.0) / 2.0
  {
    Ranks.RanksAddUp(a);
    TriangleMean(|a|, Ranks.Triangle(|a|));
  }

  lemma {:induction false} NegatedDot(u: Vec, w: Vec, v: Vec, lo: nat)
    requires |u| == |w| == |v| && lo <= |u| && forall i :: 0 <= i < |u| ==> w[i] == -u[i]
    ensures DotFrom(v, w, lo) == -DotFrom(v, u, lo)
    decreases |u| - lo
  {
    if lo < |u| {
      NegatedDot(u, w, v, lo + 1);
      assert v[lo] * (-u[lo]) == -(v[lo] * u[lo]);
    }
  }

  lemma MirroredDeviations(a: Vec, b: Vec)
    requires |a| > 0 && Ranks.OppositeOrder(a, b)
    ensures var u, w := Deviations(Ranks.RanksOf(a)), Deviations(Ranks.RanksOf(b));
            forall i :: 0 <= i < |u| ==> w[i] == -u[i]
  {
    MeanRank(a);
    MeanRank(b);
    forall i | 0 <= i < |a| ensures Deviations(Ranks.RanksOf(b))[i] == -Deviations(Ranks.RanksOf(a))[i] {
      Ranks.RanksMirrored(a, b, i);
    }
  }

  lemma UnitRatio(r: Rho, s: real)
    requires s > 0.0 && r.prod == Times(s, s)
    ensures (r.num == s ==> IsOne(r)) && (r.num == -s ==> IsMinusOne(r))
  {
    assert Squared(s) == Times(s, s) && Squared(-s) == Times(s, s);
  }

  lemma MirroredProducts(u: Vec, w: Vec)
    requires |u| == |w| && forall i :: 0 <= i < |u| ==> w[i] == -u[i]
    ensures Dot(u, w) == -Dot(u, u) && Dot(w, w) == Dot(u, u)
  {
    NegatedDot(u, w, u, 0);
    NegatedDot(u, w, w, 0);
    DotSymmetric(w, u, 0);
  }

  lemma MirroredExtreme(a: Vec, b: Vec, r: Rho)
    requires |a| == |b| && SpearmanOf(a, b) == Some(r) && Ranks.OppositeOrder(a, b)
    ensures IsMinusOne(r)
  {
    var u, w := Deviations(Ranks.RanksOf(a)), Deviations(Ranks.RanksOf(b));
    MirroredDeviations(a, b);
    MirroredProducts(u, w);
    UnitRatio(r, Dot(u, u));
  }

  /** The rank correlation is 1 exactly when both lists order every pair alike. */
  lemma SpearmanIsOneExactly(a: Vec, b: Vec, r: Rho)
    requires |a| == |b| && SpearmanOf(a, b) == Some(r)
    ensures IsOne(r) <==> Ranks.SameOrder(a, b)
  {
    RankOrderIsOrder(a, b);
    if Ranks.SameOrder(a, b) {
      Ranks.RanksSeeOnlyOrder(a, b);
      var u := Deviations(Ranks.RanksOf(a));
      UnitRatio(r, Dot(u, u));
    } else if IsOne(r) {
      Extreme(Ranks.RanksOf(a), Ranks.RanksOf(b), r);
    }
  }

  /** It is -1 exactly when they order every pair oppositely. */
  lemma SpearmanIsMinusOneExactly(a: Vec, b: Vec, r: Rho)
    requires |a| == |b| && SpearmanOf(a, b) == Some(r)
    ensures IsMinusOne(r) <==> Ranks.OppositeOrder(a, b)
  {
    RankOrderIsOrder(a, b);
    if Ranks.OppositeOrder(a, b) {
      MirroredExtreme(a, b, r);
    } else if IsMinusOne(r) {
      Extreme(Ranks.RanksOf(a), Ranks.RanksOf(b), r);
    }
  }
}
