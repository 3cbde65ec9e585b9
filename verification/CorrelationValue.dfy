/**
 The value of `pearson` without means: over all pairs of points, the sum of the products of the two
 differences against the sums of their squares. From it follow when the coefficient is 1 or -1, and
 that shifting or rescaling a side never changes it.
 */
module CorrelationValue {
  import opened Wrappers
  import opened LinearSolve
  import opened Ridge
  import opened Correlation
  import Ranks

  // ---------------------------------------------------------------- sums over pairs

  /** Products of the distances of the first `k` points from a point `(c, e)`. */
  function Shifted(xs: Vec, ys: Vec, c: real, e: real, k: nat): real
    requires |xs| == |ys| && k <= |xs|
  {
    if k == 0 then 0.0 else Shifted(xs, ys, c, e, k - 1) + (xs[k - 1] - c) * (ys[k - 1] - e)
  }

  /** Products of the differences over all pairs of the first `k` points. */
  function OverPairs(xs: Vec, ys: Vec, k: nat): real
    requires |xs| == |ys| && k <= |xs|
  {
    if k == 0 then 0.0 else OverPairs(xs, ys, k - 1) + Shifted(xs, ys, xs[k - 1], ys[k - 1], k - 1)
  }

  /** Products of the first `k` points. */
  function Products(xs: Vec, ys: Vec, k: nat): real
    requires |xs| == |ys| && k <= |xs|
  {
    if k == 0 then 0.0 else Products(xs, ys, k - 1) + xs[k - 1] * ys[k - 1]
  }

  /** A shifted sum `d` in terms of the sum of products `p` and the sums `a` and `b` of `k` points. */
  predicate ShiftIs(d: real, p: real, a: real, b: real, c: real, e: real, k: real) {
    d == p - e * a - c * b + k * (c * e)
  }

  lemma ShiftStep(d: real, p: real, a: real, b: real, c: real, e: real, k: real, x: real, y: real,
                  d': real, p': real, a': real, b': real, k': real)
    requires ShiftIs(d, p, a, b, c, e, k)
    requires d' == d + (x - c) * (y - e) && p' == p + x * y && a' == a + x && b' == b + y && k' == k + 1.0
    ensures ShiftIs(d', p', a', b', c, e, k')
  {
    assert (x - c) * (y - e) == x * y - e * x - c * y + c * e;
    assert e * (a + x) == e * a + e * x && c * (b + y) == c * b + c * y;
    assert (k + 1.0) * (c * e) == k * (c * e) + c * e;
  }

  lemma {:induction false} ShiftedIs(xs: Vec, ys: Vec, c: real, e: real, k: nat)
    requires |xs| == |ys| && k <= |xs|
    ensures ShiftIs(Shifted(xs, ys, c, e, k), Products(xs, ys, k), Ranks.Sum(xs, k), Ranks.Sum(ys, k), c, e, k as real)
  {
    if k > 0 {
      ShiftedIs(xs, ys, c, e, k - 1);
      ShiftStep(Shifted(xs, ys, c, e, k - 1), Products(xs, ys, k - 1), Ranks.Sum(xs, k - 1), Ranks.Sum(ys, k - 1),
                c, e, (k - 1) as real, xs[k - 1], ys[k - 1],
                Shifted(xs, ys, c, e, k), Products(xs, ys, k), Ranks.Sum(xs, k), Ranks.Sum(ys, k), k as real);
    }
  }

  /** The sum over pairs of `k` points in the same terms. */
  predicate PairsIs(s: real, p: real, a: real, b: real, k: real) {
    s == k * p - a * b
  }

  lemma PairsStep(s: real, p: real, a: real, b: real, k: real, x: real, y: real, d: real,
                  s': real, p': real, a': real, b': real, k': real)
    requires PairsIs(s, p, a, b, k) && ShiftIs(d, p, a, b, x, y, k)
    requires s' == s + d && p' == p + x * y && a' == a + x && b' == b + y && k' == k + 1.0
    ensures PairsIs(s', p', a', b', k')
  {
    assert (k + 1.0) * (p + x * y) == k * p + p + k * (x * y) + x * y;
    assert (a + x) * (b + y) == a * b + y * a + x * b + x * y;
  }

  lemma {:induction false} OverPairsIs(xs: Vec, ys: Vec, k: nat)
    requires |xs| == |ys| && k <= |xs|
    ensures PairsIs(OverPairs(xs, ys, k), Products(xs, ys, k), Ranks.Sum(xs, k), Ranks.Sum(ys, k), k as real)
  {
    if k > 0 {
      OverPairsIs(xs, ys, k - 1);
      ShiftedIs(xs, ys, xs[k - 1], ys[k - 1], k - 1);
      PairsStep(OverPairs(xs, ys, k - 1), Products(xs, ys, k - 1), Ranks.Sum(xs, k - 1), Ranks.Sum(ys, k - 1),
                (k - 1) as real, xs[k - 1], ys[k - 1], Shifted(xs, ys, xs[k - 1], ys[k - 1], k - 1),
                OverPairs(xs, ys, k), Products(xs, ys, k), Ranks.Sum(xs, k), Ranks.Sum(ys, k), k as real);
    }
  }

  // ---------------------------------------------------------------- the deviations

  lemma {:induction false} DotIsShifted(xs: Vec, ys: Vec, u: Vec, w: Vec, c: real, e: real, lo: nat)
    requires |xs| == |ys| == |u| == |w| && lo <= |xs|
    requires forall i :: 0 <= i < |xs| ==> u[i] == xs[i] - c && w[i] == ys[i] - e
    ensures Shifted(xs, ys, c, e, lo) + DotFrom(u, w, lo) == Shifted(xs, ys, c, e, |xs|)
    decreases |xs| - lo
  {
    if lo < |xs| {
      DotIsShifted(xs, ys, u, w, c, e, lo + 1);
    }
  }

  /** `c` is the mean of `n` points with sum `a`. */
  predicate MeanIs(c: real, a: real, n: real) {
    n * c == a
  }

  lemma MeanIsMean(xs: Vec)
    requires |xs| > 0
    ensures MeanIs(Mean(xs), Ranks.Sum(xs, |xs|), |xs| as real)
  {
  }

  /** Around the means the shifted sum is an `n`-th of the sum over pairs. */
  lemma Centre(d: real, s: real, p: real, a: real, b: real, c: real, e: real, n: real)
    requires ShiftIs(d, p, a, b, c, e, n) && PairsIs(s, p, a, b, n) && MeanIs(c, a, n) && MeanIs(e, b, n)
    ensures Times(n, d) == s
  {
    assert n * (c * e) == e * a by { assert n * (c * e) == e * (n * c); }
    assert d == p - c * b;
    assert n * (p - c * b) == n * p - (n * c) * b;
  }

  lemma AroundMeans(xs: Vec, ys: Vec, c: real, e: real)
    requires |xs| == |ys|
    requires MeanIs(c, Ranks.Sum(xs, |xs|), |xs| as real) && MeanIs(e, Ranks.Sum(ys, |xs|), |xs| as real)
    ensures Times(|xs| as real, Shifted(xs, ys, c, e, |xs|)) == OverPairs(xs, ys, |xs|)
  {
    var n := |xs|;
    ShiftedIs(xs, ys, c, e, n);
    OverPairsIs(xs, ys, n);
    Centre(Shifted(xs, ys, c, e, n), OverPairs(xs, ys, n), Products(xs, ys, n),
           Ranks.Sum(xs, n), Ranks.Sum(ys, n), c, e, n as real);
  }

  lemma PairsAround(xs: Vec, ys: Vec, u: Vec, w: Vec, c: real, e: real)
    requires |xs| == |ys| == |u| == |w|
    requires MeanIs(c, Ranks.Sum(xs, |xs|), |xs| as real) && MeanIs(e, Ranks.Sum(ys, |xs|), |xs| as real)
    requires forall i :: 0 <= i < |xs| ==> u[i] == xs[i] - c && w[i] == ys[i] - e
    ensures Times(|xs| as real, Dot(u, w)) == OverPairs(xs, ys, |xs|)
  {
    DotIsShifted(xs, ys, u, w, c, e, 0);
    AroundMeans(xs, ys, c, e);
  }

  /** The sum over pairs is the number of points times the product of the deviations. */
  lemma PairsAreDeviations(xs: Vec, ys: Vec)
    requires 0 < |xs| == |ys|
    ensures Times(|xs| as real, Dot(Deviations(xs), Deviations(ys))) == OverPairs(xs, ys, |xs|)
  {
    MeanIsMean(xs);
    MeanIsMean(ys);
    PairsAround(xs, ys, Deviations(xs), Deviations(ys), Mean(xs), Mean(ys));
  }

  lemma Spread(t: real, a: real, b: real)
    ensures Times(t, a + b) == Times(t, a) + Times(t, b)
  {
  }

  // ---------------------------------------------------------------- the value

  /** The sum over all pairs. */
  function PairSum(xs: Vec, ys: Vec): real
    requires |xs| == |ys|
  {
    OverPairs(xs, ys, |xs|)
  }

  /** `num / sqrt(prod)` is `s / sqrt(qx * qy)`, said without roots. */
  ghost predicate ValueIs(r: Rho, s: real, qx: real, qy: real) {
    && Times(Squared(r.num), Times(qx, qy)) == Times(r.prod, Squared(s))
    && (r.num > 0.0 <==> s > 0.0) && (r.num < 0.0 <==> s < 0.0)
  }

  lemma ScaleAll(n: real, b: real, a: real, c: real, s: real, qx: real, qy: real)
    requires n > 0.0 && Times(n, b) == s && Times(n, a) == qx && Times(n, c) == qy
    ensures ValueIs(Rho(b, Times(a, c)), s, qx, qy)
  {
    var nn := n * n;
    assert qx * qy == nn * (a * c) by { assert (n * a) * (n * c) == (n * n) * (a * c); }
    assert s * s == nn * (b * b) by { assert (n * b) * (n * b) == (n * n) * (b * b); }
    assert (b * b) * (nn * (a * c)) == (a * c) * (nn * (b * b));
    SignOfProduct(n, b);
    SignOfProduct(n, -b);
  }

  /** The coefficient, when there is one, is the sum of the products of all pairwise differences over the
      root of the product of the sums of their squares. */
  lemma PearsonValue(xs: Vec, ys: Vec)
    requires |xs| == |ys| && PearsonOf(xs, ys).Some?
    ensures ValueIs(PearsonOf(xs, ys).value, PairSum(xs, ys), PairSum(xs, xs), PairSum(ys, ys))
    ensures PairSum(xs, xs) > 0.0 && PairSum(ys, ys) > 0.0
  {
    var u, w, n := Deviations(xs), Deviations(ys), |xs| as real;
    PairsAreDeviations(xs, ys);
    PairsAreDeviations(xs, xs);
    PairsAreDeviations(ys, ys);
    ScaleAll(n, Dot(u, w), Dot(u, u), Dot(w, w), PairSum(xs, ys), PairSum(xs, xs), PairSum(ys, ys));
    SignOfProduct(n, Dot(u, u));
    SignOfProduct(n, Dot(w, w));
  }

  // ---------------------------------------------------------------- proportional differences

  /** All differences of `ys` are `t` times those of `xs`. */
  ghost predicate Proportional(xs: Vec, ys: Vec, t: real) {
    |xs| == |ys| && forall i, j :: 0 <= i < |xs| && 0 <= j < |xs| ==> ys[i] - ys[j] == Times(t, xs[i] - xs[j])
  }

  predicate IsTimes(t: real, a: real, b: real) {
    b == t * a
  }

  lemma TimesStep(t: real, a: real, b: real, x: real, y: real, z: real)
    requires IsTimes(t, a, b) && y == Times(t, x)
    ensures IsTimes(t, a + x * z, b + y * z)
  {
    assert (t * x) * z == t * (x * z);
    Spread(t, a, x * z);
  }

  lemma {:induction false} ScaledShift(xs: Vec, ys: Vec, zs: Vec, t: real, j: nat, m: nat)
    requires Proportional(xs, ys, t) && |zs| == |xs| && j < |xs| && m <= |xs|
    ensures IsTimes(t, Shifted(xs, zs, xs[j], zs[j], m), Shifted(ys, zs, ys[j], zs[j], m))
  {
    if m > 0 {
      ScaledShift(xs, ys, zs, t, j, m - 1);
      assert ys[m - 1] - ys[j] == Times(t, xs[m - 1] - xs[j]);
      TimesStep(t, Shifted(xs, zs, xs[j], zs[j], m - 1), Shifted(ys, zs, ys[j], zs[j], m - 1),
                xs[m - 1] - xs[j], ys[m - 1] - ys[j], zs[m - 1] - zs[j]);
    }
  }

  lemma {:induction false} ScaledPairs(xs: Vec, ys: Vec, zs: Vec, t: real, k: nat)
    requires Proportional(xs, ys, t) && |zs| == |xs| && k <= |xs|
    ensures OverPairs(ys, zs, k) == Times(t, OverPairs(xs, zs, k))
  {
    if k > 0 {
      ScaledPairs(xs, ys, zs, t, k - 1);
      ScaledShift(xs, ys, zs, t, k - 1, k - 1);
      Spread(t, OverPairs(xs, zs, k - 1), Shifted(xs, zs, xs[k - 1], zs[k - 1], k - 1));
    }
  }

  lemma {:induction false} ShiftSwaps(xs: Vec, ys: Vec, c: real, e: real, k: nat)
    requires |xs| == |ys| && k <= |xs|
    ensures Shifted(xs, ys, c, e, k) == Shifted(ys, xs, e, c, k)
  {
    if k > 0 {
      ShiftSwaps(xs, ys, c, e, k - 1);
    }
  }

  lemma {:induction false} PairsSwap(xs: Vec, ys: Vec, k: nat)
    requires |xs| == |ys| && k <= |xs|
    ensures OverPairs(xs, ys, k) == OverPairs(ys, xs, k)
  {
    if k > 0 {
      PairsSwap(xs, ys, k - 1);
      ShiftSwaps(xs, ys, xs[k - 1], ys[k - 1], k - 1);
    }
  }

  /** Rescaling one side by `t` scales the mixed sum by `t` and its own by the square of `t`. */
  lemma ScaledSums(xs: Vec, ys: Vec, zs: Vec, t: real)
    requires Proportional(xs, ys, t) && |zs| == |xs|
    ensures PairSum(ys, zs) == Times(t, PairSum(xs, zs))
    ensures PairSum(ys, ys) == Times(t, Times(t, PairSum(xs, xs)))
  {
    var n := |xs|;
    ScaledPairs(xs, ys, zs, t, n);
    ScaledPairs(xs, ys, ys, t, n);
    PairsSwap(xs, ys, n);
    ScaledPairs(xs, ys, xs, t, n);
  }

  // ---------------------------------------------------------------- 1 and -1

  lemma ValueOfProportional(r: Rho, t: real, q: real)
    requires q > 0.0 && ValueIs(r, Times(t, q), q, Times(t, Times(t, q)))
    ensures t > 0.0 ==> IsOne(r)
    ensures t < 0.0 ==> IsMinusOne(r)
  {
    var s := t * q;
    assert q * (t * (t * q)) == s * s;
    if t != 0.0 {
      SignOfProduct(q, t);
      SignOfProduct(q, -t);
      assert s * s != 0.0;
      Cancel(s * s, Squared(r.num), r.prod);
    }
  }

  /** Pearson is 1 exactly when one side's differences are a positive multiple of the other's. */
  lemma PearsonIsOneExactly(xs: Vec, ys: Vec)
    requires |xs| == |ys| && PearsonOf(xs, ys).Some?
    ensures IsOne(PearsonOf(xs, ys).value) <==> exists t: real :: t > 0.0 && Proportional(xs, ys, t)
  {
    var r := PearsonOf(xs, ys).value;
    if IsOne(r) {
      var t := ExtremeSlope(xs, ys, r);
      assert t > 0.0 && Proportional(xs, ys, t);
    }
    if t: real :| t > 0.0 && Proportional(xs, ys, t) {
      ProportionalValue(xs, ys, t);
    }
  }

  /** And -1 exactly when they are a negative one. */
  lemma PearsonIsMinusOneExactly(xs: Vec, ys: Vec)
    requires |xs| == |ys| && PearsonOf(xs, ys).Some?
    ensures IsMinusOne(PearsonOf(xs, ys).value) <==> exists t: real :: t < 0.0 && Proportional(xs, ys, t)
  {
    var r := PearsonOf(xs, ys).value;
    if IsMinusOne(r) {
      var t := ExtremeSlope(xs, ys, r);
      assert t < 0.0 && Proportional(xs, ys, t);
    }
    if t: real :| t < 0.0 && Proportional(xs, ys, t) {
      ProportionalValue(xs, ys, t);
    }
  }

  lemma ProportionalValue(xs: Vec, ys: Vec, t: real)
    requires |xs| == |ys| && PearsonOf(xs, ys).Some? && Proportional(xs, ys, t)
    ensures t > 0.0 ==> IsOne(PearsonOf(xs, ys).value)
    ensures t < 0.0 ==> IsMinusOne(PearsonOf(xs, ys).value)
  {
    PearsonValue(xs, ys);
    ScaledSums(xs, ys, xs, t);
    PairsSwap(xs, ys, |xs|);
    ValueOfProportional(PearsonOf(xs, ys).value, t, PairSum(xs, xs));
  }

  lemma ExtremeSlope(xs: Vec, ys: Vec, r: Rho) returns (t: real)
    requires |xs| == |ys| && PearsonOf(xs, ys) == Some(r) && Squared(r.num) == r.prod
    ensures Proportional(xs, ys, t) && (r.num > 0.0 ==> t > 0.0) && (r.num < 0.0 ==> t < 0.0)
  {
    var u, w := Deviations(xs), Deviations(ys);
    DotSymmetric(u, w, 0);
    CauchySchwarz(w, u);
    assert Squared(Dot(w, u)) == Times(Dot(w, w), Dot(u, u));
    t :| Times(t, Dot(u, u)) == Dot(w, u) && forall i :: 0 <= i < |w| ==> w[i] == t * u[i];
    SignOf(t, Dot(u, u), Dot(w, u));
    forall i, j | 0 <= i < |xs| && 0 <= j < |xs| ensures ys[i] - ys[j] == Times(t, xs[i] - xs[j]) {
      assert ys[i] - ys[j] == w[i] - w[j] && xs[i] - xs[j] == u[i] - u[j];
      Spread(t, u[j], u[i] - u[j]);
    }
  }

  // ---------------------------------------------------------------- change of scale

  /** Two coefficients have the same value. */
  ghost predicate SameValue(r: Rho, q: Rho) {
    && Times(Squared(r.num), q.prod) == Times(Squared(q.num), r.prod)
    && (r.num > 0.0 <==> q.num > 0.0) && (r.num < 0.0 <==> q.num < 0.0)
  }

  lemma SomeSpread(xs: Vec, ys: Vec, t: real)
    requires t != 0.0 && Proportional(xs, ys, t)
    ensures Constant(xs) <==> Constant(ys)
  {
    forall i, j | 0 <= i < |xs| && 0 <= j < |xs| ensures xs[i] == xs[j] <==> ys[i] == ys[j] {
      assert ys[i] - ys[j] == Times(t, xs[i] - xs[j]);
      NoZero(t, xs[i] - xs[j]);
    }
  }

  lemma NoZero(t: real, d: real)
    requires t != 0.0
    ensures Times(t, d) == 0.0 <==> d == 0.0
  {
  }

  /** Shifting a side, or rescaling it by a positive factor, changes neither whether there is a
      coefficient nor its value. */
  lemma PearsonIgnoresScale(xs: Vec, ys: Vec, zs: Vec, t: real)
    requires |xs| == |zs| && t > 0.0 && Proportional(xs, ys, t)
    ensures PearsonOf(ys, zs).Some? <==> PearsonOf(xs, zs).Some?
    ensures PearsonOf(xs, zs).Some? ==> SameValue(PearsonOf(xs, zs).value, PearsonOf(ys, zs).value)
  {
    PearsonNoneExactly(xs, zs);
    PearsonNoneExactly(ys, zs);
    SomeSpread(xs, ys, t);
    if PearsonOf(xs, zs).Some? {
      PearsonValue(xs, zs);
      PearsonValue(ys, zs);
      ScaledSums(xs, ys, zs, t);
      ScaledValue(PearsonOf(xs, zs).value, PearsonOf(ys, zs).value, t,
                  PairSum(xs, zs), PairSum(xs, xs), PairSum(zs, zs));
    }
  }

  /** The two sides play the same part. */
  lemma PearsonSymmetric(xs: Vec, ys: Vec)
    requires |xs| == |ys|
    ensures PearsonOf(xs, ys) == PearsonOf(ys, xs)
  {
    if |xs| >= 3 {
      DotSymmetric(Deviations(xs), Deviations(ys), 0);
    }
  }

  lemma ScaledValue(r: Rho, q: Rho, t: real, s: real, qx: real, qz: real)
    requires t > 0.0 && qx > 0.0 && qz > 0.0
    requires ValueIs(r, s, qx, qz) && ValueIs(q, Times(t, s), Times(t, Times(t, qx)), qz)
    ensures SameValue(r, q)
  {
    SignOfProduct(t, s);
    SignOfProduct(t, -s);
    Unscale(q, t, s, qx, qz);
    SameRatio(Squared(r.num), r.prod, Squared(q.num), q.prod, Times(qx, qz), Squared(s));
  }

  lemma Unscale(q: Rho, t: real, s: real, qx: real, qz: real)
    requires t > 0.0 && Times(Squared(q.num), Times(Times(t, Times(t, qx)), qz)) == Times(q.prod, Squared(Times(t, s)))
    ensures Times(Squared(q.num), Times(qx, qz)) == Times(q.prod, Squared(s))
  {
    var a, b, tt := Squared(q.num), q.prod, t * t;
    assert (t * (t * qx)) * qz == tt * (qx * qz);
    assert (t * s) * (t * s) == tt * (s * s);
    assert a * (tt * (qx * qz)) == tt * (a * (qx * qz)) && b * (tt * (s * s)) == tt * (b * (s * s));
    Positive(t, t);
    Cancel(tt, a * (qx * qz), b * (s * s));
  }

  lemma SameRatio(a: real, p: real, b: real, q: real, m: real, s: real)
    requires Times(a, m) == Times(p, s) && Times(b, m) == Times(q, s) && m != 0.0
    ensures Times(a, q) == Times(b, p)
  {
    assert m * (a * q) == (a * m) * q && m * (b * p) == (b * m) * p;
    assert (p * s) * q == (q * s) * p;
    Cancel(m, a * q, b * p);
  }
}
