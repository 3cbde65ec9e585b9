/**
 The least-squares core of `calibrate` (sim/rail_model.py): normal equations with a small diagonal
 term, solved by `LinearSolve`. Before clamping the result is the one minimiser of the penalised
 sum of squares, for any number of samples and parameters.
 */
module Ridge {
  import opened Wrappers
  import opened LinearSolve

  ghost predicate Data(X: seq<Vec>, Y: Vec, n: nat) {
    |X| == |Y| && forall r :: 0 <= r < |X| ==> |X[r]| == n
  }

  /** `sum(rx[i] * rx[j] for rx in rows_x)` over the first `k` rows. */
  function Gram(X: seq<Vec>, n: nat, i: nat, j: nat, k: nat): real
    requires (forall r :: 0 <= r < |X| ==> |X[r]| == n) && i < n && j < n && k <= |X|
  {
    if k == 0 then 0.0 else Gram(X, n, i, j, k - 1) + X[k - 1][i] * X[k - 1][j]
  }

  /** `sum(rx[i] * s for rx, s in zip(rows_x, s))` over the first `k` rows. */
  function Moment(X: seq<Vec>, n: nat, s: Vec, i: nat, k: nat): real
    requires (forall r :: 0 <= r < |X| ==> |X[r]| == n) && i < n && k <= |X| == |s|
  {
    if k == 0 then 0.0 else Moment(X, n, s, i, k - 1) + X[k - 1][i] * s[k - 1]
  }

  function Trace(X: seq<Vec>, n: nat, k: nat): real
    requires (forall r :: 0 <= r < |X| ==> |X[r]| == n) && k <= n
  {
    if k == 0 then 0.0 else Trace(X, n, k - 1) + Gram(X, n, k - 1, k - 1, |X|)
  }

  /** `1e-9 * (trace or 1.0)`. */
  function Lambda(X: seq<Vec>, n: nat): real
    requires forall r :: 0 <= r < |X| ==> |X[r]| == n
  {
    0.000000001 * (if Trace(X, n, n) == 0.0 then 1.0 else Trace(X, n, n))
  }

  /** The matrix handed to the solver. */
  function Normal(X: seq<Vec>, n: nat): (A: Matrix)
    requires forall r :: 0 <= r < |X| ==> |X[r]| == n
    ensures Square(A, n)
  {
    seq(n, i requires 0 <= i < n =>
      seq(n, j requires 0 <= j < n => Gram(X, n, i, j, |X|) + if i == j then Lambda(X, n) else 0.0))
  }

  function Rhs(X: seq<Vec>, Y: Vec, n: nat): (b: Vec)
    requires Data(X, Y, n)
    ensures |b| == n
  {
    seq(n, i requires 0 <= i < n => Moment(X, n, Y, i, |X|))
  }

  function Squared(x: real): real {
    x * x
  }

  /** Sum of squared residuals over the first `k` rows. */
  function Fit(X: seq<Vec>, Y: Vec, z: Vec, k: nat): real
    requires Data(X, Y, |z|) && k <= |X|
  {
    if k == 0 then 0.0
    else Fit(X, Y, z, k - 1) + Squared(Y[k - 1] - Dot(X[k - 1], z))
  }

  /** A product that the proofs below carry around whole. */
  function Times(a: real, b: real): real {
    a * b
  }

  /** What the calibration minimises. */
  function Loss(X: seq<Vec>, Y: Vec, z: Vec): real
    requires Data(X, Y, |z|)
  {
    Fit(X, Y, z, |X|) + Times(Lambda(X, |z|), Dot(z, z))
  }

  // ---------------------------------------------------------------- positivity

  lemma {:induction false} GramDiagonal(X: seq<Vec>, n: nat, i: nat, k: nat)
    requires (forall r :: 0 <= r < |X| ==> |X[r]| == n) && i < n && k <= |X|
    ensures Gram(X, n, i, i, k) >= 0.0
  {
    if k > 0 {
      GramDiagonal(X, n, i, k - 1);
    }
  }

  lemma {:induction false} TraceNonNegative(X: seq<Vec>, n: nat, k: nat)
    requires (forall r :: 0 <= r < |X| ==> |X[r]| == n) && k <= n
    ensures Trace(X, n, k) >= 0.0
  {
    if k > 0 {
      TraceNonNegative(X, n, k - 1);
      GramDiagonal(X, n, k - 1, |X|);
    }
  }

  lemma {:induction false} SquareNonNegative(d: Vec, lo: nat)
    requires lo <= |d|
    ensures DotFrom(d, d, lo) >= 0.0
    decreases |d| - lo
  {
    if lo < |d| {
      SquareNonNegative(d, lo + 1);
    }
  }

  lemma SameSign(a: real, b: real, y: real)
    requires y == a * b && ((a > 0.0 && b > 0.0) || (a < 0.0 && b < 0.0))
    ensures y > 0.0
  {
    if a < 0.0 {
      assert y == (-a) * (-b);
    }
  }

  lemma SquarePlus(x: real, rest: real)
    requires rest >= 0.0 && (x < 0.0 || x > 0.0 || rest > 0.0)
    ensures x * x + rest > 0.0
  {
    var y := x * x;
    assert y >= 0.0;
    if x < 0.0 || x > 0.0 {
      SameSign(x, x, y);
    }
    assert y + rest > 0.0;
  }

  lemma {:induction false} SquarePositive(d: Vec, lo: nat, c: nat)
    requires lo <= c < |d| && d[c] != 0.0
    ensures DotFrom(d, d, lo) > 0.0
    decreases c - lo
  {
    if lo == c {
      SquareNonNegative(d, lo + 1);
    } else {
      SquarePositive(d, lo + 1, c);
    }
    SquarePlus(d[lo], DotFrom(d, d, lo + 1));
  }

  // ---------------------------------------------------------------- exchanging sums

  /** `a + f * b`. */
  function AddScaled(a: Vec, f: real, b: Vec): (r: Vec)
    requires |a| == |b|
    ensures |r| == |a| && forall c :: 0 <= c < |a| ==> r[c] == a[c] + f * b[c]
  {
    seq(|a|, c requires 0 <= c < |a| => a[c] + f * b[c])
  }

  lemma DotAddScaled(a: Vec, f: real, b: Vec, w: Vec)
    requires |a| == |b| == |w|
    ensures Dot(AddScaled(a, f, b), w) == Dot(a, w) + Times(f, Dot(b, w))
  {
    forall c | 0 <= c < |a| ensures AddScaled(a, f, b)[c] == a[c] - (-f) * b[c] {
    }
    DotMinus(AddScaled(a, f, b), a, -f, b, w, 0);
  }

  function Zeros(n: nat): Vec {
    seq(n, _ => 0.0)
  }

  /** The combination of the first `k` rows with coefficients `s`. */
  function Weighted(X: seq<Vec>, n: nat, s: Vec, k: nat): (v: Vec)
    requires (forall r :: 0 <= r < |X| ==> |X[r]| == n) && k <= |X| == |s|
    ensures |v| == n
  {
    if k == 0 then Zeros(n) else AddScaled(Weighted(X, n, s, k - 1), s[k - 1], X[k - 1])
  }

  /** `sum(s_r * (x_r . w))` over the first `k` rows. */
  function Along(X: seq<Vec>, s: Vec, w: Vec, k: nat): real
    requires (forall r :: 0 <= r < |X| ==> |X[r]| == |w|) && k <= |X| == |s|
  {
    if k == 0 then 0.0 else Along(X, s, w, k - 1) + Times(s[k - 1], Dot(X[k - 1], w))
  }

  lemma {:induction false} DotZeros(n: nat, w: Vec, lo: nat)
    requires |w| == n && lo <= n
    ensures DotFrom(Zeros(n), w, lo) == 0.0
    decreases n - lo
  {
    if lo < n {
      DotZeros(n, w, lo + 1);
    }
  }

  lemma {:induction false} WeightedDot(X: seq<Vec>, s: Vec, w: Vec, k: nat)
    requires (forall r :: 0 <= r < |X| ==> |X[r]| == |w|) && k <= |X| == |s|
    ensures Dot(Weighted(X, |w|, s, k), w) == Along(X, s, w, k)
  {
    if k == 0 {
      DotZeros(|w|, w, 0);
    } else {
      WeightedDot(X, s, w, k - 1);
      DotAddScaled(Weighted(X, |w|, s, k - 1), s[k - 1], X[k - 1], w);
    }
  }

  lemma {:induction false} WeightedAt(X: seq<Vec>, n: nat, s: Vec, i: nat, k: nat)
    requires (forall r :: 0 <= r < |X| ==> |X[r]| == n) && k <= |X| == |s| && i < n
    ensures Weighted(X, n, s, k)[i] == Moment(X, n, s, i, k)
  {
    if k > 0 {
      WeightedAt(X, n, s, i, k - 1);
    }
  }

  function Column(X: seq<Vec>, n: nat, i: nat): (s: Vec)
    requires (forall r :: 0 <= r < |X| ==> |X[r]| == n) && i < n
    ensures |s| == |X| && forall r :: 0 <= r < |X| ==> s[r] == X[r][i]
  {
    seq(|X|, r requires 0 <= r < |X| => X[r][i])
  }

  lemma {:induction false} GramIsMoment(X: seq<Vec>, n: nat, i: nat, j: nat, k: nat)
    requires (forall r :: 0 <= r < |X| ==> |X[r]| == n) && i < n && j < n && k <= |X|
    ensures Gram(X, n, i, j, k) == Moment(X, n, Column(X, n, i), j, k)
  {
    if k > 0 {
      GramIsMoment(X, n, i, j, k - 1);
    }
  }

  function Unit(n: nat, i: nat): (v: Vec)
    ensures |v| == n && forall c :: 0 <= c < n ==> v[c] == if c == i then 1.0 else 0.0
  {
    seq(n, c => if c == i then 1.0 else 0.0)
  }

  lemma {:induction false} UnitDot(n: nat, i: nat, w: Vec, lo: nat)
    requires |w| == n && i < n && lo <= n
    ensures DotFrom(Unit(n, i), w, lo) == if lo <= i then w[i] else 0.0
    decreases n - lo
  {
    if lo < n {
      UnitDot(n, i, w, lo + 1);
    }
  }

  lemma NormalRowShape(X: seq<Vec>, n: nat, i: nat)
    requires (forall r :: 0 <= r < |X| ==> |X[r]| == n) && i < n
    ensures Normal(X, n)[i] == AddScaled(Weighted(X, n, Column(X, n, i), |X|), Lambda(X, n), Unit(n, i))
  {
    var col, lam := Column(X, n, i), Lambda(X, n);
    var base := Weighted(X, n, col, |X|);
    var want := AddScaled(base, lam, Unit(n, i));
    forall j | 0 <= j < n ensures Normal(X, n)[i][j] == want[j] {
      WeightedAt(X, n, col, j, |X|);
      GramIsMoment(X, n, i, j, |X|);
    }
  }

  lemma UnitAdded(base: Vec, lam: real, i: nat, z: Vec)
    requires |base| == |z| && i < |z|
    ensures Dot(AddScaled(base, lam, Unit(|z|, i)), z) == Dot(base, z) + Times(lam, z[i])
  {
    DotAddScaled(base, lam, Unit(|z|, i), z);
    UnitDot(|z|, i, z, 0);
  }

  /** Row `i` of the matrix, applied to `z`. */
  lemma NormalRow(X: seq<Vec>, z: Vec, i: nat)
    requires (forall r :: 0 <= r < |X| ==> |X[r]| == |z|) && i < |z|
    ensures Dot(Normal(X, |z|)[i], z) == Along(X, Column(X, |z|, i), z, |X|) + Times(Lambda(X, |z|), z[i])
  {
    var n, col, lam := |z|, Column(X, |z|, i), Lambda(X, |z|);
    var base := Weighted(X, n, col, |X|);
    NormalRowShape(X, n, i);
    WeightedDot(X, col, z, |X|);
    UnitAdded(base, lam, i, z);
  }

  function Residuals(X: seq<Vec>, Y: Vec, z: Vec): (s: Vec)
    requires Data(X, Y, |z|)
    ensures |s| == |X| && forall r :: 0 <= r < |X| ==> s[r] == Y[r] - Dot(X[r], z)
  {
    seq(|X|, r requires 0 <= r < |X| => Y[r] - Dot(X[r], z))
  }

  lemma {:induction false} MomentOfResiduals(X: seq<Vec>, Y: Vec, z: Vec, i: nat, k: nat)
    requires Data(X, Y, |z|) && i < |z| && k <= |X|
    ensures Moment(X, |z|, Residuals(X, Y, z), i, k)
            == Moment(X, |z|, Y, i, k) - Along(X, Column(X, |z|, i), z, k)
  {
    if k > 0 {
      MomentOfResiduals(X, Y, z, i, k - 1);
      var a, y, d := X[k - 1][i], Y[k - 1], Dot(X[k - 1], z);
      assert a * (y - d) == a * y - a * d;
    }
  }

  lemma OneColumnOrthogonal(X: seq<Vec>, Y: Vec, z: Vec, i: nat)
    requires Data(X, Y, |z|) && i < |z|
    requires Solves(Normal(X, |z|), Rhs(X, Y, |z|), z)
    ensures Weighted(X, |z|, Residuals(X, Y, z), |X|)[i] == Times(Lambda(X, |z|), z[i])
  {
    var n := |z|;
    assert Dot(Normal(X, n)[i], z) == Rhs(X, Y, n)[i];
    NormalRow(X, z, i);
    MomentOfResiduals(X, Y, z, i, |X|);
    WeightedAt(X, n, Residuals(X, Y, z), i, |X|);
  }

  ghost predicate Orthogonal(X: seq<Vec>, Y: Vec, z: Vec, lam: real)
    requires Data(X, Y, |z|)
  {
    Weighted(X, |z|, Residuals(X, Y, z), |X|) == AddScaled(Zeros(|z|), lam, z)
  }

  /** The normal equations say that the residuals are orthogonal to every column, up to the penalty. */
  lemma ColumnsOrthogonal(X: seq<Vec>, Y: Vec, z: Vec)
    requires Data(X, Y, |z|)
    requires Solves(Normal(X, |z|), Rhs(X, Y, |z|), z)
    ensures Orthogonal(X, Y, z, Lambda(X, |z|))
  {
    var n, lam := |z|, Lambda(X, |z|);
    var v, want := Weighted(X, n, Residuals(X, Y, z), |X|), AddScaled(Zeros(n), lam, z);
    forall i | 0 <= i < n ensures v[i] == want[i] {
      OneColumnOrthogonal(X, Y, z, i);
    }
    assert v == want;
  }

  lemma ResidualsOrthogonal(X: seq<Vec>, Y: Vec, z: Vec, d: Vec, lam: real)
    requires Data(X, Y, |z|) && |d| == |z| && Orthogonal(X, Y, z, lam)
    ensures Along(X, Residuals(X, Y, z), d, |X|) == Times(lam, Dot(z, d))
  {
    DotAddScaled(Zeros(|z|), lam, z, d);
    DotZeros(|z|, d, 0);
    WeightedDot(X, Residuals(X, Y, z), d, |X|);
  }

  // ---------------------------------------------------------------- the minimum

  function SquaresAlong(X: seq<Vec>, d: Vec, k: nat): (s: real)
    requires (forall r :: 0 <= r < |X| ==> |X[r]| == |d|) && k <= |X|
    ensures s >= 0.0
  {
    if k == 0 then 0.0 else SquaresAlong(X, d, k - 1) + Squared(Dot(X[k - 1], d))
  }

  lemma Binomial(y: real, a: real, b: real)
    ensures Squared(y - (a + b)) == Squared(y - a) - 2.0 * ((y - a) * b) + b * b
  {
  }

  lemma RowMoved(x: Vec, y: real, z: Vec, d: Vec, r: real)
    requires |x| == |z| == |d| && r == y - Dot(x, z)
    ensures Squared(y - Dot(x, Plus(z, d)))
            == Squared(y - Dot(x, z)) - 2.0 * Times(r, Dot(x, d)) + Squared(Dot(x, d))
  {
    DotPlus(x, z, d, 0);
    Binomial(y, Dot(x, z), Dot(x, d));
  }

  lemma {:induction false} FitMoved(X: seq<Vec>, Y: Vec, z: Vec, d: Vec, k: nat)
    requires Data(X, Y, |z|) && |d| == |z| && k <= |X|
    ensures Fit(X, Y, Plus(z, d), k)
            == Fit(X, Y, z, k) - 2.0 * Along(X, Residuals(X, Y, z), d, k) + SquaresAlong(X, d, k)
  {
    if k > 0 {
      FitMoved(X, Y, z, d, k - 1);
      RowMoved(X[k - 1], Y[k - 1], z, d, Residuals(X, Y, z)[k - 1]);
    }
  }

  lemma {:induction false} DotSymmetric(u: Vec, w: Vec, lo: nat)
    requires |u| == |w| && lo <= |u|
    ensures DotFrom(u, w, lo) == DotFrom(w, u, lo)
    decreases |u| - lo
  {
    if lo < |u| {
      DotSymmetric(u, w, lo + 1);
    }
  }

  lemma NormMoved(z: Vec, d: Vec)
    requires |d| == |z|
    ensures Dot(Plus(z, d), Plus(z, d)) == Dot(z, z) + 2.0 * Dot(z, d) + Dot(d, d)
  {
    var p := Plus(z, d);
    DotPlus(p, z, d, 0);
    DotSymmetric(p, z, 0);
    DotSymmetric(p, d, 0);
    DotPlus(z, z, d, 0);
    DotPlus(d, z, d, 0);
    DotSymmetric(d, z, 0);
  }

  /** `fit` and `b2` belong to the solution, `fit'` and `n2` to the point one step away from it. */
  lemma StepCosts(fit': real, n2: real, fit: real, along: real, lam: real, b2: real, bd: real, d2: real)
    requires fit' == fit - 2.0 * Times(lam, bd) + along && n2 == b2 + 2.0 * bd + d2
    requires along >= 0.0 && lam > 0.0 && d2 > 0.0
    ensures fit' + Times(lam, n2) > fit + Times(lam, b2)
  {
    assert lam * n2 == lam * b2 + 2.0 * (lam * bd) + lam * d2;
    assert lam * d2 > 0.0;
  }

  lemma OrthogonalMinimises(X: seq<Vec>, Y: Vec, beta: Vec, d: Vec, c: nat, lam: real)
    requires Data(X, Y, |beta|) && |d| == |beta| && c < |d| && d[c] != 0.0
    requires Orthogonal(X, Y, beta, lam) && lam > 0.0
    ensures Fit(X, Y, Plus(beta, d), |X|) + Times(lam, Dot(Plus(beta, d), Plus(beta, d)))
            > Fit(X, Y, beta, |X|) + Times(lam, Dot(beta, beta))
  {
    SquarePositive(d, 0, c);
    ResidualsOrthogonal(X, Y, beta, d, lam);
    FitMoved(X, Y, beta, d, |X|);
    NormMoved(beta, d);
    StepCosts(Fit(X, Y, Plus(beta, d), |X|), Dot(Plus(beta, d), Plus(beta, d)), Fit(X, Y, beta, |X|),
              SquaresAlong(X, d, |X|), lam, Dot(beta, beta), Dot(beta, d), Dot(d, d));
  }

  lemma PenaltyPositive(X: seq<Vec>, n: nat)
    requires forall r :: 0 <= r < |X| ==> |X[r]| == n
    ensures Lambda(X, n) > 0.0
  {
    TraceNonNegative(X, n, n);
  }

  /** A solution of the normal equations is the only minimiser of the penalised sum of squares. */
  lemma NormalEquationsMinimise(X: seq<Vec>, Y: Vec, beta: Vec, z: Vec)
    requires Data(X, Y, |beta|) && |z| == |beta| && z != beta
    requires Solves(Normal(X, |beta|), Rhs(X, Y, |beta|), beta)
    ensures Loss(X, Y, z) > Loss(X, Y, beta)
  {
    var d := AddScaled(z, -1.0, beta);
    assert Plus(beta, d) == z;
    var c :| 0 <= c < |beta| && z[c] != beta[c];
    ColumnsOrthogonal(X, Y, beta);
    PenaltyPositive(X, |beta|);
    OrthogonalMinimises(X, Y, beta, d, c, Lambda(X, |beta|));
  }

  // ---------------------------------------------------------------- the solver always answers

  function Images(X: seq<Vec>, v: Vec): (s: Vec)
    requires forall r :: 0 <= r < |X| ==> |X[r]| == |v|
    ensures |s| == |X| && forall r :: 0 <= r < |X| ==> s[r] == Dot(X[r], v)
  {
    seq(|X|, r requires 0 <= r < |X| => Dot(X[r], v))
  }

  lemma {:induction false} AlongColumn(X: seq<Vec>, v: Vec, i: nat, k: nat)
    requires (forall r :: 0 <= r < |X| ==> |X[r]| == |v|) && i < |v| && k <= |X|
    ensures Along(X, Column(X, |v|, i), v, k) == Moment(X, |v|, Images(X, v), i, k)
  {
    if k > 0 {
      AlongColumn(X, v, i, k - 1);
    }
  }

  lemma SelfProduct(x: real, y: real)
    requires x == y
    ensures Times(x, y) == Squared(y)
  {
  }

  lemma {:induction false} AlongImages(X: seq<Vec>, v: Vec, k: nat)
    requires (forall r :: 0 <= r < |X| ==> |X[r]| == |v|) && k <= |X|
    ensures Along(X, Images(X, v), v, k) == SquaresAlong(X, v, k)
  {
    if k > 0 {
      AlongImages(X, v, k - 1);
      SelfProduct(Images(X, v)[k - 1], Dot(X[k - 1], v));
    }
  }

  /** The vector `A v`. */
  function Applied(X: seq<Vec>, v: Vec): (g: Vec)
    requires forall r :: 0 <= r < |X| ==> |X[r]| == |v|
    ensures |g| == |v| && forall i :: 0 <= i < |v| ==> g[i] == Dot(Normal(X, |v|)[i], v)
  {
    seq(|v|, i requires 0 <= i < |v| => Dot(Normal(X, |v|)[i], v))
  }

  lemma AppliedAt(X: seq<Vec>, v: Vec, i: nat)
    requires (forall r :: 0 <= r < |X| ==> |X[r]| == |v|) && i < |v|
    ensures Applied(X, v)[i] == AddScaled(Weighted(X, |v|, Images(X, v), |X|), Lambda(X, |v|), v)[i]
  {
    NormalRow(X, v, i);
    AlongColumn(X, v, i, |X|);
    WeightedAt(X, |v|, Images(X, v), i, |X|);
  }

  lemma AppliedShape(X: seq<Vec>, v: Vec)
    requires forall r :: 0 <= r < |X| ==> |X[r]| == |v|
    ensures Applied(X, v) == AddScaled(Weighted(X, |v|, Images(X, v), |X|), Lambda(X, |v|), v)
  {
    forall i | 0 <= i < |v|
      ensures Applied(X, v)[i] == AddScaled(Weighted(X, |v|, Images(X, v), |X|), Lambda(X, |v|), v)[i]
    {
      AppliedAt(X, v, i);
    }
  }

  /** The quadratic form of the matrix: squares plus penalty. */
  lemma QuadraticForm(X: seq<Vec>, v: Vec)
    requires forall r :: 0 <= r < |X| ==> |X[r]| == |v|
    ensures Dot(Applied(X, v), v) == SquaresAlong(X, v, |X|) + Times(Lambda(X, |v|), Dot(v, v))
  {
    AppliedShape(X, v);
    DotAddScaled(Weighted(X, |v|, Images(X, v), |X|), Lambda(X, |v|), v, v);
    WeightedDot(X, Images(X, v), v, |X|);
    AlongImages(X, v, |X|);
  }

  lemma ScaledOrder(e: real, m: real, b: real)
    requires e > 0.0 && m <= b
    ensures e * m <= e * b
  {
    assert e * (b - m) >= 0.0;
  }

  lemma SmallProduct(g: real, v: real, eps: real)
    requires -eps < g < eps
    ensures g * v <= eps / 2.0 * (1.0 + v * v)
  {
    var m := if v < 0.0 then -v else v;
    assert (m - 1.0) * (m - 1.0) == v * v - 2.0 * m + 1.0;
    assert m <= (1.0 + v * v) / 2.0;
    var h := if v < 0.0 then -g else g;
    assert g * v == h * m;
    assert (eps - h) * m >= 0.0;
    ScaledOrder(eps, m, (1.0 + v * v) / 2.0);
  }

  lemma {:induction false} SmallForm(g: Vec, v: Vec, lo: nat)
    requires |g| == |v| && lo <= |v| && forall i :: 0 <= i < |v| ==> Abs(g[i]) < EPS
    ensures DotFrom(g, v, lo) <= EPS / 2.0 * ((|v| - lo) as real + DotFrom(v, v, lo))
    decreases |v| - lo
  {
    if lo < |v| {
      SmallForm(g, v, lo + 1);
      assert Abs(g[lo]) < EPS;
      SmallProduct(g[lo], v[lo], EPS);
    }
  }

  lemma {:induction false} NormAtLeastOne(v: Vec, lo: nat, c: nat)
    requires lo <= c < |v| && v[c] == 1.0
    ensures DotFrom(v, v, lo) >= 1.0
    decreases c - lo
  {
    if lo < c {
      NormAtLeastOne(v, lo + 1, c);
    } else {
      SquareNonNegative(v, lo + 1);
    }
  }

  lemma PenaltyBound(lam: real, q: real, eps: real, n: real, form: real)
    requires Times(lam, q) <= form <= eps / 2.0 * (n + q) && q >= 1.0 && eps > 0.0 && n >= 0.0
    ensures lam <= eps / 2.0 * (n + 1.0)
  {
    var e := eps / 2.0;
    assert e * (n + q) == e * n + e * q;
    assert e * n >= 0.0;
    assert (e * n) * (q - 1.0) >= 0.0;
    assert (lam - e - e * n) * q == lam * q - e * q - (e * n) * q;
    var excess := lam - e - e * n;
    assert excess * q <= 0.0;
    assert excess > 0.0 ==> excess * q > 0.0;
  }

  /** Only a vanishing penalty lets the matrix nearly annihilate a vector. */
  lemma NearKernelNeedsTinyPenalty(X: seq<Vec>, v: Vec)
    requires forall r :: 0 <= r < |X| ==> |X[r]| == |v|
    requires NearKernel(Normal(X, |v|), v)
    ensures Lambda(X, |v|) <= EPS / 2.0 * (|v| as real + 1.0)
  {
    var c :| 0 <= c < |v| && v[c] == 1.0;
    NormAtLeastOne(v, 0, c);
    QuadraticForm(X, v);
    forall i | 0 <= i < |v| ensures Abs(Applied(X, v)[i]) < EPS {
      assert Abs(Dot(Normal(X, |v|)[i], v)) < EPS;
    }
    SmallForm(Applied(X, v), v, 0);
    PenaltyBound(Lambda(X, |v|), Dot(v, v), EPS, |v| as real, Dot(Applied(X, v), v));
  }

  lemma SameEntries(X: seq<Vec>, n: nat, m: Matrix)
    requires (forall r :: 0 <= r < |X| ==> |X[r]| == n) && Square(m, n)
    requires forall r, c :: 0 <= r < n && 0 <= c < n ==>
               m[r][c] == Gram(X, n, r, c, |X|) + if r == c then Lambda(X, n) else 0.0
    ensures m == Normal(X, n)
  {
    forall r | 0 <= r < n ensures m[r] == Normal(X, n)[r] {
    }
  }

  // ---------------------------------------------------------------- how little the penalty costs

  /** Sum of the squared entries of the first `k` rows. */
  function SquareSum(X: seq<Vec>, k: nat): real
    requires k <= |X|
  {
    if k == 0 then 0.0 else SquareSum(X, k - 1) + Dot(X[k - 1], X[k - 1])
  }

  /** The trace over `c` columns of the Gram matrix of the first `k` rows. */
  function TraceOf(X: seq<Vec>, n: nat, c: nat, k: nat): real
    requires (forall r :: 0 <= r < |X| ==> |X[r]| == n) && c <= n && k <= |X|
  {
    if c == 0 then 0.0 else TraceOf(X, n, c - 1, k) + Gram(X, n, c - 1, c - 1, k)
  }

  lemma {:induction false} TraceOfNone(X: seq<Vec>, n: nat, c: nat)
    requires (forall r :: 0 <= r < |X| ==> |X[r]| == n) && c <= n
    ensures TraceOf(X, n, c, 0) == 0.0
  {
    if c > 0 {
      TraceOfNone(X, n, c - 1);
    }
  }

  lemma {:induction false} TraceOfAll(X: seq<Vec>, n: nat, c: nat)
    requires (forall r :: 0 <= r < |X| ==> |X[r]| == n) && c <= n
    ensures TraceOf(X, n, c, |X|) == Trace(X, n, c)
  {
    if c > 0 {
      TraceOfAll(X, n, c - 1);
    }
  }

  /** One row adds its squared entries. */
  lemma {:induction false} TraceOneRow(X: seq<Vec>, n: nat, c: nat, k: nat)
    requires (forall r :: 0 <= r < |X| ==> |X[r]| == n) && c <= n && 0 < k <= |X|
    ensures TraceOf(X, n, c, k) + DotFrom(X[k - 1], X[k - 1], c) == TraceOf(X, n, c, k - 1) + Dot(X[k - 1], X[k - 1])
  {
    if c > 0 {
      TraceOneRow(X, n, c - 1, k);
    }
  }

  lemma {:induction false} TraceIsSquareSum(X: seq<Vec>, n: nat, k: nat)
    requires (forall r :: 0 <= r < |X| ==> |X[r]| == n) && k <= |X|
    ensures TraceOf(X, n, n, k) == SquareSum(X, k)
  {
    if k == 0 {
      TraceOfNone(X, n, n);
    } else {
      TraceIsSquareSum(X, n, k - 1);
      TraceOneRow(X, n, n, k);
    }
  }

  lemma {:induction false} SquareSumSign(X: seq<Vec>, k: nat)
    requires k <= |X|
    ensures SquareSum(X, k) >= 0.0
    ensures SquareSum(X, k) == 0.0 ==> forall r :: 0 <= r < k ==> Dot(X[r], X[r]) == 0.0
  {
    if k > 0 {
      SquareSumSign(X, k - 1);
      SquareNonNegative(X[k - 1], 0);
    }
  }

  lemma {:induction false} ZeroRow(x: Vec, z: Vec, lo: nat)
    requires |x| == |z| && lo <= |x| && forall i :: 0 <= i < |x| ==> x[i] == 0.0
    ensures DotFrom(x, z, lo) == 0.0
    decreases |x| - lo
  {
    if lo < |x| {
      ZeroRow(x, z, lo + 1);
    }
  }

  lemma NoLength(x: Vec, z: Vec)
    requires |x| == |z| && Dot(x, x) == 0.0
    ensures Dot(x, z) == 0.0
  {
    forall i | 0 <= i < |x| ensures x[i] == 0.0 {
      if x[i] != 0.0 {
        SquarePositive(x, 0, i);
      }
    }
    ZeroRow(x, z, 0);
  }

  /** On zero rows every vector fits alike. */
  lemma {:induction false} ZeroDataFits(X: seq<Vec>, Y: Vec, b: Vec, z: Vec, k: nat)
    requires Data(X, Y, |b|) && |z| == |b| && k <= |X| && forall r :: 0 <= r < k ==> Dot(X[r], X[r]) == 0.0
    ensures Fit(X, Y, b, k) == Fit(X, Y, z, k)
  {
    if k > 0 {
      ZeroDataFits(X, Y, b, z, k - 1);
      NoLength(X[k - 1], b);
      NoLength(X[k - 1], z);
    }
  }

  /** `b` fits almost as well as `z`: the penalty is a billionth of the squared entries per unit of `z`. */
  ghost predicate FitsNearly(X: seq<Vec>, Y: Vec, b: Vec, z: Vec)
    requires Data(X, Y, |b|) && |z| == |b|
  {
    Fit(X, Y, b, |X|) <= Fit(X, Y, z, |X|) + 0.000000001 * Times(SquareSum(X, |X|), Dot(z, z))
  }

  lemma PenaltyIsSmall(X: seq<Vec>, Y: Vec, b: Vec, z: Vec)
    requires Data(X, Y, |b|) && |z| == |b| && Loss(X, Y, b) <= Loss(X, Y, z)
    ensures FitsNearly(X, Y, b, z)
  {
    var n := |b|;
    TraceOfAll(X, n, n);
    TraceIsSquareSum(X, n, |X|);
    SquareSumSign(X, |X|);
    SquareNonNegative(b, 0);
    SquareNonNegative(z, 0);
    if SquareSum(X, |X|) == 0.0 {
      ZeroDataFits(X, Y, b, z, |X|);
    } else {
      PenaltySign(Lambda(X, n), Dot(b, b));
      PenaltyScales(SquareSum(X, |X|), Dot(z, z));
    }
  }

  lemma PenaltySign(lam: real, d: real)
    requires lam >= 0.0 && d >= 0.0
    ensures Times(lam, d) >= 0.0
  {
  }

  lemma PenaltyScales(s: real, d: real)
    ensures Times(0.000000001 * s, d) == 0.000000001 * Times(s, d)
  {
  }

  /** `calibrate` from the design rows to the unclamped parameters: the Gram matrix, the loop that
      adds the penalty to its diagonal, the solver. */
  method FitParameters(X: seq<Vec>, Y: Vec, n: nat) returns (beta: Option<Vec>)
    requires Data(X, Y, n)
    ensures beta.Some? ==> |beta.value| == n
    ensures beta.Some? ==> forall z: Vec {:trigger Loss(X, Y, z)} ::
              |z| == n && z != beta.value ==> Loss(X, Y, z) > Loss(X, Y, beta.value)
    ensures beta.Some? ==> forall z: Vec {:trigger FitsNearly(X, Y, beta.value, z)} ::
              |z| == n ==> FitsNearly(X, Y, beta.value, z)
    ensures beta.None? ==> Lambda(X, n) <= EPS / 2.0 * (n as real + 1.0)
  {
    var xtx := seq(n, i requires 0 <= i < n => seq(n, j requires 0 <= j < n => Gram(X, n, i, j, |X|)));
    var lam := Lambda(X, n);
    var i := 0;
    while i < n
      invariant 0 <= i <= n && Square(xtx, n)
      invariant forall r, c :: 0 <= r < n && 0 <= c < n ==>
                  xtx[r][c] == Gram(X, n, r, c, |X|) + if r == c && r < i then lam else 0.0
    {
      xtx := xtx[i := xtx[i][i := xtx[i][i] + lam]];
      i := i + 1;
    }
    SameEntries(X, n, xtx);
    beta := SolveLinear(xtx, Rhs(X, Y, n));
    if beta.Some? {
      forall z: Vec | |z| == n && z != beta.value ensures Loss(X, Y, z) > Loss(X, Y, beta.value) {
        NormalEquationsMinimise(X, Y, beta.value, z);
      }
      forall z: Vec | |z| == n ensures FitsNearly(X, Y, beta.value, z) {
        assert z != beta.value ==> Loss(X, Y, z) > Loss(X, Y, beta.value);
        PenaltyIsSmall(X, Y, beta.value, z);
      }
    } else {
      ghost var v: Vec :| |v| == n && NearKernel(xtx, v);
      NearKernelNeedsTinyPenalty(X, v);
    }
  }
}
