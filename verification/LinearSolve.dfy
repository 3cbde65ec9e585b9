/**
 `_solve_linear` of sim/rail_model.py over exact reals: Gaussian elimination with partial pivoting
 on an augmented matrix, for every size. A result is the unique solution; no result comes with a
 vector that the matrix all but annihilates.
 */
module LinearSolve {
  import opened Wrappers

  type Vec = seq<real>
  type Matrix = seq<Vec>

  /** Below this a pivot counts as zero. */
  const EPS: real := 0.00000000000001

  function Abs(x: real): real {
    if x < 0.0 then -x else x
  }

  /** Dot product of the components from `lo` on. */
  function DotFrom(a: Vec, w: Vec, lo: nat): real
    requires |a| == |w| && lo <= |a|
    decreases |a| - lo
  {
    if lo == |a| then 0.0 else a[lo] * w[lo] + DotFrom(a, w, lo + 1)
  }

  function Dot(a: Vec, w: Vec): real
    requires |a| == |w|
  {
    DotFrom(a, w, 0)
  }

  ghost predicate Square(A: Matrix, n: nat) {
    |A| == n && forall i :: 0 <= i < n ==> |A[i]| == n
  }

  ghost predicate Solves(A: Matrix, b: Vec, x: Vec)
    requires Square(A, |b|) && |x| == |b|
  {
    forall i :: 0 <= i < |b| ==> Dot(A[i], x) == b[i]
  }

  /** A vector with a component 1 that the matrix maps to almost nothing. */
  ghost predicate NearKernel(A: Matrix, v: Vec)
    requires Square(A, |v|)
  {
    && (exists i :: 0 <= i < |v| && v[i] == 1.0)
    && forall i :: 0 <= i < |v| ==> Abs(Dot(A[i], v)) < EPS
  }

  // ---------------------------------------------------------------- dot products

  lemma {:induction false} DotTail(a: Vec, u: Vec, w: Vec, lo: nat)
    requires |a| == |u| == |w| && lo <= |a| && forall c :: lo <= c < |a| ==> u[c] == w[c]
    ensures DotFrom(a, u, lo) == DotFrom(a, w, lo)
    decreases |a| - lo
  {
    if lo < |a| {
      DotTail(a, u, w, lo + 1);
    }
  }

  lemma {:induction false} DotSkipsZeros(a: Vec, w: Vec, lo: nat, hi: nat)
    requires |a| == |w| && lo <= hi <= |a| && forall c :: lo <= c < hi ==> a[c] == 0.0
    ensures DotFrom(a, w, lo) == DotFrom(a, w, hi)
    decreases hi - lo
  {
    if lo < hi {
      DotSkipsZeros(a, w, lo + 1, hi);
    }
  }

  /** Component by component, `a - f * b`. */
  ghost predicate RowMinus(r: Vec, a: Vec, f: real, b: Vec) {
    |r| == |a| == |b| && forall c :: 0 <= c < |a| ==> r[c] == a[c] - f * b[c]
  }

  lemma Distribute(a: real, b: real, f: real, w: real, x: real, y: real)
    ensures (a - f * b) * w + (x - f * y) == a * w + x - f * (b * w + y)
  {
  }

  lemma {:induction false} DotMinus(r: Vec, a: Vec, f: real, b: Vec, w: Vec, lo: nat)
    requires RowMinus(r, a, f, b) && |w| == |a| && lo <= |a|
    ensures DotFrom(r, w, lo) == DotFrom(a, w, lo) - f * DotFrom(b, w, lo)
    decreases |a| - lo
  {
    if lo < |a| {
      DotMinus(r, a, f, b, w, lo + 1);
      Distribute(a[lo], b[lo], f, w[lo], DotFrom(a, w, lo + 1), DotFrom(b, w, lo + 1));
    }
  }

  lemma {:induction false} DotSnoc(a: Vec, x: real, w: Vec, y: real, lo: nat)
    requires |a| == |w| && lo <= |a|
    ensures DotFrom(a + [x], w + [y], lo) == DotFrom(a, w, lo) + x * y
    decreases |a| - lo
  {
    if lo < |a| {
      DotSnoc(a, x, w, y, lo + 1);
    } else {
      assert DotFrom(a + [x], w + [y], lo + 1) == 0.0;
    }
  }

  // ---------------------------------------------------------------- augmented matrices

  ghost predicate Shape(m: Matrix, n: nat) {
    |m| == n && forall i :: 0 <= i < n ==> |m[i]| == n + 1
  }

  /** The first `k` equations hold for `w`. */
  ghost predicate ZeroRows(m: Matrix, n: nat, w: Vec, k: nat)
    requires Shape(m, n) && |w| == n + 1 && k <= n
  {
    forall i :: 0 <= i < k ==> Dot(m[i], w) == 0.0
  }

  ghost predicate SmallRows(m: Matrix, n: nat, w: Vec)
    requires Shape(m, n) && |w| == n + 1
  {
    forall i :: 0 <= i < n ==> Abs(Dot(m[i], w)) < EPS
  }

  /** `m` has the solutions of `m0`, and near-solutions that meet its first `k` equations exactly are
      near-solutions of `m0`. */
  ghost predicate Linked(m0: Matrix, m: Matrix, n: nat, k: nat)
    requires Shape(m0, n) && Shape(m, n) && k <= n
  {
    forall w: Vec {:trigger LinkedAt(m0, m, n, k, w)} | |w| == n + 1 :: LinkedAt(m0, m, n, k, w)
  }

  ghost predicate LinkedAt(m0: Matrix, m: Matrix, n: nat, k: nat, w: Vec)
    requires Shape(m0, n) && Shape(m, n) && k <= n && |w| == n + 1
  {
    && (ZeroRows(m0, n, w, n) <==> ZeroRows(m, n, w, n))
    && (ZeroRows(m, n, w, k) && SmallRows(m, n, w) ==> SmallRows(m0, n, w))
  }

  /** The first `k` columns are in echelon form with non-zero pivots. */
  ghost predicate Echelon(m: Matrix, n: nat, k: nat)
    requires Shape(m, n) && k <= n
  {
    && (forall c :: 0 <= c < k ==> m[c][c] != 0.0)
    && (forall r, c :: 0 <= c < k && c < r < n ==> m[r][c] == 0.0)
  }

  function Swap(m: Matrix, i: nat, j: nat): Matrix
    requires i < |m| && j < |m|
  {
    m[i := m[j]][j := m[i]]
  }

  lemma SwapLinked(m0: Matrix, m: Matrix, n: nat, k: nat, i: nat, j: nat)
    requires Shape(m0, n) && Shape(m, n) && k <= i < n && k <= j < n && Linked(m0, m, n, k)
    ensures Shape(Swap(m, i, j), n) && Linked(m0, Swap(m, i, j), n, k)
  {
    var s := Swap(m, i, j);
    forall w: Vec | |w| == n + 1 ensures LinkedAt(m0, s, n, k, w) {
      assert LinkedAt(m0, m, n, k, w);
      SameRows(m, s, n, w, k, i, j);
    }
  }

  lemma SameRows(m: Matrix, s: Matrix, n: nat, w: Vec, k: nat, i: nat, j: nat)
    requires Shape(m, n) && Shape(s, n) && |w| == n + 1 && k <= i < n && k <= j < n
    requires s[i] == m[j] && s[j] == m[i] && forall r :: 0 <= r < n && r != i && r != j ==> s[r] == m[r]
    ensures ZeroRows(m, n, w, n) <==> ZeroRows(s, n, w, n)
    ensures ZeroRows(m, n, w, k) <==> ZeroRows(s, n, w, k)
    ensures SmallRows(m, n, w) <==> SmallRows(s, n, w)
  {
    forall r | 0 <= r < n
      ensures exists q :: 0 <= q < n && s[q] == m[r] && (r < k ==> q == r)
      ensures exists q :: 0 <= q < n && m[q] == s[r] && (r < k ==> q == r)
    {
      var q := if r == i then j else if r == j then i else r;
      assert s[q] == m[r] && m[q] == s[r];
    }
  }

  lemma EliminateAt(m0: Matrix, m: Matrix, n: nat, p: nat, r: nat, f: real, row: Vec, w: Vec)
    requires Shape(m0, n) && Shape(m, n) && p < r < n && |w| == n + 1 && LinkedAt(m0, m, n, p + 1, w)
    requires RowMinus(row, m[r], f, m[p])
    ensures Shape(m[r := row], n) && LinkedAt(m0, m[r := row], n, p + 1, w)
  {
    DotMinus(row, m[r], f, m[p], w, 0);
    OtherRows(m, m[r := row], n, w, p, r, f);
  }

  /** Subtracting a multiple of row `p` from row `r`. */
  lemma EliminateLinked(m0: Matrix, m: Matrix, n: nat, p: nat, r: nat, f: real, row: Vec)
    requires Shape(m0, n) && Shape(m, n) && p < r < n && Linked(m0, m, n, p + 1)
    requires RowMinus(row, m[r], f, m[p])
    ensures Shape(m[r := row], n) && Linked(m0, m[r := row], n, p + 1)
  {
    forall w: Vec | |w| == n + 1 ensures LinkedAt(m0, m[r := row], n, p + 1, w) {
      assert LinkedAt(m0, m, n, p + 1, w);
      EliminateAt(m0, m, n, p, r, f, row, w);
    }
  }

  lemma OtherRows(m: Matrix, e: Matrix, n: nat, w: Vec, p: nat, r: nat, f: real)
    requires Shape(m, n) && Shape(e, n) && |w| == n + 1 && p < r < n
    requires forall i :: 0 <= i < n && i != r ==> e[i] == m[i]
    requires Dot(e[r], w) == Dot(m[r], w) - f * Dot(m[p], w)
    ensures ZeroRows(m, n, w, n) <==> ZeroRows(e, n, w, n)
    ensures ZeroRows(m, n, w, p + 1) <==> ZeroRows(e, n, w, p + 1)
    ensures ZeroRows(m, n, w, p + 1) ==> (SmallRows(m, n, w) <==> SmallRows(e, n, w))
  {
    assert e[p] == m[p];
    if Dot(m[p], w) == 0.0 {
      assert f * Dot(m[p], w) == 0.0;
      assert forall i :: 0 <= i < n ==> Dot(e[i], w) == Dot(m[i], w);
    }
  }

  lemma LinkedWeaken(m0: Matrix, m: Matrix, n: nat, k: nat)
    requires Shape(m0, n) && Shape(m, n) && k < n && Linked(m0, m, n, k)
    ensures Linked(m0, m, n, k + 1)
  {
    forall w: Vec | |w| == n + 1 ensures LinkedAt(m0, m, n, k + 1, w) {
      assert LinkedAt(m0, m, n, k, w);
      assert ZeroRows(m, n, w, k + 1) ==> ZeroRows(m, n, w, k);
    }
  }

  // ---------------------------------------------------------------- the triangular system

  /** With the components from `r + 1` on fixed, this component makes equation `r` hold. */
  function Solved(row: Vec, w: Vec, r: nat): real
    requires |row| == |w| && r < |row| && row[r] != 0.0
  {
    -DotFrom(row, w, r + 1) / row[r]
  }

  lemma SolvedHolds(m: Matrix, n: nat, k: nat, w: Vec, r: nat)
    requires Shape(m, n) && |w| == n + 1 && r < k <= n && Echelon(m, n, k)
    ensures Dot(m[r], w[r := Solved(m[r], w, r)]) == 0.0
  {
    var v := w[r := Solved(m[r], w, r)];
    DotSkipsZeros(m[r], v, 0, r);
    DotTail(m[r], v, w, r + 1);
    var d := DotFrom(m[r], w, r + 1);
    assert m[r][r] * (-d / m[r][r]) == -d;
  }

  /** Changing component `r` does not disturb the equations below. */
  lemma LaterRowsKept(m: Matrix, n: nat, k: nat, w: Vec, r: nat, x: real, i: nat)
    requires Shape(m, n) && |w| == n + 1 && r < i < k <= n && Echelon(m, n, k)
    ensures Dot(m[i], w[r := x]) == Dot(m[i], w)
  {
    DotSkipsZeros(m[i], w, 0, i);
    DotSkipsZeros(m[i], w[r := x], 0, i);
    DotTail(m[i], w[r := x], w, i);
  }

  /** A vector with given components from `k` on that meets the first `k` equations. */
  lemma {:induction false} Complete(m: Matrix, n: nat, k: nat, w: Vec, r: nat) returns (v: Vec)
    requires Shape(m, n) && |w| == n + 1 && r <= k <= n && Echelon(m, n, k)
    requires forall i :: r <= i < k ==> Dot(m[i], w) == 0.0
    ensures |v| == n + 1 && (forall c :: k <= c <= n ==> v[c] == w[c])
    ensures ZeroRows(m, n, v, k)
    decreases r
  {
    if r == 0 {
      v := w;
    } else {
      var x := Solved(m[r - 1], w, r - 1);
      SolvedHolds(m, n, k, w, r - 1);
      forall i | r <= i < k ensures Dot(m[i], w[r - 1 := x]) == 0.0 {
        LaterRowsKept(m, n, k, w, r - 1, x, i);
      }
      v := Complete(m, n, k, w[r - 1 := x], r - 1);
    }
  }

  /** A triangular system has one solution. */
  lemma {:induction false} TriangularUnique(m: Matrix, n: nat, u: Vec, w: Vec, r: nat)
    requires Shape(m, n) && Echelon(m, n, n) && |u| == |w| == n + 1 && r <= n
    requires ZeroRows(m, n, u, n) && ZeroRows(m, n, w, n)
    requires forall c :: r <= c <= n ==> u[c] == w[c]
    ensures u == w
    decreases r
  {
    if r > 0 {
      var q := r - 1;
      DotSkipsZeros(m[q], u, 0, q);
      DotSkipsZeros(m[q], w, 0, q);
      DotTail(m[q], u, w, r);
      assert Dot(m[q], u) == 0.0 && Dot(m[q], w) == 0.0;
      assert DotFrom(m[q], u, q) == m[q][q] * u[q] + DotFrom(m[q], u, r);
      assert DotFrom(m[q], w, q) == m[q][q] * w[q] + DotFrom(m[q], w, r);
      Cancel(m[q][q], u[q], w[q]);
      TriangularUnique(m, n, u, w, q);
    }
  }

  lemma Cancel(a: real, x: real, y: real)
    requires a != 0.0 && a * x == a * y
    ensures x == y
  {
    assert x == (a * x) / a;
    assert y == (a * y) / a;
  }

  // ---------------------------------------------------------------- the method

  /** The matrix with the right-hand side as its last column. */
  function Augment(A: Matrix, b: Vec): (m: Matrix)
    requires |A| == |b| && forall i :: 0 <= i < |A| ==> |A[i]| == |b|
    ensures Shape(m, |b|)
  {
    seq(|b|, i requires 0 <= i < |b| => A[i] + [b[i]])
  }

  lemma AugmentDot(A: Matrix, b: Vec, x: Vec, y: real, i: nat)
    requires Square(A, |b|) && |x| == |b| && i < |b|
    ensures Dot(Augment(A, b)[i], x + [y]) == Dot(A[i], x) + b[i] * y
  {
    DotSnoc(A[i], b[i], x, y, 0);
  }

  /** `max(range(col, n), key=...)`: the first row at or below `col` with the largest entry. */
  method PickPivot(m: Matrix, n: nat, col: nat) returns (piv: nat)
    requires Shape(m, n) && col < n
    ensures col <= piv < n
    ensures forall r :: col <= r < n ==> Abs(m[r][col]) <= Abs(m[piv][col])
    ensures forall r :: col <= r < piv ==> Abs(m[r][col]) < Abs(m[piv][col])
  {
    piv := col;
    for r := col + 1 to n
      invariant col <= piv < n
      invariant forall q :: col <= q < r ==> Abs(m[q][col]) <= Abs(m[piv][col])
      invariant forall q :: col <= q < piv ==> Abs(m[q][col]) < Abs(m[piv][col])
    {
      if Abs(m[r][col]) > Abs(m[piv][col]) {
        piv := r;
      }
    }
  }

  /** The innermost loop: subtract `fac` times the pivot row, from column `col` on. */
  method ReduceRow(row: Vec, pivot: Vec, col: nat, fac: real) returns (r: Vec)
    requires |row| == |pivot| && col <= |row| && forall c :: 0 <= c < col ==> pivot[c] == 0.0
    ensures RowMinus(r, row, fac, pivot)
  {
    r := row;
    for c := col to |row|
      invariant |r| == |row|
      invariant forall k :: 0 <= k < |row| ==> r[k] == if col <= k < c then row[k] - fac * pivot[k] else row[k]
    {
      r := r[c := r[c] - fac * pivot[c]];
    }
    forall k | 0 <= k < |row| ensures r[k] == row[k] - fac * pivot[k] {
      if k < col {
        assert fac * pivot[k] == 0.0;
      }
    }
  }

  /** Rows `col + 1` to `r - 1` are cleared. */
  ghost predicate Clearing(m0: Matrix, e: Matrix, n: nat, col: nat, r: nat) {
    && Shape(m0, n) && Shape(e, n) && col < r <= n
    && Linked(m0, e, n, col + 1) && Echelon(e, n, col) && e[col][col] != 0.0
    && forall q :: col < q < r ==> e[q][col] == 0.0
  }

  method Factor(a: real, p: real) returns (fac: real)
    requires p != 0.0
    ensures fac * p == a && (fac == 0.0 ==> a == 0.0)
  {
    fac := a / p;
  }

  lemma ClearSkip(m0: Matrix, e: Matrix, n: nat, col: nat, r: nat)
    requires Clearing(m0, e, n, col, r) && r < n
    ensures e[r][col] == 0.0 ==> Clearing(m0, e, n, col, r + 1)
    ensures |e[r]| == |e[col]| == n + 1 && forall c :: 0 <= c < col ==> e[col][c] == 0.0
  {
  }

  /** The row that elimination leaves: zero up to and including the pivot column. */
  lemma ReducedRow(e: Matrix, n: nat, col: nat, r: nat, fac: real, row: Vec)
    requires Shape(e, n) && col < r < n && Echelon(e, n, col)
    requires fac * e[col][col] == e[r][col] && RowMinus(row, e[r], fac, e[col])
    ensures forall c :: 0 <= c <= col ==> row[c] == 0.0
  {
    forall c | 0 <= c <= col ensures row[c] == 0.0 {
      if c < col {
        assert e[r][c] == 0.0 && e[col][c] == 0.0;
        assert fac * 0.0 == 0.0;
      }
    }
  }

  lemma ClearMore(m0: Matrix, e: Matrix, n: nat, col: nat, r: nat, fac: real, row: Vec)
    requires Clearing(m0, e, n, col, r) && r < n
    requires fac * e[col][col] == e[r][col] && RowMinus(row, e[r], fac, e[col])
    ensures Clearing(m0, e[r := row], n, col, r + 1)
  {
    EliminateLinked(m0, e, n, col, r, fac, row);
    ReducedRow(e, n, col, r, fac, row);
  }

  /** One row of a column: subtract the multiple of the pivot row that clears its entry. */
  method ClearRow(ghost m0: Matrix, e: Matrix, n: nat, col: nat, r: nat) returns (e': Matrix)
    requires Clearing(m0, e, n, col, r) && r < n
    ensures Clearing(m0, e', n, col, r + 1)
  {
    ClearSkip(m0, e, n, col, r);
    var fac := Factor(e[r][col], e[col][col]);
    if fac == 0.0 {
      return e;
    }
    var row := ReduceRow(e[r], e[col], col, fac);
    ClearMore(m0, e, n, col, r, fac, row);
    e' := e[r := row];
  }

  /** One column: clear the entries below the pivot. */
  method ClearColumn(ghost m0: Matrix, m: Matrix, n: nat, col: nat) returns (e: Matrix)
    requires Shape(m0, n) && Shape(m, n) && col < n && Echelon(m, n, col) && Linked(m0, m, n, col)
    requires m[col][col] != 0.0
    ensures Shape(e, n) && Echelon(e, n, col + 1) && Linked(m0, e, n, col + 1)
  {
    e := m;
    LinkedWeaken(m0, m, n, col);
    for r := col + 1 to n
      invariant Clearing(m0, e, n, col, r)
    {
      e := ClearRow(m0, e, n, col, r);
    }
    EchelonMore(e, n, col);
  }

  lemma EchelonMore(e: Matrix, n: nat, col: nat)
    requires Shape(e, n) && col < n && Echelon(e, n, col) && e[col][col] != 0.0
    requires forall q :: col < q < n ==> e[q][col] == 0.0
    ensures Echelon(e, n, col + 1)
  {
  }

  /** `_solve_linear`. The inputs are values, so nothing of the caller's changes. */
  method SolveLinear(A: Matrix, b: Vec) returns (x: Option<Vec>)
    requires Square(A, |b|)
    ensures x.Some? ==> |x.value| == |b| && Solves(A, b, x.value)
    ensures x.Some? ==> forall y: Vec :: |y| == |b| && Solves(A, b, y) ==> y == x.value
    ensures x.None? ==> exists v: Vec :: |v| == |b| && NearKernel(A, v)
  {
    var n := |b|;
    var m := Augment(A, b);
    ghost var m0 := m;
    for col := 0 to n
      invariant Shape(m, n) && Echelon(m, n, col) && Linked(m0, m, n, col)
    {
      var piv := PickPivot(m, n, col);
      if Abs(m[piv][col]) < EPS {
        ghost var v := SmallPivotWitness(A, b, m, col);
        return None;
      }
      SwapLinked(m0, m, n, col, col, piv);
      SwapEchelon(m, n, col, piv);
      m := Swap(m, col, piv);
      m := ClearColumn(m0, m, n, col);
    }
    var xs := BackSubstitute(m, n);
    SolutionCarriesOver(A, b, m, xs);
    return Some(xs);
  }

  lemma SwapEchelon(m: Matrix, n: nat, col: nat, piv: nat)
    requires Shape(m, n) && col <= piv < n && Echelon(m, n, col)
    ensures Shape(Swap(m, col, piv), n) && Echelon(Swap(m, col, piv), n, col)
  {
  }

  /** The last loops: `x` from the bottom row up. */
  method BackSubstitute(m: Matrix, n: nat) returns (x: Vec)
    requires Shape(m, n) && Echelon(m, n, n)
    ensures |x| == n && ZeroRows(m, n, x + [-1.0], n)
  {
    x := seq(n, _ => 0.0);
    var r := n;
    while r > 0
      invariant 0 <= r <= n && |x| == n
      invariant forall i :: r <= i < n ==> Dot(m[i], x + [-1.0]) == 0.0
    {
      r := r - 1;
      var s := m[r][n];
      for c := r + 1 to n
        invariant s == m[r][n] - (DotFrom(m[r], x + [-1.0], r + 1) - DotFrom(m[r], x + [-1.0], c))
      {
        s := s - m[r][c] * x[c];
      }
      LastTerm(m[r], x, n);
      assert s == -DotFrom(m[r], x + [-1.0], r + 1);
      SolvedHolds(m, n, n, x + [-1.0], r);
      forall i | r < i < n ensures Dot(m[i], (x + [-1.0])[r := s / m[r][r]]) == 0.0 {
        LaterRowsKept(m, n, n, x + [-1.0], r, s / m[r][r], i);
      }
      assert (x + [-1.0])[r := s / m[r][r]] == x[r := s / m[r][r]] + [-1.0];
      x := x[r := s / m[r][r]];
    }
  }

  lemma LastTerm(row: Vec, x: Vec, n: nat)
    requires |row| == n + 1 && |x| == n
    ensures DotFrom(row, x + [-1.0], n) == -row[n]
  {
    assert DotFrom(row, x + [-1.0], n + 1) == 0.0;
  }

  lemma SolutionCarriesOver(A: Matrix, b: Vec, m: Matrix, x: Vec)
    requires Square(A, |b|) && Shape(m, |b|) && Echelon(m, |b|, |b|) && Linked(Augment(A, b), m, |b|, |b|)
    requires |x| == |b| && ZeroRows(m, |b|, x + [-1.0], |b|)
    ensures Solves(A, b, x)
    ensures forall y: Vec :: |y| == |b| && Solves(A, b, y) ==> y == x
  {
    var n, m0 := |b|, Augment(A, b);
    assert LinkedAt(m0, m, n, n, x + [-1.0]);
    forall i | 0 <= i < n ensures Dot(A[i], x) == b[i] {
      AugmentDot(A, b, x, -1.0, i);
      assert Dot(m0[i], x + [-1.0]) == 0.0;
    }
    forall y: Vec | |y| == n && Solves(A, b, y) ensures y == x {
      forall i | 0 <= i < n ensures Dot(m0[i], y + [-1.0]) == 0.0 {
        AugmentDot(A, b, y, -1.0, i);
      }
      assert LinkedAt(m0, m, n, n, y + [-1.0]);
      TriangularUnique(m, n, y + [-1.0], x + [-1.0], n);
      assert (y + [-1.0])[..n] == y && (x + [-1.0])[..n] == x;
    }
  }

  /** When every candidate pivot of a column is tiny, the matrix all but annihilates some vector. */
  lemma SmallPivotWitness(A: Matrix, b: Vec, m: Matrix, col: nat) returns (v: Vec)
    requires Square(A, |b|) && Shape(m, |b|) && col < |b| && Echelon(m, |b|, col)
    requires Linked(Augment(A, b), m, |b|, col)
    requires forall r :: col <= r < |b| ==> Abs(m[r][col]) < EPS
    ensures |v| == |b| && NearKernel(A, v)
  {
    var n, m0 := |b|, Augment(A, b);
    var unit: Vec := seq(n + 1, c => if c == col then 1.0 else 0.0);
    var w := Complete(m, n, col, unit, col);
    forall r | 0 <= r < n ensures Abs(Dot(m[r], w)) < EPS {
      if r >= col {
        DotSkipsZeros(m[r], w, 0, col);
        ZeroTail(m[r], w, col + 1);
      }
    }
    assert SmallRows(m, n, w) && ZeroRows(m, n, w, col);
    assert LinkedAt(m0, m, n, col, w);
    v := w[..n];
    assert w == v + [0.0];
    forall i | 0 <= i < n ensures Abs(Dot(A[i], v)) < EPS {
      AugmentDot(A, b, v, 0.0, i);
      assert Abs(Dot(m0[i], w)) < EPS;
    }
    assert v[col] == 1.0;
  }

  lemma {:induction false} ZeroTail(a: Vec, w: Vec, lo: nat)
    requires |a| == |w| && lo <= |a| && forall c :: lo <= c < |a| ==> w[c] == 0.0
    ensures DotFrom(a, w, lo) == 0.0
    decreases |a| - lo
  {
    if lo < |a| {
      ZeroTail(a, w, lo + 1);
    }
  }

  // ---------------------------------------------------------------- singular systems

  function Plus(u: Vec, v: Vec): (r: Vec)
    requires |u| == |v|
    ensures |r| == |u| && forall c :: 0 <= c < |u| ==> r[c] == u[c] + v[c]
  {
    seq(|u|, c requires 0 <= c < |u| => u[c] + v[c])
  }

  lemma {:induction false} DotPlus(a: Vec, u: Vec, v: Vec, lo: nat)
    requires |a| == |u| == |v| && lo <= |a|
    ensures DotFrom(a, Plus(u, v), lo) == DotFrom(a, u, lo) + DotFrom(a, v, lo)
    decreases |a| - lo
  {
    if lo < |a| {
      DotPlus(a, u, v, lo + 1);
      assert a[lo] * (u[lo] + v[lo]) == a[lo] * u[lo] + a[lo] * v[lo];
    }
  }

  /** A singular matrix never yields a result: a unique solution rules out every non-zero kernel vector. */
  lemma UniqueMeansRegular(A: Matrix, b: Vec, x: Vec, v: Vec)
    requires Square(A, |b|) && |x| == |v| == |b|
    requires Solves(A, b, x) && forall y: Vec :: |y| == |b| && Solves(A, b, y) ==> y == x
    requires forall i :: 0 <= i < |b| ==> Dot(A[i], v) == 0.0
    ensures forall c :: 0 <= c < |v| ==> v[c] == 0.0
  {
    var y := Plus(x, v);
    forall i | 0 <= i < |b| ensures Dot(A[i], y) == b[i] {
      DotPlus(A[i], x, v, 0);
    }
    assert Solves(A, b, y);
    forall c | 0 <= c < |v| ensures v[c] == 0.0 {
      assert y[c] == x[c] + v[c];
    }
  }
}
