/**
 `calibrate` of sim/rail_model.py: the design rows agree with `package_power`, so the fit minimises
 the squared error of the package model itself; the "singular" exit is never taken; and the
 parameters it installs are always non-negative.
 */
module Calibrate {
  import opened Wrappers
  import opened LinearSolve
  import opened Ridge
  import opened RailModel
  import opened PackagePower

  /** One usable row of the measurement file. */
  datatype Sample = Sample(pkgW: real, tempFactor: real, phys: Cores)

  datatype Refusal = TooFewRows | SingularDesign

  // ---------------------------------------------------------------- the design row

  function RailVolts(l: Laws, s: Cores): real {
    var top := Top(s, |s|);
    l.volts(if top.Some? then top.value else F_MIN_HZ)
  }

  function X1(s: Cores, v: real, k: nat): real
    requires k <= |s|
  {
    if k == 0 then 0.0
    else X1(s, v, k - 1) + if Active(s[k - 1]) then s[k - 1].a * (v * v) * (s[k - 1].f / GIGA) else 0.0
  }

  function X2(l: Laws, s: Cores, v: real, tempFactor: real, k: nat): real
    requires k <= |s|
  {
    if k == 0 then 0.0
    else X2(l, s, v, tempFactor, k - 1)
         + v * l.exp(v / VT_EFF_V) * tempFactor * (if Active(s[k - 1]) then 1.0 else C6_LEAK_RESIDUAL)
  }

  /** Ring and traffic at their nominal constants, taken off the target before fitting. */
  function FixedUncore(l: Laws, s: Cores): real {
    var top := Top(s, |s|);
    if top.Some? then Ring(l, top.value) + K_TRAFFIC * GigaCycles(s, |s|) else 0.0
  }

  function Row(l: Laws, s: Sample): (r: Vec)
    ensures |r| == 3 && r[2] == 1.0
  {
    var v := RailVolts(l, s.phys);
    [X1(s.phys, v, |s.phys|), X2(l, s.phys, v, s.tempFactor, |s.phys|), 1.0]
  }

  function Rows(l: Laws, ss: seq<Sample>): (X: seq<Vec>)
    ensures |X| == |ss| && forall r :: 0 <= r < |X| ==> |X[r]| == 3 && X[r] == Row(l, ss[r])
  {
    seq(|ss|, r requires 0 <= r < |ss| => Row(l, ss[r]))
  }

  function Targets(l: Laws, ss: seq<Sample>): (Y: Vec)
    ensures |Y| == |ss| && forall r :: 0 <= r < |Y| ==> Y[r] == ss[r].pkgW - FixedUncore(l, ss[r].phys)
  {
    seq(|ss|, r requires 0 <= r < |ss| => ss[r].pkgW - FixedUncore(l, ss[r].phys))
  }

  /** The physics that the parameter vector `b` stands for at the temperature of a sample. */
  function Fitted(l: Laws, b: Vec, tempFactor: real): Physics
    requires |b| == 3
  {
    Physics(b[0], b[1], b[2], tempFactor, l)
  }

  lemma Regroup(c: real, a: real, b: real, d: real)
    ensures a * c * b * d == c * (a * b * d)
  {
    var ab := a * b;
    assert a * c * b == c * ab;
    assert c * ab * d == c * (ab * d);
  }

  lemma {:induction false} DynamicIsLinear(ph: Physics, s: Cores, v: real, k: nat)
    requires k <= |s|
    ensures DynamicSum(ph, s, v, true, k) == Times(ph.cEff, X1(s, v, k))
  {
    if k > 0 {
      DynamicIsLinear(ph, s, v, k - 1);
      var c := s[k - 1];
      Regroup(ph.cEff, c.a, v * v, c.f / GIGA);
      var x, y := X1(s, v, k - 1), if Active(c) then c.a * (v * v) * (c.f / GIGA) else 0.0;
      assert ph.cEff * (x + y) == ph.cEff * x + ph.cEff * y;
    }
  }

  lemma LeakTerm(k: real, g: real, tf: real, share: real)
    ensures k * g * tf * share == k * (g * tf * share)
  {
    var gt := g * tf;
    assert k * g * tf == k * gt;
    assert k * gt * share == k * (gt * share);
  }

  lemma {:induction false} LeakIsLinear(ph: Physics, s: Cores, v: real, k: nat)
    requires k <= |s|
    ensures LeakSum(ph, s, v, true, k) == Times(ph.kLeak, X2(ph.laws, s, v, ph.tempFactor, k))
  {
    if k > 0 {
      LeakIsLinear(ph, s, v, k - 1);
      var g := v * ph.laws.exp(v / VT_EFF_V);
      var share := if Active(s[k - 1]) then 1.0 else C6_LEAK_RESIDUAL;
      LeakTerm(ph.kLeak, g, ph.tempFactor, share);
      var x, y := X2(ph.laws, s, v, ph.tempFactor, k - 1), g * ph.tempFactor * share;
      assert ph.kLeak * (x + y) == ph.kLeak * x + ph.kLeak * y;
    }
  }

  lemma {:induction false} GatedIsLinear(ph: Physics, s: Cores, v: real, k: nat)
    requires k <= |s| && forall i :: 0 <= i < k ==> !Active(s[i])
    ensures GatedSum(ph, v, k) == Times(ph.kLeak, X2(ph.laws, s, v, ph.tempFactor, k)) && X1(s, v, k) == 0.0
  {
    if k > 0 {
      GatedIsLinear(ph, s, v, k - 1);
      var g := v * ph.laws.exp(v / VT_EFF_V);
      LeakTerm(ph.kLeak, g, ph.tempFactor, C6_LEAK_RESIDUAL);
      var x, y := X2(ph.laws, s, v, ph.tempFactor, k - 1), g * ph.tempFactor * C6_LEAK_RESIDUAL;
      assert ph.kLeak * (x + y) == ph.kLeak * x + ph.kLeak * y;
    }
  }

  lemma ThreeTerms(r: Vec, b: Vec)
    requires |r| == |b| == 3 && r[2] == 1.0
    ensures Dot(r, b) == Times(b[0], r[0]) + Times(b[1], r[1]) + b[2]
  {
    assert DotFrom(r, b, 3) == 0.0;
    assert DotFrom(r, b, 2) == r[2] * b[2];
    assert DotFrom(r, b, 1) == r[1] * b[1] + DotFrom(r, b, 2);
  }

  /** The design row, applied to a parameter vector, predicts what `package_power` says for a shared
      rail, off only by the idle package constant when no core is active. */
  lemma RowPredictsPackage(l: Laws, s: Sample, b: Vec)
    requires |b| == 3
    ensures Dot(Row(l, s), b) + FixedUncore(l, s.phys)
            == Package(Fitted(l, b, s.tempFactor), s.phys, true).Total()
               + if Top(s.phys, |s.phys|).Some? then 0.0 else b[2] - P_PKG_C6_W
  {
    var ph, v, n := Fitted(l, b, s.tempFactor), RailVolts(l, s.phys), |s.phys|;
    ThreeTerms(Row(l, s), b);
    if Top(s.phys, n).Some? {
      DynamicIsLinear(ph, s.phys, v, n);
      LeakIsLinear(ph, s.phys, v, n);
    } else {
      GatedIsLinear(ph, s.phys, v, n);
    }
  }

  // ---------------------------------------------------------------- what is minimised

  /** How far the package model is from a sample. */
  function Miss(l: Laws, s: Sample, b: Vec): real
    requires |b| == 3
  {
    s.pkgW - Package(Fitted(l, b, s.tempFactor), s.phys, true).Total()
  }

  function Misses(l: Laws, ss: seq<Sample>, b: Vec): (m: Vec)
    requires |b| == 3
    ensures |m| == |ss| && forall r :: 0 <= r < |m| ==> m[r] == Miss(l, ss[r], b)
  {
    seq(|ss|, r requires 0 <= r < |ss| => Miss(l, ss[r], b))
  }

  function SumOfSquares(m: Vec, k: nat): real
    requires k <= |m|
  {
    if k == 0 then 0.0 else SumOfSquares(m, k - 1) + Squared(m[k - 1])
  }

  /** Squared error of the package model over all samples. */
  function ModelError(l: Laws, ss: seq<Sample>, b: Vec): real
    requires |b| == 3
  {
    SumOfSquares(Misses(l, ss, b), |ss|)
  }

  ghost predicate NeverIdle(ss: seq<Sample>) {
    forall r :: 0 <= r < |ss| ==> Top(ss[r].phys, |ss[r].phys|).Some?
  }

  lemma MissIsResidual(l: Laws, ss: seq<Sample>, b: Vec, r: nat)
    requires |b| == 3 && r < |ss| && NeverIdle(ss)
    ensures Targets(l, ss)[r] - Dot(Rows(l, ss)[r], b) == Miss(l, ss[r], b)
  {
    RowPredictsPackage(l, ss[r], b);
  }

  lemma {:induction false} FitIsSumOfSquares(X: seq<Vec>, Y: Vec, z: Vec, k: nat)
    requires Data(X, Y, |z|) && k <= |X|
    ensures Fit(X, Y, z, k) == SumOfSquares(Residuals(X, Y, z), k)
  {
    if k > 0 {
      FitIsSumOfSquares(X, Y, z, k - 1);
    }
  }

  lemma FitIsModelError(l: Laws, ss: seq<Sample>, b: Vec)
    requires |b| == 3 && NeverIdle(ss)
    ensures Fit(Rows(l, ss), Targets(l, ss), b, |ss|) == ModelError(l, ss, b)
  {
    FitIsSumOfSquares(Rows(l, ss), Targets(l, ss), b, |ss|);
    forall r | 0 <= r < |ss| ensures Residuals(Rows(l, ss), Targets(l, ss), b)[r] == Misses(l, ss, b)[r] {
      MissIsResidual(l, ss, b, r);
    }
    assert Residuals(Rows(l, ss), Targets(l, ss), b) == Misses(l, ss, b);
  }

  // ---------------------------------------------------------------- never singular

  lemma {:induction false} OnesColumn(l: Laws, ss: seq<Sample>, k: nat)
    requires k <= |ss|
    ensures Gram(Rows(l, ss), 3, 2, 2, k) == k as real
  {
    if k > 0 {
      OnesColumn(l, ss, k - 1);
      assert Rows(l, ss)[k - 1][2] == 1.0;
    }
  }

  /** The column of ones keeps the penalty away from the solver's tolerance. */
  lemma PenaltyLargeEnough(l: Laws, ss: seq<Sample>)
    requires |ss| >= 1
    ensures Lambda(Rows(l, ss), 3) >= 0.000000001
  {
    var X := Rows(l, ss);
    OnesColumn(l, ss, |ss|);
    GramDiagonal(X, 3, 0, |X|);
    GramDiagonal(X, 3, 1, |X|);
    assert Trace(X, 3, 0) == 0.0;
    assert Trace(X, 3, 1) == Gram(X, 3, 0, 0, |X|);
    assert Trace(X, 3, 2) == Trace(X, 3, 1) + Gram(X, 3, 1, 1, |X|);
    assert Trace(X, 3, 3) == Trace(X, 3, 2) + Gram(X, 3, 2, 2, |X|);
  }

  // ---------------------------------------------------------------- the calibrated model

  ghost predicate Minimises(l: Laws, ss: seq<Sample>, b: Vec) {
    |b| == 3 && forall z: Vec {:trigger Loss(Rows(l, ss), Targets(l, ss), z)} ::
      |z| == 3 && z != b ==> Loss(Rows(l, ss), Targets(l, ss), z) > Loss(Rows(l, ss), Targets(l, ss), b)
  }

  /** With a busy core in every sample the fit minimises the package model's own squared error. */
  lemma FitsThePackageModel(l: Laws, ss: seq<Sample>, b: Vec, z: Vec)
    requires Minimises(l, ss, b) && NeverIdle(ss) && |z| == 3 && z != b
    ensures var lam := Lambda(Rows(l, ss), 3);
            ModelError(l, ss, z) + Times(lam, Dot(z, z)) > ModelError(l, ss, b) + Times(lam, Dot(b, b))
  {
    assert Loss(Rows(l, ss), Targets(l, ss), z) > Loss(Rows(l, ss), Targets(l, ss), b);
    FitIsModelError(l, ss, z);
    FitIsModelError(l, ss, b);
  }

  /** `clamped_to_prior` for a fit `b`. */
  function ClampedList(b: Vec): (r: seq<string>)
    requires |b| == 3
    ensures "C_eff" in r <==> b[0] <= 0.0
    ensures "k_leak" in r <==> b[1] < 0.0
    ensures "p_sa_floor" in r <==> b[2] < 0.0
  {
    assert "C_eff"[0] == 'C' && "k_leak"[0] == 'k' && "p_sa_floor"[0] == 'p';
    (if b[0] <= 0.0 then ["C_eff"] else []) + (if b[1] < 0.0 then ["k_leak"] else [])
    + (if b[2] < 0.0 then ["p_sa_floor"] else [])
  }

  /** `PARAMS`, which every power computation reads and calibration overwrites. */
  class Parameters {
    var cEff: real
    var kLeak: real
    var saFloor: real

    /** What the rail and power-cap results ask of the parameters. */
    ghost predicate Valid()
      reads this
    {
      cEff > 0.0 && kLeak >= 0.0 && saFloor >= 0.0
    }

    constructor ()
      ensures Valid() && cEff == C_EFF_PRIOR && kLeak == K_LEAK_PRIOR && saFloor == P_SA_FLOOR_PRIOR
    {
      cEff, kLeak, saFloor := C_EFF_PRIOR, K_LEAK_PRIOR, P_SA_FLOOR_PRIOR;
    }

    /** What the power functions compute with. */
    function AsPhysics(tempFactor: real, l: Laws): (ph: Physics)
      reads this
      ensures Valid() && tempFactor > 0.0 && Lawful(l) ==> Sane(ph)
      ensures ph.cEff == cEff && ph.kLeak == kLeak && ph.saFloor == saFloor
    {
      Physics(cEff, kLeak, saFloor, tempFactor, l)
    }

    /** `calibrate`: refuses short files and nothing else; otherwise installs the clamped minimiser and
        returns it unclamped beside the list `clamped_to_prior`. */
    method Calibrate(l: Laws, ss: seq<Sample>) returns (r: Result<Vec, Refusal>, clamped: seq<string>)
      requires Valid()
      modifies this
      ensures Valid()
      ensures Lawful(l) ==> forall t: real :: t > 0.0 ==> Sane(AsPhysics(t, l))
      ensures r.Err? <==> |ss| < 4
      ensures r.Err? ==> r.error == TooFewRows && unchanged(this)
      ensures r.Ok? ==> Minimises(l, ss, r.value)
      ensures r.Ok? ==> cEff == if r.value[0] <= 0.0 then C_EFF_PRIOR else r.value[0]
      ensures r.Ok? ==> kLeak == if r.value[1] < 0.0 then 0.0 else r.value[1]
      ensures r.Ok? ==> saFloor == if r.value[2] < 0.0 then 0.0 else r.value[2]
      ensures r.Ok? ==> clamped == ClampedList(r.value)
      // Only the capacitance that is listed has its prior.
      ensures r.Ok? && "C_eff" in clamped ==> cEff == C_EFF_PRIOR
      ensures r.Ok? && "k_leak" in clamped ==> kLeak == 0.0 != K_LEAK_PRIOR
      ensures r.Ok? && "p_sa_floor" in clamped ==> saFloor == 0.0 != P_SA_FLOOR_PRIOR
    {
      if |ss| < 4 {
        return Err(TooFewRows), [];
      }
      PenaltyLargeEnough(l, ss);
      var beta := FitParameters(Rows(l, ss), Targets(l, ss), 3);
      if beta.None? {
        return Err(SingularDesign), [];
      }
      var b := beta.value;
      clamped := [];
      cEff, kLeak, saFloor := b[0], b[1], b[2];
      if cEff <= 0.0 {
        clamped := clamped + ["C_eff"];
        cEff := C_EFF_PRIOR;
      }
      if kLeak < 0.0 {
        clamped := clamped + ["k_leak"];
        kLeak := 0.0;
      }
      if saFloor < 0.0 {
        clamped := clamped + ["p_sa_floor"];
        saFloor := 0.0;
      }
      r := Ok(b);
    }
  }

  /** Whatever a file made of the parameters, a shared rail costs no less than split rails and more
      frequency no less than less. */
  lemma RailResultsHold(p: Parameters, tempFactor: real, l: Laws, s: Cores, t: Cores)
    requires p.Valid() && tempFactor > 0.0 && Lawful(l) && Running(s) && Faster(s, t)
    ensures var ph := p.AsPhysics(tempFactor, l);
            && Package(ph, s, false).Total() <= Package(ph, s, true).Total() <= Package(ph, t, true).Total()
  {
    var ph := p.AsPhysics(tempFactor, l);
    SharedRailCostsMore(ph, s);
    PowerMonotone(ph, s, t, true);
  }
}
