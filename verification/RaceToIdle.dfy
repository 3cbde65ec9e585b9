/**
 `experiment_c` of sim/rail_model.py: the frequency sweep and its first minima. A fixed power floor
 never moves the cheapest frequency down.
 */
module RaceToIdle {
  import opened RailModel
  import opened PackagePower

  const N_PHYS_CORES: nat := 4
  const STEP_HZ: real := 25000000.0

  datatype Point = Point(f: real, t: real, e: real, eNoFloor: real, eCoreOnly: real)

  /** `turbo_limit_hz`. */
  function TurboLimit(n: int): real {
    if n <= 0 then F_MIN_HZ
    else if n <= 2 then 4000000000.0
    else if n == 3 then 3900000000.0
    else 3700000000.0
  }

  /** `n` cores flat out, the remaining physical cores gated. */
  function Flat(n: nat, f: real): (s: Cores)
    ensures |s| == if n < N_PHYS_CORES then N_PHYS_CORES else n
    ensures forall i :: 0 <= i < |s| ==> s[i] == if i < n then Core(f, 1.0) else Core(F_MIN_HZ, 0.0)
  {
    var rest := if n < N_PHYS_CORES then N_PHYS_CORES - n else 0;
    seq(n, _ => Core(f, 1.0)) + seq(rest, _ => Core(F_MIN_HZ, 0.0))
  }

  function Time(work: real, n: nat, f: real): real
    requires n > 0 && f > 0.0
  {
    Positive(n as real, f);
    work * GIGA / (n as real * f)
  }

  lemma Positive(a: real, b: real)
    requires a > 0.0 && b > 0.0
    ensures a * b > 0.0
  {
  }

  function Energy(watts: real, t: real): real {
    watts * t
  }

  /** Energies of a run at breakdown `p` for time `t`. */
  function PointOf(f: real, p: Power, t: real): Point {
    Point(f, t, Energy(p.Total(), t), Energy(p.Total() - p.sa, t), Energy(p.dyn + p.leak, t))
  }

  function PointAt(ph: Physics, n: nat, work: real, f: real): Point
    requires n > 0 && f > 0.0
  {
    PointOf(f, Package(ph, Flat(n, f), true), Time(work, n, f))
  }

  function FreqAt(i: nat): real {
    F_MIN_HZ + STEP_HZ * i as real
  }

  /** The whole sweep: every step from the lowest frequency up to the ceiling, none beyond it. */
  ghost predicate IsSweep(ph: Physics, n: nat, work: real, curve: seq<Point>)
    requires n > 0
  {
    && |curve| > 0
    && (forall i :: 0 <= i < |curve| ==>
                      FreqAt(i) <= TurboLimit(n) + 1.0 && curve[i] == PointAt(ph, n, work, FreqAt(i)))
    && FreqAt(|curve|) > TurboLimit(n) + 1.0
  }

  method SweepPoint(ph: Physics, n: nat, work: real, f: real) returns (pt: Point)
    requires n > 0 && f > 0.0
    ensures pt == PointAt(ph, n, work, f)
  {
    var p := Compute(ph, Flat(n, f), true);
    pt := PointOf(f, p, Time(work, n, f));
  }

  /** The loop that builds `curve`. */
  method Sweep(ph: Physics, n: nat, work: real) returns (curve: seq<Point>)
    requires n > 0
    ensures IsSweep(ph, n, work, curve)
  {
    var ceiling := TurboLimit(n);
    curve := [];
    var f := F_MIN_HZ;
    while f <= ceiling + 1.0
      invariant f == FreqAt(|curve|)
      invariant forall i :: 0 <= i < |curve| ==>
                              FreqAt(i) <= ceiling + 1.0 && curve[i] == PointAt(ph, n, work, FreqAt(i))
      decreases (ceiling + 1.0 - f).Floor
    {
      var pt := SweepPoint(ph, n, work, f);
      curve := curve + [pt];
      f := f + STEP_HZ;
    }
  }

  // ---------------------------------------------------------------- first minima

  /** `min(curve, key=...)`: a smallest element, and the first of those. */
  ghost predicate FirstMin(curve: seq<Point>, key: Point -> real, i: nat) {
    && i < |curve|
    && (forall k :: 0 <= k < |curve| ==> key(curve[i]) <= key(curve[k]))
    && forall k :: 0 <= k < i ==> key(curve[i]) < key(curve[k])
  }

  method ArgMin(curve: seq<Point>, key: Point -> real) returns (best: nat)
    requires |curve| > 0
    ensures FirstMin(curve, key, best)
  {
    best := 0;
    var i := 1;
    while i < |curve|
      invariant 1 <= i <= |curve| && best < i
      invariant forall k :: 0 <= k < i ==> key(curve[best]) <= key(curve[k])
      invariant forall k :: 0 <= k < best ==> key(curve[best]) < key(curve[k])
    {
      if key(curve[i]) < key(curve[best]) {
        best := i;
      }
      i := i + 1;
    }
  }

  function Full(p: Point): real {
    p.e
  }

  function NoFloor(p: Point): real {
    p.eNoFloor
  }

  function CoreOnly(p: Point): real {
    p.eCoreOnly
  }

  // ---------------------------------------------------------------- the floor

  lemma TimeShrinks(work: real, n: nat, f: real, g: real)
    requires work >= 0.0 && n > 0 && 0.0 < f <= g
    ensures Time(work, n, f) >= Time(work, n, g) >= 0.0
  {
    var x, y, a := n as real * f, n as real * g, work * GIGA;
    ProductMonotone(n as real, n as real, f, g);
    Positive(n as real, f);
    QuotientShrinks(a, x, y);
  }

  lemma QuotientShrinks(a: real, x: real, y: real)
    requires a >= 0.0 && 0.0 < x <= y
    ensures a / x >= a / y >= 0.0
  {
    var p, q := a / x, a / y;
    assert p * x == a && q * y == a;
    assert q < 0.0 ==> q * y < 0.0;
    assert q * (y - x) >= 0.0;
    assert p < q ==> (q - p) * x > 0.0;
  }

  lemma FloorShare(f: real, p: Power, t: real)
    ensures PointOf(f, p, t).e == PointOf(f, p, t).eNoFloor + p.sa * t
  {
    var total := p.Total();
    assert (total - p.sa) * t == total * t - p.sa * t;
  }

  /** Full energy less core-only energy is the energy of the uncore, which has no leakage. */
  lemma UncoreShare(f: real, p: Power, t: real)
    ensures PointOf(f, p, t).e - PointOf(f, p, t).eCoreOnly == (p.sa + p.ring + p.traffic) * t
  {
    var u := p.sa + p.ring + p.traffic;
    assert (p.dyn + p.leak + u) * t == (p.dyn + p.leak) * t + u * t;
    assert p.Total() == p.dyn + p.leak + u;
  }

  /** How many points the sweep has: up to 4.0, 3.9 or 3.7 GHz in steps of 25 MHz. */
  lemma SweepLength(ph: Physics, n: nat, work: real, curve: seq<Point>)
    requires n > 0 && IsSweep(ph, n, work, curve)
    ensures |curve| == if n <= 2 then 145 else if n == 3 then 141 else 133
    ensures curve[|curve| - 1].f == if n <= 2 then 4000000000.0 else if n == 3 then 3900000000.0 else 3700000000.0
  {
    var k := |curve|;
    assert FreqAt(k - 1) <= TurboLimit(n) + 1.0 < FreqAt(k);
  }

  /** A faster point that wins without the floor wins with it. */
  lemma FloorHelpsTheFaster(f: real, p: Power, t: real, g: real, q: Power, u: real)
    requires p.sa == q.sa >= 0.0 && t >= u >= 0.0
    requires PointOf(g, q, u).eNoFloor < PointOf(f, p, t).eNoFloor
    ensures PointOf(g, q, u).e < PointOf(f, p, t).e
  {
    FloorShare(f, p, t);
    FloorShare(g, q, u);
    ProductMonotone(p.sa, p.sa, u, t);
  }

  lemma FloorIsTheParameter(ph: Physics, n: nat, f: real)
    requires n > 0
    ensures Package(ph, Flat(n, f), true).sa == ph.saFloor
  {
    assert Active(Flat(n, f)[0]);
  }

  lemma FloorOrder(ph: Physics, n: nat, work: real, f: real, g: real)
    requires n > 0 && work >= 0.0 && ph.saFloor >= 0.0 && 0.0 < f <= g
    requires PointAt(ph, n, work, g).eNoFloor < PointAt(ph, n, work, f).eNoFloor
    ensures PointAt(ph, n, work, g).e < PointAt(ph, n, work, f).e
  {
    FloorIsTheParameter(ph, n, f);
    FloorIsTheParameter(ph, n, g);
    TimeShrinks(work, n, f, g);
    FloorHelpsTheFaster(f, Package(ph, Flat(n, f), true), Time(work, n, f),
                        g, Package(ph, Flat(n, g), true), Time(work, n, g));
  }

  /** The cheapest frequency with the floor is at or above the cheapest one without it. */
  lemma FloorNeverLowersTheOptimum(ph: Physics, n: nat, work: real, curve: seq<Point>, i: nat, j: nat)
    requires n > 0 && work >= 0.0 && ph.saFloor >= 0.0 && IsSweep(ph, n, work, curve)
    requires FirstMin(curve, Full, i) && FirstMin(curve, NoFloor, j)
    ensures curve[j].f <= curve[i].f
  {
    if i < j {
      assert NoFloor(curve[j]) < NoFloor(curve[i]);
      FloorOrder(ph, n, work, FreqAt(i), FreqAt(j));
    }
  }

  /** The sweep of `experiment_c` and its three minima. */
  method Crossover(ph: Physics, n: nat, work: real)
    returns (curve: seq<Point>, best: nat, bestNoFloor: nat, bestCoreOnly: nat)
    requires n > 0
    ensures IsSweep(ph, n, work, curve)
    ensures FirstMin(curve, Full, best) && FirstMin(curve, NoFloor, bestNoFloor)
    ensures FirstMin(curve, CoreOnly, bestCoreOnly)
    ensures work >= 0.0 && ph.saFloor >= 0.0 ==> curve[bestNoFloor].f <= curve[best].f
  {
    curve := Sweep(ph, n, work);
    best := ArgMin(curve, Full);
    bestNoFloor := ArgMin(curve, NoFloor);
    bestCoreOnly := ArgMin(curve, CoreOnly);
    if work >= 0.0 && ph.saFloor >= 0.0 {
      FloorNeverLowersTheOptimum(ph, n, work, curve, best, bestNoFloor);
    }
  }
}
