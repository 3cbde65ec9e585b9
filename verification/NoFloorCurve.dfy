/**
 The claim of `experiment_c` (sim/rail_model.py) that without the fixed floor energy falls all the
 way to the lowest frequency. It holds exactly when the switching power of the lowest step outweighs
 what that step saves on ring and leakage. Leakage only raises that bar, and the shipped capacitance
 misses it for every core count of the part, whatever the leakage.
 */
module NoFloorCurve {
  import opened Wrappers
  import opened RailModel
  import opened PackagePower
  import opened RaceToIdle

  // ---------------------------------------------------------------- power without the floor

  /** How many of the first `k` cores run. */
  function Busy(n: nat, k: nat): real {
    (if k < n then k else n) as real
  }

  function Scaled(m: real, d: real): real {
    m * d
  }

  lemma OneMore(m: real, d: real)
    ensures Scaled(m + 1.0, d) == Scaled(m, d) + d
  {
  }

  lemma {:induction false} FlatDynamic(ph: Physics, n: nat, f: real, v: real, d: real, k: nat)
    requires k <= |Flat(n, f)| && d == Dynamic(ph, v, Core(f, 1.0))
    ensures DynamicSum(ph, Flat(n, f), v, true, k) == Scaled(Busy(n, k), d)
  {
    if k > 0 {
      FlatDynamic(ph, n, f, v, d, k - 1);
      OneMore(Busy(n, k - 1), d);
    }
  }

  /** What the first `k` cores leak, counted in active cores. */
  function Leaking(n: nat, k: nat): real {
    if k <= n then k as real else n as real + C6_LEAK_RESIDUAL * (k - n) as real
  }

  /** What the whole package leaks at voltage `v`, `n` of its cores active. */
  function Leakage(ph: Physics, n: nat, v: real): real {
    Scaled(Leaking(n, if n < N_PHYS_CORES then N_PHYS_CORES else n), Leak(ph, v, true))
  }

  lemma LeakOneMore(m: real, h: real, d: real)
    ensures Scaled(m + h, d) == Scaled(m, d) + d * h
  {
  }

  lemma {:induction false} FlatLeak(ph: Physics, n: nat, f: real, v: real, k: nat)
    requires k <= |Flat(n, f)|
    ensures LeakSum(ph, Flat(n, f), v, true, k) == Scaled(Leaking(n, k), Leak(ph, v, true))
  {
    if k > 0 {
      FlatLeak(ph, n, f, v, k - 1);
      LeakOneMore(Leaking(n, k - 1), if k <= n then 1.0 else C6_LEAK_RESIDUAL, Leak(ph, v, true));
    }
  }

  lemma {:induction false} FlatCycles(n: nat, f: real, k: nat)
    requires k <= |Flat(n, f)|
    ensures GigaCycles(Flat(n, f), k) == Scaled(Busy(n, k), f / GIGA)
  {
    if k > 0 {
      FlatCycles(n, f, k - 1);
      OneMore(Busy(n, k - 1), f / GIGA);
    }
  }

  lemma {:induction false} FlatTop(n: nat, f: real, k: nat)
    requires 0 < n && 0 < k <= |Flat(n, f)|
    ensures Top(Flat(n, f), k) == Some(f)
  {
    if k > 1 {
      FlatTop(n, f, k - 1);
    }
  }

  /** What the cores and the uncore still draw, at frequency `x` GHz and voltage `v`; ring and leakage
      take `r`. */
  function Draw(n: nat, c: real, v: real, r: real, x: real): real {
    n as real * c * (v * v) * x + r + K_TRAFFIC * (n as real * x)
  }

  /** Ring and leakage: the power that does not grow with every cycle. */
  function Shrinking(ph: Physics, n: nat, f: real): real {
    Ring(ph.laws, f) + Leakage(ph, n, ph.laws.volts(f))
  }

  lemma DrawProduct(n: real, c: real, w: real, x: real, d: real)
    requires d == 1.0 * c * w * x
    ensures Scaled(n, d) == n * c * w * x
  {
    var cw := c * w;
    assert n * c * w == n * cw;
    assert n * cw * x == n * (cw * x);
  }

  lemma DrawParts(n: nat, c: real, v: real, r: real, x: real, d: real)
    requires d == 1.0 * c * (v * v) * x
    ensures Scaled(n as real, d) + r + K_TRAFFIC * Scaled(n as real, x) == Draw(n, c, v, r, x)
  {
    DrawProduct(n as real, c, v * v, x, d);
  }

  lemma PartsOf(ph: Physics, n: nat, f: real, d: real)
    requires n > 0 && d == Dynamic(ph, ph.laws.volts(f), Core(f, 1.0))
    ensures var p := Package(ph, Flat(n, f), true);
            && p.dyn == Scaled(n as real, d) && p.leak == Leakage(ph, n, ph.laws.volts(f))
            && p.ring == Ring(ph.laws, f)
            && p.traffic == K_TRAFFIC * Scaled(n as real, f / GIGA)
  {
    var s := Flat(n, f);
    FlatTop(n, f, |s|);
    FlatDynamic(ph, n, f, ph.laws.volts(f), d, |s|);
    FlatLeak(ph, n, f, ph.laws.volts(f), |s|);
    FlatCycles(n, f, |s|);
  }

  lemma DrawFrom(p: Power, n: nat, c: real, v: real, r: real, x: real, d: real)
    requires d == 1.0 * c * (v * v) * x && p.dyn == Scaled(n as real, d)
    requires p.ring + p.leak == r && p.traffic == K_TRAFFIC * Scaled(n as real, x)
    ensures p.Total() - p.sa == Draw(n, c, v, r, x)
  {
    DrawParts(n, c, v, r, x, d);
  }

  lemma DrawOf(ph: Physics, n: nat, f: real, p: Power)
    requires n > 0 && p == Package(ph, Flat(n, f), true)
    ensures p.Total() - p.sa == Draw(n, ph.cEff, ph.laws.volts(f), Shrinking(ph, n, f), f / GIGA)
  {
    var d := Dynamic(ph, ph.laws.volts(f), Core(f, 1.0));
    PartsOf(ph, n, f, d);
    DrawFrom(p, n, ph.cEff, ph.laws.volts(f), Shrinking(ph, n, f), f / GIGA, d);
  }

  // ---------------------------------------------------------------- comparing two frequencies

  /** Energies compare like power times the other frequency. */
  lemma EnergyOrder(p: real, t: real, x: real, q: real, u: real, y: real, work: real)
    requires work > 0.0 && x > 0.0 && y > 0.0 && t * x == work && u * y == work
    ensures p * t <= q * u <==> p * y <= q * x
  {
    var a, b, xy := p * t, q * u, x * y;
    assert xy > 0.0;
    assert a * xy == p * y * work by {
      assert a * x == p * work by { assert a * x == p * (t * x); }
      assert a * xy == (a * x) * y;
      assert (p * work) * y == p * y * work;
    }
    assert b * xy == q * x * work by {
      assert b * y == q * work by { assert b * y == q * (u * y); }
      assert b * xy == (b * y) * x;
      assert (q * work) * x == q * x * work;
    }
    SameOrder(a, b, xy);
    SameOrder(p * y, q * x, work);
  }

  lemma SameOrder(a: real, b: real, m: real)
    requires m > 0.0
    ensures a <= b <==> a * m <= b * m
  {
    assert a * m - b * m == (a - b) * m;
    assert a - b > 0.0 ==> (a - b) * m > 0.0;
    assert b - a >= 0.0 ==> (b - a) * m >= 0.0;
    assert (b - a) * m == -((a - b) * m);
  }

  lemma TimeTimesSpeed(work: real, n: nat, f: real)
    requires n > 0 && f > 0.0
    ensures Time(work, n, f) * (n as real * (f / GIGA)) == work
  {
    var d, t := n as real * f, Time(work, n, f);
    Positive(n as real, f);
    assert t * d == work * GIGA;
    assert n as real * (f / GIGA) == d / GIGA;
    assert t * (d / GIGA) == (t * d) / GIGA;
  }

  /** Cores times switching capacitance. */
  function Capacity(ph: Physics, n: nat): real {
    n as real * ph.cEff
  }

  /** The faster of two points is no cheaper: what it saves on ring and leakage is at most what the
      higher voltage costs. */
  predicate VoltageWins(nc: real, v: real, r: real, x: real, w: real, q: real, y: real) {
    r * y - q * x <= nc * (w * w - v * v) * (x * y)
  }

  lemma DrawOrder(n: nat, c: real, v: real, r: real, x: real, w: real, q: real, y: real)
    requires n > 0
    ensures Draw(n, c, v, r, x) * (n as real * y) <= Draw(n, c, w, q, y) * (n as real * x) <==>
            VoltageWins(n as real * c, v, r, x, w, q, y)
  {
    var m, nc := n as real, n as real * c;
    var vv, ww := v * v, w * w;
    var p, s := Draw(n, c, v, r, x), Draw(n, c, w, q, y);
    Expand(nc, vv, r, x, m, y, p);
    Expand(nc, ww, q, y, m, x, s);
    assert x * y == y * x;
    var z := x * y;
    assert nc * (ww - vv) * z == nc * ww * z - nc * vv * z by {
      assert nc * (ww - vv) == nc * ww - nc * vv;
      var a, b := nc * ww, nc * vv;
      assert (a - b) * z == a * z - b * z;
    }
    SameOrder(p * y, s * x, m);
    assert p * (m * y) == (p * y) * m && s * (m * x) == (s * x) * m;
  }

  lemma Expand(nc: real, vv: real, r: real, x: real, m: real, y: real, p: real)
    requires p == nc * vv * x + r + K_TRAFFIC * (m * x)
    ensures p * y == nc * vv * (x * y) + r * y + K_TRAFFIC * (m * (x * y))
  {
    var a := nc * vv;
    assert (a * x) * y == a * (x * y);
    var b := m * x;
    assert b * y == m * (x * y);
    assert (K_TRAFFIC * b) * y == K_TRAFFIC * (b * y);
    var ax := a * x;
    assert (ax + r + K_TRAFFIC * b) * y == ax * y + r * y + (K_TRAFFIC * b) * y;
  }

  /** `e` is the energy of a run with power `p` for time `t`, at `x` GHz. */
  predicate Costs(e: real, p: real, t: real, n: nat, c: real, v: real, r: real, x: real, work: real) {
    e == Energy(p, t) && p == Draw(n, c, v, r, x) && t * (n as real * x) == work
  }

  /** The power half. */
  lemma PowerOf(ph: Physics, n: nat, work: real, f: real) returns (p: real)
    requires n > 0 && f > 0.0
    ensures p == Draw(n, ph.cEff, ph.laws.volts(f), Shrinking(ph, n, f), f / GIGA)
    ensures PointAt(ph, n, work, f).eNoFloor == Energy(p, Time(work, n, f))
  {
    var power := Package(ph, Flat(n, f), true);
    DrawOf(ph, n, f, power);
    p := power.Total() - power.sa;
  }

  lemma EnergyParts(ph: Physics, n: nat, work: real, f: real, v: real, r: real, x: real, e: real)
    returns (p: real, t: real)
    requires n > 0 && f > 0.0 && e == PointAt(ph, n, work, f).eNoFloor
    requires v == ph.laws.volts(f) && r == Shrinking(ph, n, f) && x == f / GIGA
    ensures Costs(e, p, t, n, ph.cEff, v, r, x, work)
  {
    p := PowerOf(ph, n, work, f);
    t := Time(work, n, f);
    TimeTimesSpeed(work, n, f);
  }

  lemma PartsOrder(n: nat, c: real, work: real, e: real, p: real, t: real, v: real, r: real, x: real,
                   d: real, q: real, u: real, w: real, s: real, y: real)
    requires n > 0 && work > 0.0 && x > 0.0 && y > 0.0
    requires Costs(e, p, t, n, c, v, r, x, work) && Costs(d, q, u, n, c, w, s, y, work)
    ensures e <= d <==> VoltageWins(n as real * c, v, r, x, w, s, y)
  {
    Positive(n as real, x);
    Positive(n as real, y);
    EnergyOrder(p, t, n as real * x, q, u, n as real * y, work);
    DrawOrder(n, c, v, r, x, w, s, y);
  }

  lemma PointOrder(ph: Physics, n: nat, work: real, f: real, g: real,
                   v: real, r: real, x: real, e: real, w: real, s: real, y: real, d: real)
    requires n > 0 && work > 0.0 && f > 0.0 && g > 0.0
    requires e == PointAt(ph, n, work, f).eNoFloor && d == PointAt(ph, n, work, g).eNoFloor
    requires v == ph.laws.volts(f) && r == Shrinking(ph, n, f) && x == f / GIGA
    requires w == ph.laws.volts(g) && s == Shrinking(ph, n, g) && y == g / GIGA
    ensures e <= d <==> VoltageWins(Capacity(ph, n), v, r, x, w, s, y)
  {
    var p, t := EnergyParts(ph, n, work, f, v, r, x, e);
    var q, u := EnergyParts(ph, n, work, g, w, s, y, d);
    PartsOrder(n, ph.cEff, work, e, p, t, v, r, x, d, q, u, w, s, y);
  }

  // ---------------------------------------------------------------- the shipped curve at the sweep's points

  function Ghz(i: nat): real {
    0.4 + 0.025 * i as real
  }

  lemma GhzOf(i: nat)
    ensures FreqAt(i) / GIGA == Ghz(i) && FreqAt(i) / 1000000.0 == 400.0 + 25.0 * i as real
  {
  }

  /** The first segment: 75 mV per GHz. */
  lemma LowVolts(i: nat)
    requires i <= 16
    ensures Volts(FreqAt(i)) == 0.65 + 0.001875 * i as real
  {
    AnchorsRise();
    GhzOf(i);
    var mhz := FreqAt(i) / 1000000.0;
    LookupIsPiecewiseLinear(VF_ANCHORS, mhz);
    assert VF_ANCHORS[0] == Anchor(400.0, 0.65) && VF_ANCHORS[1] == Anchor(800.0, 0.68);
    assert Volts(FreqAt(i)) == Chord(VF_ANCHORS, 0, mhz);
  }

  /** The last segment, from 3.9 GHz on. */
  lemma HighVolts(i: nat)
    requires 140 <= i <= 144
    ensures Volts(FreqAt(i)) == 1.115 + 0.035 * (25.0 * i as real - 3300.0) / 300.0
  {
    AnchorsRise();
    GhzOf(i);
    var mhz := FreqAt(i) / 1000000.0;
    LookupIsPiecewiseLinear(VF_ANCHORS, mhz);
    assert VF_ANCHORS[7] == Anchor(3700.0, 1.115) && VF_ANCHORS[8] == Anchor(4000.0, 1.150);
    assert Volts(FreqAt(i)) == Chord(VF_ANCHORS, 7, mhz);
  }

  lemma RingLimits(i: nat)
    ensures i <= 16 ==> RingHz(FreqAt(i)) == FreqAt(16)
    ensures 16 <= i <= 140 ==> RingHz(FreqAt(i)) == FreqAt(i)
    ensures 140 <= i ==> RingHz(FreqAt(i)) == FreqAt(140)
  {
    assert i <= 16 ==> FreqAt(i) <= F_RING_MIN_HZ;
    assert 16 <= i ==> FreqAt(i) >= F_RING_MIN_HZ;
    assert i <= 140 ==> FreqAt(i) <= F_RING_MAX_HZ;
    assert 140 <= i ==> FreqAt(i) >= F_RING_MAX_HZ;
  }

  /** From 800 MHz on every step of the sweep costs at least 2.8 mV. */
  lemma StepRises(i: nat)
    requires 16 <= i < 144
    ensures Volts(FreqAt(i + 1)) >= Volts(FreqAt(i)) + 0.0028125
  {
    if i < 32 {
      RiseWithin(1, i, Anchor(800.0, 0.680), Anchor(1200.0, 0.725));
    } else if i < 56 {
      RiseWithin(2, i, Anchor(1200.0, 0.725), Anchor(1800.0, 0.830));
    } else if i < 80 {
      RiseWithin(3, i, Anchor(1800.0, 0.830), Anchor(2400.0, 0.925));
    } else if i < 104 {
      RiseWithin(4, i, Anchor(2400.0, 0.925), Anchor(3000.0, 1.020));
    } else if i < 120 {
      RiseWithin(5, i, Anchor(3000.0, 1.020), Anchor(3400.0, 1.075));
    } else if i < 132 {
      RiseWithin(6, i, Anchor(3400.0, 1.075), Anchor(3700.0, 1.115));
    } else {
      RiseWithin(7, i, Anchor(3700.0, 1.115), Anchor(4000.0, 1.150));
    }
  }

  lemma RiseWithin(k: nat, i: nat, a: Anchor, b: Anchor)
    requires k < 8 && a == VF_ANCHORS[k] && b == VF_ANCHORS[k + 1]
    requires a.mhz <= 400.0 + 25.0 * i as real && 425.0 + 25.0 * i as real <= b.mhz
    requires a.mhz < b.mhz && 25.0 * (b.volts - a.volts) >= 0.0028125 * (b.mhz - a.mhz)
    ensures Volts(FreqAt(i + 1)) >= Volts(FreqAt(i)) + 0.0028125
  {
    GhzOf(i);
    GhzOf(i + 1);
    VoltsOnChord(k, FreqAt(i));
    VoltsOnChord(k, FreqAt(i + 1));
    ChordStep(VF_ANCHORS, k, FreqAt(i) / 1000000.0);
  }

  lemma VoltsOnChord(k: nat, f: real)
    requires k < 8 && VF_ANCHORS[k].mhz <= f / 1000000.0 <= VF_ANCHORS[k + 1].mhz
    ensures VF_ANCHORS[k].mhz < VF_ANCHORS[k + 1].mhz && Volts(f) == Chord(VF_ANCHORS, k, f / 1000000.0)
  {
    AnchorsRise();
    LookupIsPiecewiseLinear(VF_ANCHORS, f / 1000000.0);
  }

  lemma ChordStep(t: seq<Anchor>, k: nat, x: real)
    requires k + 1 < |t| && t[k].mhz < t[k + 1].mhz
    requires 25.0 * (t[k + 1].volts - t[k].volts) >= 0.0028125 * (t[k + 1].mhz - t[k].mhz)
    ensures Chord(t, k, x + 25.0) >= Chord(t, k, x) + 0.0028125
  {
    var h, m := t[k + 1].volts - t[k].volts, t[k + 1].mhz - t[k].mhz;
    Slope((x - t[k].mhz) / m, (x + 25.0 - t[k].mhz) / m, h, m);
  }

  lemma Slope(p: real, q: real, h: real, m: real)
    requires m > 0.0 && q * m == p * m + 25.0 && 25.0 * h >= 0.0028125 * m
    ensures q * h >= p * h + 0.0028125
  {
    var d := q - p;
    assert d * m == 25.0;
    assert (d * h - 0.0028125) * 25.0 == d * (25.0 * h - 0.0028125 * m);
    assert d > 0.0;
    Nonnegative(d, 25.0 * h - 0.0028125 * m);
    assert d * h == q * h - p * h;
  }

  lemma Nonnegative(a: real, b: real)
    requires a >= 0.0 && b >= 0.0
    ensures a * b >= 0.0
  {
  }

  // ---------------------------------------------------------------- leakage along the sweep

  /** An exponential: positive and above each of its tangents. */
  ghost predicate Exponential(exp: real -> real) {
    && (forall x: real :: exp(x) > 0.0)
    && forall x: real, y: real :: AboveTangent(exp, x, y)
  }

  /** At `x` the curve is no lower than its tangent at `y`. */
  ghost predicate AboveTangent(exp: real -> real, x: real, y: real) {
    exp(x) >= Scaled(exp(y), 1.0 + (x - y))
  }

  /** Leakage per volt, as far as the sweep depends on it: never negative and above its tangents. */
  ghost predicate Growing(e: real -> real) {
    && (forall v: real :: e(v) >= 0.0)
    && forall u: real, v: real :: AboveSlope(e, u, v)
  }

  ghost predicate AboveSlope(e: real -> real, u: real, v: real) {
    e(v) >= Scaled(e(u), 1.0 + (v - u) / VT_EFF_V)
  }

  lemma Slopes(e: real -> real, u: real, v: real, h: real)
    requires Growing(e) && h == 1.0 + (v - u) / VT_EFF_V
    ensures e(v) >= h * e(u) && e(u) >= 0.0
    ensures u <= v ==> e(u) <= e(v)
  {
    assert AboveSlope(e, u, v);
    if u <= v {
      Nonnegative(e(u), h - 1.0);
      assert e(u) * (h - 1.0) == e(u) * h - e(u);
    }
  }

  /** Leakage per volt grows from the lowest voltage by at most 1/0.49 up to 830 mV and 1/0.1157 up to
      the top of the curve. */
  lemma GrowthBound(e: real -> real, v: real)
    requires Growing(e) && 0.65 <= v <= 1.15
    ensures v <= 0.83 ==> 0.49 * e(v) <= e(0.65)
    ensures 0.1157 * e(v) <= e(0.65)
  {
    if v <= 0.83 {
      Slopes(e, 0.74, 0.65, 0.7);
      Slopes(e, 0.83, 0.74, 0.7);
      Slopes(e, v, 0.83, 1.0 + (0.83 - v) / VT_EFF_V);
    }
    Slopes(e, 0.775, 0.65, 1.75 / 3.0);
    Slopes(e, 0.9, 0.775, 1.75 / 3.0);
    Slopes(e, 1.025, 0.9, 1.75 / 3.0);
    Slopes(e, 1.15, 1.025, 1.75 / 3.0);
    Slopes(e, v, 1.15, 1.0 + (1.15 - v) / VT_EFF_V);
  }

  // ---------------------------------------------------------------- one step of the sweep

  /** The lowest step costs more switching power than it saves on ring and leakage. */
  predicate EnoughFor(nc: real, saving: real) {
    nc * 0.00041497265625 >= 0.0050864 + saving
  }

  /** What the lowest step saves on leakage, given the leakage per volt. */
  function Saving(e: real -> real): real {
    0.27625 * e(0.65) - 0.26075 * e(0.651875)
  }

  /** Leakage only raises the bar. */
  lemma SavingBound(e: real -> real)
    requires Growing(e)
    ensures Saving(e) >= 0.013845 * e(0.65) >= 0.0
  {
    Slopes(e, 0.651875, 0.65, 0.99375);
  }

  /** The lowest step. */
  lemma BottomStep(nc: real, l: real, m: real)
    ensures VoltageWins(nc, 0.65, 0.203456 + l, 0.4, 0.651875, 0.203456 + m, 0.425) <==>
            EnoughFor(nc, 0.425 * l - 0.4 * m)
  {
    assert 0.651875 * 0.651875 - 0.65 * 0.65 == 0.002441015625;
    assert nc * 0.002441015625 * (0.4 * 0.425) == nc * 0.00041497265625;
  }

  /** A step between 400 and 800 MHz. */
  predicate LowPoint(i: nat, v: real, w: real) {
    0 < i < 16 && v == 0.65 + 0.001875 * i as real && w == v + 0.001875
  }

  /** What the step saves on leakage, `l` and `m` at its ends, is no more than the lowest step's
      `saving` per cycle. */
  predicate LowSaving(i: nat, l: real, m: real, saving: real) {
    0.17 * (l * Ghz(i + 1) - m * Ghz(i)) <= Scaled(saving, Ghz(i) * Ghz(i + 1))
  }

  lemma LowChain(e0: real, e: real, t: real, z: real, saving: real)
    requires saving >= 0.013845 * e0 && e0 >= Scaled(e, t) && e >= 0.0
    requires z >= 0.0 && t * z >= 0.187
    ensures 0.17 * 0.0139 * e <= Scaled(saving, z)
  {
    Nonnegative(saving - 0.013845 * e0, z);
    assert (saving - 0.013845 * e0) * z == saving * z - 0.013845 * (e0 * z);
    Nonnegative(e0 - e * t, z);
    assert (e0 - e * t) * z == e0 * z - e * (t * z);
    Nonnegative(e, t * z - 0.187);
    assert e * (t * z - 0.187) == e * (t * z) - 0.187 * e;
  }

  lemma Stretch(i: nat, t: real, z: real)
    requires 0 < i < 16 && t == 1.0 - 0.00625 * i as real && z == Ghz(i) * Ghz(i + 1)
    ensures z >= 0.0 && t * z >= 0.187
  {
    var k := i as real;
    assert z == 0.17 + 0.020625 * k + 0.000625 * (k * k);
    Nonnegative(k, k);
    Nonnegative(t, 0.000625 * (k * k));
    assert t * z == t * (0.17 + 0.020625 * k) + t * (0.000625 * (k * k));
    Nonnegative(k, 15.0 - k);
    assert t * (0.17 + 0.020625 * k) == 0.17 + 0.0195625 * k - 0.00012890625 * (k * k);
  }

  lemma LeakDeficit(i: nat, v: real, w: real, e: real, d: real)
    requires LowPoint(i, v, w) && d >= 1.00625 * e && e >= 0.0
    ensures Scaled(v, e) * Ghz(i + 1) - Scaled(w, d) * Ghz(i) <= 0.0139 * e
  {
    var x, k := Ghz(i), i as real;
    Nonnegative(w * x, d - 1.00625 * e);
    assert (w * x) * (d - 1.00625 * e) == (w * d) * x - 1.00625 * ((w * x) * e);
    assert (v * e) * (x + 0.025) == (v * x) * e + 0.025 * (v * e);
    assert (w * x) * e == (v * x) * e + 0.001875 * (x * e);
    Nonnegative(k, k);
    var m := 0.025 * v - 0.00625 * (v * x) - 0.00188671875 * x;
    assert v * x == 0.26 + 0.017 * k + 0.000046875 * (k * k);
    assert m <= 0.0139;
    Nonnegative(e, 0.0139 - m);
    assert e * (0.0139 - m) == 0.0139 * e - 0.025 * (v * e) + 0.00625 * ((v * x) * e) + 0.00188671875 * (x * e);
  }

  lemma LowStep(nc: real, i: nat, v: real, w: real, l: real, m: real, saving: real)
    requires LowPoint(i, v, w) && EnoughFor(nc, saving) && saving >= 0.0 && LowSaving(i, l, m, saving)
    ensures VoltageWins(nc, v, 0.203456 + l, Ghz(i), w, 0.203456 + m, Ghz(i + 1))
  {
    var x, y, a, k := Ghz(i), Ghz(i + 1), w * w - v * v, i as real;
    assert a == 0.001875 * (v + w);
    Nonnegative(k, k);
    assert x * y == 0.17 + 0.020625 * k + 0.000625 * (k * k);
    LowCost(nc, saving, a, x * y);
    assert nc * a * (x * y) == nc * (a * (x * y));
  }

  lemma LowCost(nc: real, saving: real, a: real, z: real)
    requires EnoughFor(nc, saving) && saving >= 0.0 && a >= 0.002441015625 && z >= 0.17
    ensures 0.17 * (nc * (a * z)) >= 0.17 * 0.0050864 + Scaled(saving, z)
  {
    Nonnegative(nc * z, a - 0.002441015625);
    assert (nc * z) * (a - 0.002441015625) == nc * (a * z) - 0.002441015625 * (nc * z);
    Nonnegative(nc * 0.00041497265625 - 0.0050864 - saving, z);
    assert (nc * 0.00041497265625 - 0.0050864 - saving) * z == 0.00041497265625 * (nc * z) - 0.0050864 * z - saving * z;
  }

  lemma MiddleStep(nc: real, v: real, w: real, x: real, y: real)
    requires nc >= 0.0 && 0.0 < v <= w && 0.0 < x <= y
    ensures VoltageWins(nc, v, RingAt(v, x * GIGA), x, w, RingAt(w, y * GIGA), y)
  {
    var vv, ww, z := v * v, w * w, x * y;
    ProductMonotone(v, w, v, w);
    Positive(x, y);
    assert RingAt(v, x * GIGA) == C_RING * vv * x && RingAt(w, y * GIGA) == C_RING * ww * y;
    assert C_RING * vv * x * y == C_RING * vv * z && C_RING * ww * y * x == C_RING * ww * z;
    ProductMonotone(C_RING * vv, C_RING * ww, z, z);
    ProductMonotone(0.0, nc, 0.0, ww - vv);
    ProductMonotone(0.0, nc * (ww - vv), 0.0, z);
  }

  lemma HighStep(nc: real, i: nat, v: real, w: real, r: real)
    requires 140 <= i < 144 && nc >= 12.0 && 0.0 <= r <= 2.8
    requires v == 1.115 + 0.035 * (25.0 * i as real - 3300.0) / 300.0 && w == v + 0.875 / 300.0
    ensures VoltageWins(nc, v, r, Ghz(i), w, r, Ghz(i + 1))
  {
    var x, y := Ghz(i), Ghz(i + 1);
    assert w * w - v * v == 0.875 / 300.0 * (v + w);
    var a, b := 0.875 / 300.0 * (v + w), x * y;
    ProductMonotone(3.9, x, 3.9, y);
    assert a >= 0.006 && b >= 15.0;
    ProductMonotone(0.006, a, 15.0, b);
    ProductMonotone(12.0, nc, 0.09, a * b);
    assert nc * a * b == nc * (a * b);
    ProductMonotone(r, 2.8, 0.025, 0.025);
    assert r * y - r * x == r * 0.025;
  }

  /** A step above 800 MHz. */
  predicate HighPoint(v: real, w: real, x: real, y: real) {
    0.68 <= v <= 1.15 && v + 0.0028125 <= w && 0.8 <= x && y == x + 0.025 && (x < 1.8 ==> v <= 0.83)
  }

  /** The step saves little leakage, `l` and `m` at its ends, for what its voltage costs. */
  predicate HighSaving(v: real, w: real, x: real, y: real, l: real, m: real, e0: real) {
    l * y - m * x <= 33.0 * e0 * (w * w - v * v) * (x * y)
  }

  lemma SmallShare(v: real, x: real, e: real, e0: real, l: real)
    requires 0.0 <= v <= 1.15 && (x < 1.8 ==> v <= 0.83) && 0.0 <= e && l == Scaled(v, e)
    requires 0.1157 * e <= e0 && (v <= 0.83 ==> 0.49 * e <= e0)
    ensures SmallLeak(x, l, e0)
  {
    if x < 1.8 {
      ScaleBounds(v, 0.83, e);
    } else {
      ScaleBounds(v, 1.15, e);
    }
  }

  predicate SmallLeak(x: real, l: real, e0: real) {
    0.025 * l <= if x < 1.8 then 0.08 * e0 else 0.4 * e0
  }

  predicate LeakFalls(x: real, y: real, l: real, m: real) {
    l * y - m * x <= 0.025 * l
  }

  lemma CostlyStep(v: real, w: real, x: real, y: real, l: real, m: real, e0: real)
    requires HighPoint(v, w, x, y) && e0 >= 0.0 && LeakFalls(x, y, l, m) && SmallLeak(x, l, e0)
    ensures HighSaving(v, w, x, y, l, m, e0)
  {
    SquareGap(v, w);
    if x < 1.8 {
      SpeedBounds(0.8, x, y);
      Costly(e0, w * w - v * v, x * y, 0.64);
    } else {
      SpeedBounds(1.8, x, y);
      Costly(e0, w * w - v * v, x * y, 3.24);
    }
  }

  lemma ScaleBounds(v: real, top: real, e: real)
    requires 0.0 <= v <= top && 0.0 <= e
    ensures Scaled(v, e) <= top * e
  {
    Nonnegative(top - v, e);
    assert (top - v) * e == top * e - v * e;
  }

  lemma SpeedBounds(least: real, x: real, y: real)
    requires 0.0 <= least <= x <= y
    ensures x * y >= least * least
  {
    ProductMonotone(least, x, least, y);
  }

  lemma NoDearer(v: real, w: real, x: real, y: real, e: real, d: real)
    requires 0.0 <= v <= w && 0.0 <= e <= d && 0.0 <= x && y == x + 0.025
    ensures LeakFalls(x, y, Scaled(v, e), Scaled(w, d))
  {
    ProductMonotone(v, w, e, d);
    var l, m := Scaled(v, e), Scaled(w, d);
    Nonnegative(m - l, x);
    assert (m - l) * x == m * x - l * x;
    assert l * y == l * x + 0.025 * l;
  }

  lemma Costly(e0: real, a: real, z: real, least: real)
    requires e0 >= 0.0 && a >= 0.0038 && z >= least >= 0.0
    ensures 33.0 * e0 * a * z >= 0.1254 * least * e0
  {
    ProductMonotone(0.0038, a, least, z);
    ProductMonotone(e0, e0, 0.0038 * least, a * z);
    assert 33.0 * e0 * a * z == 33.0 * (e0 * (a * z));
    assert 0.1254 * least * e0 == 33.0 * (e0 * (0.0038 * least));
  }

  lemma SquareGap(v: real, w: real)
    requires 0.68 <= v && v + 0.0028125 <= w
    ensures w * w - v * v >= 0.0038
  {
    ProductMonotone(0.0028125, w - v, 1.3628, w + v);
    assert w * w - v * v == (w - v) * (w + v);
  }

  /** Switching power pays for ring and leakage one after the other. */
  lemma AddLeakage(nc: real, b: real, e0: real, v: real, r: real, x: real, w: real, q: real, y: real, l: real, m: real)
    requires nc >= b + 33.0 * e0 && 0.0 <= v <= w && 0.0 <= x && 0.0 <= y
    requires VoltageWins(b, v, r, x, w, q, y) && HighSaving(v, w, x, y, l, m, e0)
    ensures VoltageWins(nc, v, r + l, x, w, q + m, y)
  {
    var a, z := w * w - v * v, x * y;
    ProductMonotone(v, w, v, w);
    Nonnegative(x, y);
    Nonnegative(a, z);
    Nonnegative(nc - b - 33.0 * e0, a * z);
    Distribute(nc, b, 33.0 * e0, a, z);
    assert (r + l) * y == r * y + l * y && (q + m) * x == q * x + m * x;
  }

  lemma Distribute(nc: real, b: real, l: real, a: real, z: real)
    ensures (nc - b - l) * (a * z) == nc * a * z - b * a * z - l * a * z
  {
    var p := a * z;
    assert nc * a * z == nc * p && b * a * z == b * p && l * a * z == l * p;
    assert (nc - b - l) * p == nc * p - b * p - l * p;
  }

  // ---------------------------------------------------------------- the steps of the sweep

  function VoltsAt(i: nat): real {
    Volts(FreqAt(i))
  }

  function RingPower(i: nat): real {
    RingAt(Volts(RingHz(FreqAt(i))), RingHz(FreqAt(i)))
  }

  /** Step `i` costs more than it saves, with leakage per volt `e`. */
  predicate Pays(nc: real, e: real -> real, i: nat) {
    VoltageWins(nc, VoltsAt(i), RingPower(i) + Scaled(VoltsAt(i), e(VoltsAt(i))), Ghz(i),
                VoltsAt(i + 1), RingPower(i + 1) + Scaled(VoltsAt(i + 1), e(VoltsAt(i + 1))), Ghz(i + 1))
  }

  lemma LowRing(i: nat)
    requires i <= 16
    ensures RingPower(i) == 0.203456
  {
    RingLimits(i);
    LowVolts(16);
  }

  lemma HighRing(i: nat)
    requires 140 <= i
    ensures RingPower(i) == RingPower(140) && 0.0 <= RingPower(i) <= 2.8
  {
    RingLimits(i);
    RingLimits(140);
    HighVolts(140);
    var v := VoltsAt(140);
    assert 1.1 <= v <= 1.1384;
    ProductMonotone(v, 1.1384, v, 1.1384);
    assert RingAt(v, FreqAt(140)) == C_RING * (v * v) * 3.9;
  }

  lemma BottomPays(nc: real, e: real -> real)
    ensures Pays(nc, e, 0) <==> EnoughFor(nc, Saving(e))
  {
    LowVolts(0);
    LowVolts(1);
    LowRing(0);
    LowRing(1);
    BottomStep(nc, Scaled(0.65, e(0.65)), Scaled(0.651875, e(0.651875)));
  }

  lemma LowLeakHolds(e: real -> real, i: nat, v: real, w: real)
    requires Growing(e) && LowPoint(i, v, w)
    ensures LowSaving(i, Scaled(v, e(v)), Scaled(w, e(w)), Saving(e))
  {
    var t := 1.0 - 0.00625 * i as real;
    Slopes(e, v, w, 1.00625);
    Slopes(e, v, 0.65, t);
    SavingBound(e);
    LeakDeficit(i, v, w, e(v), e(w));
    Stretch(i, t, Ghz(i) * Ghz(i + 1));
    LowChain(e(0.65), e(v), t, Ghz(i) * Ghz(i + 1), Saving(e));
  }

  lemma LowPays(nc: real, e: real -> real, i: nat)
    requires Growing(e) && EnoughFor(nc, Saving(e)) && 0 < i < 16
    ensures Pays(nc, e, i)
  {
    LowVolts(i);
    LowVolts(i + 1);
    LowRing(i);
    LowRing(i + 1);
    var v, w := VoltsAt(i), VoltsAt(i + 1);
    LowLeakHolds(e, i, v, w);
    SavingBound(e);
    LowStep(nc, i, v, w, Scaled(v, e(v)), Scaled(w, e(w)), Saving(e));
  }

  lemma AnchorAt56()
    ensures VoltsAt(56) == 0.83
  {
    GhzOf(56);
    assert VF_ANCHORS[3] == Anchor(1800.0, 0.83) && VF_ANCHORS[4] == Anchor(2400.0, 0.925);
    VoltsOnChord(3, FreqAt(56));
  }

  lemma UpperPoint(i: nat)
    requires 16 <= i < 144
    ensures HighPoint(VoltsAt(i), VoltsAt(i + 1), Ghz(i), Ghz(i + 1))
  {
    StepRises(i);
    LowVolts(16);
    VoltsMonotone(FreqAt(16), FreqAt(i));
    VoltsBounded(FreqAt(i));
    if i < 56 {
      AnchorAt56();
      VoltsMonotone(FreqAt(i), FreqAt(56));
    }
  }

  lemma UpperLeak(e: real -> real, v: real, w: real, x: real, y: real)
    requires Growing(e) && HighPoint(v, w, x, y)
    ensures HighSaving(v, w, x, y, Scaled(v, e(v)), Scaled(w, e(w)), e(0.65))
  {
    GrowthBound(e, v);
    Slopes(e, v, w, 1.0 + (w - v) / VT_EFF_V);
    NoDearer(v, w, x, y, e(v), e(w));
    SmallShare(v, x, e(v), e(0.65), Scaled(v, e(v)));
    CostlyStep(v, w, x, y, Scaled(v, e(v)), Scaled(w, e(w)), e(0.65));
  }

  lemma UpperRing(i: nat)
    requires 16 <= i < 144 && 0.0 < VoltsAt(i) <= VoltsAt(i + 1)
    ensures VoltageWins(12.0, VoltsAt(i), RingPower(i), Ghz(i), VoltsAt(i + 1), RingPower(i + 1), Ghz(i + 1))
  {
    if i < 140 {
      RingLimits(i);
      RingLimits(i + 1);
      GhzOf(i);
      GhzOf(i + 1);
      MiddleStep(12.0, VoltsAt(i), VoltsAt(i + 1), Ghz(i), Ghz(i + 1));
    } else {
      HighVolts(i);
      HighVolts(i + 1);
      HighRing(i);
      HighRing(i + 1);
      HighStep(12.0, i, VoltsAt(i), VoltsAt(i + 1), RingPower(i));
    }
  }

  lemma UpperPays(nc: real, e: real -> real, i: nat)
    requires Growing(e) && EnoughFor(nc, Saving(e)) && 16 <= i < 144
    ensures Pays(nc, e, i)
  {
    var v, w := VoltsAt(i), VoltsAt(i + 1);
    UpperPoint(i);
    UpperLeak(e, v, w, Ghz(i), Ghz(i + 1));
    UpperRing(i);
    SavingBound(e);
    AddLeakage(nc, 12.0, e(0.65), v, RingPower(i), Ghz(i), w, RingPower(i + 1), Ghz(i + 1),
               Scaled(v, e(v)), Scaled(w, e(w)));
  }

  // ---------------------------------------------------------------- the whole sweep

  ghost predicate ShippedCurve(l: Laws) {
    l.volts == Shipped(l.exp).volts
  }

  /** The shipped voltage curve, some work to do, and no leakage or an exponential one. */
  ghost predicate Setting(ph: Physics, n: nat, work: real) {
    && n > 0 && work > 0.0 && ShippedCurve(ph.laws)
    && (ph.kLeak == 0.0 || (ph.kLeak > 0.0 && ph.tempFactor > 0.0 && Exponential(ph.laws.exp)))
  }

  /** Leakage per volt of the package, `n` of its cores active. */
  function PerVolt(ph: Physics, n: nat, v: real): real {
    Scaled(Weight(ph, n), ph.laws.exp(v / VT_EFF_V))
  }

  function Weight(ph: Physics, n: nat): real {
    Leaking(n, if n < N_PHYS_CORES then N_PHYS_CORES else n) * (ph.kLeak * ph.tempFactor)
  }

  lemma LeakageIs(ph: Physics, n: nat, v: real)
    ensures Leakage(ph, n, v) == Scaled(v, PerVolt(ph, n, v))
  {
    var m, x := Leaking(n, if n < N_PHYS_CORES then N_PHYS_CORES else n), ph.laws.exp(v / VT_EFF_V);
    Regroup(m, ph.kLeak, v, x, ph.tempFactor);
  }

  lemma Regroup(m: real, k: real, v: real, x: real, t: real)
    ensures Scaled(m, k * (v * x) * t) == Scaled(v, Scaled(m * (k * t), x))
  {
    var kt, vx := k * t, v * x;
    assert k * vx * t == kt * vx;
    assert m * (kt * vx) == (m * kt) * vx;
    var a := m * kt;
    assert a * (v * x) == v * (a * x);
  }

  lemma WeightSign(ph: Physics, n: nat, work: real)
    requires Setting(ph, n, work)
    ensures Weight(ph, n) >= 0.0 && (ph.kLeak == 0.0 ==> Weight(ph, n) == 0.0)
  {
    if ph.kLeak > 0.0 {
      Nonnegative(ph.kLeak, ph.tempFactor);
      Nonnegative(Leaking(n, if n < N_PHYS_CORES then N_PHYS_CORES else n), ph.kLeak * ph.tempFactor);
    }
  }

  lemma ScaledSlope(g: real, a: real, b: real, h: real)
    requires g >= 0.0 && b >= Scaled(a, h)
    ensures Scaled(g, b) >= Scaled(Scaled(g, a), h)
  {
    Nonnegative(g, b - a * h);
    assert g * (b - a * h) == g * b - (g * a) * h;
  }

  /** Leakage is what the step lemmas need it to be. */
  lemma LeakageGrows(ph: Physics, n: nat, work: real) returns (e: real -> real)
    requires Setting(ph, n, work)
    ensures Growing(e) && forall v: real :: e(v) == PerVolt(ph, n, v)
  {
    var g := Weight(ph, n);
    WeightSign(ph, n, work);
    e := v => PerVolt(ph, n, v);
    forall v: real ensures e(v) >= 0.0 {
      PerVoltGrows(ph, n, work, v, v);
    }
    forall u: real, v: real ensures AboveSlope(e, u, v) {
      PerVoltGrows(ph, n, work, u, v);
    }
  }

  lemma PerVoltGrows(ph: Physics, n: nat, work: real, u: real, v: real)
    requires Setting(ph, n, work)
    ensures PerVolt(ph, n, v) >= 0.0
    ensures PerVolt(ph, n, v) >= Scaled(PerVolt(ph, n, u), 1.0 + (v - u) / VT_EFF_V)
  {
    var g, a, b := Weight(ph, n), ph.laws.exp(u / VT_EFF_V), ph.laws.exp(v / VT_EFF_V);
    WeightSign(ph, n, work);
    if ph.kLeak > 0.0 {
      assert AboveTangent(ph.laws.exp, v / VT_EFF_V, u / VT_EFF_V);
      assert v / VT_EFF_V - u / VT_EFF_V == (v - u) / VT_EFF_V;
      ScaledSlope(g, a, b, 1.0 + (v - u) / VT_EFF_V);
      Nonnegative(g, b);
    }
  }

  function EnergyAt(ph: Physics, n: nat, work: real, i: nat): real
    requires n > 0
  {
    PointAt(ph, n, work, FreqAt(i)).eNoFloor
  }

  lemma StepOrder(ph: Physics, n: nat, work: real, e: real -> real, i: nat)
    requires Setting(ph, n, work) && forall v: real :: e(v) == PerVolt(ph, n, v)
    ensures EnergyAt(ph, n, work, i) <= EnergyAt(ph, n, work, i + 1) <==> Pays(Capacity(ph, n), e, i)
  {
    var v, w := VoltsAt(i), VoltsAt(i + 1);
    GhzOf(i);
    GhzOf(i + 1);
    LeakageIs(ph, n, v);
    LeakageIs(ph, n, w);
    PointOrder(ph, n, work, FreqAt(i), FreqAt(i + 1),
               v, RingPower(i) + Scaled(v, e(v)), Ghz(i), EnergyAt(ph, n, work, i),
               w, RingPower(i + 1) + Scaled(w, e(w)), Ghz(i + 1), EnergyAt(ph, n, work, i + 1));
  }

  /** What the lowest step, from 425 to 400 MHz, saves on leakage power per cycle. */
  function LeakSaving(ph: Physics, n: nat): real {
    0.425 * Leakage(ph, n, 0.65) - 0.4 * Leakage(ph, n, 0.651875)
  }

  predicate Enough(ph: Physics, n: nat) {
    EnoughFor(Capacity(ph, n), LeakSaving(ph, n))
  }

  lemma SavingIs(ph: Physics, n: nat, e: real -> real)
    requires forall v: real :: e(v) == PerVolt(ph, n, v)
    ensures LeakSaving(ph, n) == Saving(e)
  {
    LeakageIs(ph, n, 0.65);
    LeakageIs(ph, n, 0.651875);
  }

  /** Energy without the floor never falls as the frequency rises. */
  ghost predicate FallsTowardsTheBottom(curve: seq<Point>) {
    forall i :: 0 <= i < |curve| - 1 ==> curve[i].eNoFloor <= curve[i + 1].eNoFloor
  }

  lemma SweepIsLong(ph: Physics, n: nat, work: real, curve: seq<Point>)
    requires n > 0 && IsSweep(ph, n, work, curve)
    ensures 2 <= |curve| <= 145
  {
    assert FreqAt(1) <= TurboLimit(n) + 1.0 < FreqAt(145);
  }

  lemma AllPay(nc: real, e: real -> real, i: nat)
    requires Growing(e) && i < 144
    ensures EnoughFor(nc, Saving(e)) ==> Pays(nc, e, i)
    ensures i == 0 && Pays(nc, e, i) ==> EnoughFor(nc, Saving(e))
  {
    if i == 0 {
      BottomPays(nc, e);
    } else if EnoughFor(nc, Saving(e)) {
      if i < 16 {
        LowPays(nc, e, i);
      } else {
        UpperPays(nc, e, i);
      }
    }
  }

  /** A sweep as the step lemmas see it: step `i` raises the energy exactly when it pays. */
  ghost predicate Decided(energy: nat -> real, nc: real, e: real -> real, i: nat) {
    energy(i) <= energy(i + 1) <==> Pays(nc, e, i)
  }

  lemma Abstracted(ph: Physics, n: nat, work: real) returns (energy: nat -> real, nc: real, e: real -> real)
    requires Setting(ph, n, work)
    ensures forall i: nat :: energy(i) == EnergyAt(ph, n, work, i)
    ensures forall i: nat :: Decided(energy, nc, e, i)
    ensures Growing(e) && (Enough(ph, n) <==> EnoughFor(nc, Saving(e)))
  {
    energy, nc := (i: nat) => EnergyAt(ph, n, work, i), Capacity(ph, n);
    e := LeakageGrows(ph, n, work);
    SavingIs(ph, n, e);
    forall i: nat ensures Decided(energy, nc, e, i) {
      StepOrder(ph, n, work, e, i);
    }
  }

  /** The lowest step decides for all. */
  lemma BottomDecides(energy: nat -> real, nc: real, e: real -> real, last: nat)
    requires Growing(e) && 1 <= last <= 144 && forall i: nat :: Decided(energy, nc, e, i)
    ensures (forall i: nat :: i < last ==> energy(i) <= energy(i + 1)) <==> EnoughFor(nc, Saving(e))
  {
    assert Decided(energy, nc, e, 0);
    assert energy(0) <= energy(0 + 1) <==> Pays(nc, e, 0);
    BottomPays(nc, e);
    if EnoughFor(nc, Saving(e)) {
      forall i: nat | i < last ensures energy(i) <= energy(i + 1) {
        assert Decided(energy, nc, e, i);
        AllPay(nc, e, i);
      }
    }
  }

  /** The claim holds exactly when the lowest step pays for the ring and leakage power it saves: that
      step decides the whole sweep. */
  lemma FallsExactlyWhenEnough(ph: Physics, n: nat, work: real, curve: seq<Point>)
    requires Setting(ph, n, work) && IsSweep(ph, n, work, curve)
    ensures FallsTowardsTheBottom(curve) <==> Enough(ph, n)
  {
    SweepIsLong(ph, n, work, curve);
    var energy, nc, e := Abstracted(ph, n, work);
    BottomDecides(energy, nc, e, |curve| - 1);
    FallsAsEnergies(ph, n, work, curve, energy);
  }

  lemma FallsAsEnergies(ph: Physics, n: nat, work: real, curve: seq<Point>, energy: nat -> real)
    requires n > 0 && IsSweep(ph, n, work, curve) && forall i: nat :: energy(i) == EnergyAt(ph, n, work, i)
    ensures FallsTowardsTheBottom(curve) <==> forall i: nat :: i < |curve| - 1 ==> energy(i) <= energy(i + 1)
  {
    assert forall i :: 0 <= i < |curve| ==> curve[i].eNoFloor == energy(i);
  }

  lemma BarRises(nc: real, saving: real)
    requires saving >= 0.0
    ensures EnoughFor(nc, saving) ==> EnoughFor(nc, 0.0)
  {
  }

  lemma SavingSign(ph: Physics, n: nat, work: real)
    requires Setting(ph, n, work)
    ensures LeakSaving(ph, n) >= 0.0 && (ph.kLeak == 0.0 ==> LeakSaving(ph, n) == 0.0)
  {
    var e := LeakageGrows(ph, n, work);
    SavingIs(ph, n, e);
    SavingBound(e);
    if ph.kLeak == 0.0 {
      WeightSign(ph, n, work);
      LeakageIs(ph, n, 0.65);
      LeakageIs(ph, n, 0.651875);
    }
  }

  /** Leakage only raises the bar, which is a constant without it. */
  lemma LeakageRaisesTheBar(ph: Physics, n: nat, work: real)
    requires Setting(ph, n, work)
    ensures Enough(ph, n) ==> EnoughFor(Capacity(ph, n), 0.0)
    ensures ph.kLeak == 0.0 ==> (Enough(ph, n) <==> EnoughFor(Capacity(ph, n), 0.0))
  {
    SavingSign(ph, n, work);
    BarRises(Capacity(ph, n), LeakSaving(ph, n));
  }

  /** The shipped capacitance is too small for every core count of the part, at any leakage. */
  lemma ShippedCapacitanceIsNotEnough(ph: Physics, n: nat, work: real, curve: seq<Point>)
    requires Setting(ph, n, work) && IsSweep(ph, n, work, curve)
    requires ph.cEff == C_EFF_PRIOR && n <= N_PHYS_CORES
    ensures !FallsTowardsTheBottom(curve)
  {
    FallsExactlyWhenEnough(ph, n, work, curve);
    LeakageRaisesTheBar(ph, n, work);
  }

  /** `PARAMS` as shipped, beside any exponential and temperature. */
  function ShippedPhysics(exp: real -> real, tempFactor: real): Physics {
    Physics(C_EFF_PRIOR, K_LEAK_PRIOR, P_SA_FLOOR_PRIOR, tempFactor, Shipped(exp))
  }

  /** So the claim is false of the program as it ships, for every core count of the part. */
  lemma ShippedClaimFails(exp: real -> real, tempFactor: real, n: nat, work: real, curve: seq<Point>)
    requires Exponential(exp) && tempFactor > 0.0 && 0 < n <= N_PHYS_CORES && work > 0.0
    requires IsSweep(ShippedPhysics(exp, tempFactor), n, work, curve)
    ensures !FallsTowardsTheBottom(curve)
  {
    var ph := ShippedPhysics(exp, tempFactor);
    ShippedCapacitanceIsNotEnough(ph, n, work, curve);
  }
}
