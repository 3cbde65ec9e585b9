/**
 `package_power` of sim/rail_model.py: the loop over cores against a sum per component, monotone in
 every core's frequency, and never cheaper on a shared rail than on split rails; exactly when the
 two differ.
 */
module PackagePower {
  import opened Wrappers
  import opened RailModel

  type Cores = seq<Core>

  datatype Power = Power(
    dyn: real, leak: real, sa: real, ring: real, traffic: real, vRail: real, fMax: real)
  {
    function Total(): real {
      dyn + leak + (sa + ring + traffic)
    }
  }

  // ---------------------------------------------------------------- the terms

  /** The highest frequency among the first `k` cores that are active. */
  function Top(s: Cores, k: nat): (r: Option<real>)
    requires k <= |s|
    ensures r.None? <==> forall i :: 0 <= i < k ==> !Active(s[i])
    ensures r.Some? ==> exists i :: 0 <= i < k && Active(s[i]) && s[i].f == r.value
    ensures r.Some? ==> forall i :: 0 <= i < k && Active(s[i]) ==> s[i].f <= r.value
  {
    if k == 0 then None
    else
      var r := Top(s, k - 1);
      if Active(s[k - 1]) && (r.None? || s[k - 1].f > r.value) then Some(s[k - 1].f) else r
  }

  function Leak(ph: Physics, v: real, active: bool): real {
    var g := ph.kLeak * (v * ph.laws.exp(v / VT_EFF_V)) * ph.tempFactor;
    if active then g else g * C6_LEAK_RESIDUAL
  }

  function Dynamic(ph: Physics, v: real, c: Core): real {
    if Active(c) then c.a * ph.cEff * (v * v) * (c.f / GIGA) else 0.0
  }

  /** The voltage a core pays for. */
  function CoreVolts(l: Laws, c: Core, vRail: real, shared: bool): real {
    if shared then vRail else l.volts(if Active(c) then c.f else F_MIN_HZ)
  }

  function DynamicSum(ph: Physics, s: Cores, vRail: real, shared: bool, k: nat): real
    requires k <= |s|
  {
    if k == 0 then 0.0
    else DynamicSum(ph, s, vRail, shared, k - 1) + Dynamic(ph, CoreVolts(ph.laws, s[k - 1], vRail, shared), s[k - 1])
  }

  function LeakSum(ph: Physics, s: Cores, vRail: real, shared: bool, k: nat): real
    requires k <= |s|
  {
    if k == 0 then 0.0
    else LeakSum(ph, s, vRail, shared, k - 1) + Leak(ph, CoreVolts(ph.laws, s[k - 1], vRail, shared), Active(s[k - 1]))
  }

  /** Every core gated at voltage `v`. */
  function GatedSum(ph: Physics, v: real, k: nat): real {
    if k == 0 then 0.0 else GatedSum(ph, v, k - 1) + Leak(ph, v, false)
  }

  function GigaCycles(s: Cores, k: nat): real
    requires k <= |s|
  {
    if k == 0 then 0.0
    else GigaCycles(s, k - 1) + if Active(s[k - 1]) then s[k - 1].a * s[k - 1].f / GIGA else 0.0
  }

  /** The ring follows the fastest core between its own limits. */
  function RingHz(f: real): real {
    var g := if f < F_RING_MIN_HZ then F_RING_MIN_HZ else f;
    if g > F_RING_MAX_HZ then F_RING_MAX_HZ else g
  }

  function RingAt(v: real, f: real): real {
    C_RING * (v * v) * (f / GIGA)
  }

  function Ring(l: Laws, f: real): real {
    RingAt(l.volts(RingHz(f)), RingHz(f))
  }

  function Package(ph: Physics, s: Cores, shared: bool): Power {
    var top := Top(s, |s|);
    if top.None? then
      Power(0.0, GatedSum(ph, ph.laws.volts(F_MIN_HZ), |s|), P_PKG_C6_W, 0.0, 0.0, ph.laws.volts(F_MIN_HZ), 0.0)
    else
      var v := ph.laws.volts(top.value);
      Power(DynamicSum(ph, s, v, shared, |s|), LeakSum(ph, s, v, shared, |s|), ph.saFloor, Ring(ph.laws, top.value),
            K_TRAFFIC * GigaCycles(s, |s|), v, top.value)
  }

  method FastestActive(s: Cores) returns (top: Option<real>)
    ensures top == Top(s, |s|)
  {
    top := None;
    var i := 0;
    while i < |s|
      invariant 0 <= i <= |s| && top == Top(s, i)
    {
      if Active(s[i]) && (top.None? || s[i].f > top.value) {
        top := Some(s[i].f);
      }
      i := i + 1;
    }
  }

  method SumCores(ph: Physics, s: Cores, vRail: real, shared: bool) returns (dyn: real, leak: real, ghz: real)
    ensures dyn == DynamicSum(ph, s, vRail, shared, |s|)
    ensures leak == LeakSum(ph, s, vRail, shared, |s|)
    ensures ghz == GigaCycles(s, |s|)
  {
    dyn, leak, ghz := 0.0, 0.0, 0.0;
    var i := 0;
    while i < |s|
      invariant 0 <= i <= |s|
      invariant dyn == DynamicSum(ph, s, vRail, shared, i)
      invariant leak == LeakSum(ph, s, vRail, shared, i)
      invariant ghz == GigaCycles(s, i)
    {
      var v := CoreVolts(ph.laws, s[i], vRail, shared);
      if Active(s[i]) {
        dyn := dyn + Dynamic(ph, v, s[i]);
        ghz := ghz + s[i].a * s[i].f / GIGA;
      }
      leak := leak + Leak(ph, v, Active(s[i]));
      i := i + 1;
    }
  }

  /** `package_power`. */
  method Compute(ph: Physics, s: Cores, shared: bool) returns (r: Power)
    ensures r == Package(ph, s, shared)
  {
    var top := FastestActive(s);
    if top.None? {
      var vIdle, leak, i := ph.laws.volts(F_MIN_HZ), 0.0, 0;
      while i < |s|
        invariant 0 <= i <= |s| && leak == GatedSum(ph, vIdle, i)
      {
        leak := leak + Leak(ph, vIdle, false);
        i := i + 1;
      }
      return Power(0.0, leak, P_PKG_C6_W, 0.0, 0.0, vIdle, 0.0);
    }
    var vRail := ph.laws.volts(top.value);
    var dyn, leak, ghz := SumCores(ph, s, vRail, shared);
    r := Power(dyn, leak, ph.saFloor, Ring(ph.laws, top.value), K_TRAFFIC * ghz, vRail, top.value);
  }

  // ---------------------------------------------------------------- what activity costs

  /** The core list with another activity of core `i`. */
  function WithActivity(s: Cores, i: nat, b: real): Cores
    requires i < |s|
  {
    s[i := Core(s[i].f, b)]
  }

  /** `top` is the frequency of the fastest active core. */
  ghost predicate Fastest(s: Cores, top: real) {
    && (exists k :: 0 <= k < |s| && Active(s[k]) && s[k].f == top)
    && forall k :: 0 <= k < |s| && Active(s[k]) ==> s[k].f <= top
  }

  lemma FastestIsTop(s: Cores, top: real)
    requires Fastest(s, top)
    ensures Top(s, |s|) == Some(top)
  {
  }

  lemma SameFastest(s: Cores, i: nat, b: real, top: real)
    requires i < |s| && Active(s[i]) && b > ACTIVITY_C6_EPS && Fastest(s, top)
    ensures Fastest(WithActivity(s, i, b), top)
  {
    var t := WithActivity(s, i, b);
    var k :| 0 <= k < |s| && Active(s[k]) && s[k].f == top;
    assert Active(t[k]) && t[k].f == top;
  }

  lemma DynamicPerActivity(ph: Physics, v: real, f: real, a: real, b: real)
    requires a > ACTIVITY_C6_EPS && b > ACTIVITY_C6_EPS
    ensures Dynamic(ph, v, Core(f, b)) - Dynamic(ph, v, Core(f, a)) == (b - a) * (f / GIGA) * (ph.cEff * (v * v))
  {
    var c, w, x := ph.cEff, v * v, f / GIGA;
    var cwx := c * w * x;
    assert b * c * w * x == b * cwx && a * c * w * x == a * cwx;
    assert b * cwx - a * cwx == (b - a) * cwx;
    assert (b - a) * x * (c * w) == (b - a) * cwx;
  }

  /** Changing the activity of one core changes the sums by its own terms. */
  lemma {:induction false} SumsPerActivity(ph: Physics, s: Cores, i: nat, b: real, vRail: real, shared: bool, k: nat)
    requires i < |s| && Active(s[i]) && b > ACTIVITY_C6_EPS && k <= |s|
    ensures var t, v := WithActivity(s, i, b), CoreVolts(ph.laws, s[i], vRail, shared);
            && DynamicSum(ph, t, vRail, shared, k) == DynamicSum(ph, s, vRail, shared, k)
                 + (if i < k then Dynamic(ph, v, t[i]) - Dynamic(ph, v, s[i]) else 0.0)
            && LeakSum(ph, t, vRail, shared, k) == LeakSum(ph, s, vRail, shared, k)
  {
    if k > 0 {
      SumsPerActivity(ph, s, i, b, vRail, shared, k - 1);
    }
  }

  function Cycles(c: Core): real {
    if Active(c) then c.a * c.f / GIGA else 0.0
  }

  lemma LastCycles(s: Cores, k: nat)
    requires 0 < k <= |s|
    ensures GigaCycles(s, k) == GigaCycles(s, k - 1) + Cycles(s[k - 1])
  {
  }

  lemma {:induction false} CyclesPerActivity(s: Cores, i: nat, b: real, k: nat)
    requires i < |s| && k <= |s|
    ensures var t := WithActivity(s, i, b);
            GigaCycles(t, k) == GigaCycles(s, k) + if i < k then Cycles(t[i]) - Cycles(s[i]) else 0.0
  {
    if k > 0 {
      CyclesPerActivity(s, i, b, k - 1);
      LastCycles(s, k);
      LastCycles(WithActivity(s, i, b), k);
    }
  }

  lemma CyclesDiffer(f: real, a: real, b: real)
    requires a > ACTIVITY_C6_EPS && b > ACTIVITY_C6_EPS
    ensures Cycles(Core(f, b)) - Cycles(Core(f, a)) == (b - a) * (f / GIGA)
  {
    assert b * f / GIGA - a * f / GIGA == (b - a) * (f / GIGA);
  }

  /** What `m` more activity costs at frequency `f` and voltage `v`: switching power and uncore traffic. */
  function Price(cEff: real, v: real, f: real, m: real): real {
    m * (f / GIGA) * (cEff * (v * v) + 0.12)
  }

  /** What core `c` at activity `b` costs more than at its own. */
  function MoreCost(ph: Physics, v: real, c: Core, b: real): real {
    Dynamic(ph, v, Core(c.f, b)) - Dynamic(ph, v, c) + K_TRAFFIC * (Cycles(Core(c.f, b)) - Cycles(c))
  }

  lemma CostsDiffer(ph: Physics, v: real, c: Core, b: real)
    requires Active(c) && b > ACTIVITY_C6_EPS
    ensures MoreCost(ph, v, c, b) == Price(ph.cEff, v, c.f, b - c.a)
  {
    var f, a := c.f, c.a;
    assert c == Core(f, a);
    DynamicPerActivity(ph, v, f, a, b);
    CyclesDiffer(f, a, b);
    var mx, y := (b - a) * (f / GIGA), ph.cEff * (v * v);
    assert mx * (y + K_TRAFFIC) == mx * y + K_TRAFFIC * mx;
  }

  /** The total on a rail at voltage `vRail`, ring power aside. */
  lemma TotalOf(ph: Physics, s: Cores, shared: bool, top: real)
    requires Top(s, |s|) == Some(top)
    ensures var v := ph.laws.volts(top);
            Package(ph, s, shared).Total() == DynamicSum(ph, s, v, shared, |s|) + LeakSum(ph, s, v, shared, |s|)
              + (ph.saFloor + Ring(ph.laws, top) + K_TRAFFIC * GigaCycles(s, |s|))
  {
  }

  lemma TrafficDiffers(g: real, h: real, d: real)
    requires h == g + d
    ensures K_TRAFFIC * h == K_TRAFFIC * g + K_TRAFFIC * d
  {
  }

  lemma TotalDiffers(ph: Physics, s: Cores, i: nat, b: real, shared: bool, top: real, v: real)
    requires i < |s| && Active(s[i]) && b > ACTIVITY_C6_EPS && Fastest(s, top)
    requires v == CoreVolts(ph.laws, s[i], ph.laws.volts(top), shared)
    ensures Package(ph, WithActivity(s, i, b), shared).Total()
            == Package(ph, s, shared).Total() + MoreCost(ph, v, s[i], b)
  {
    var t := WithActivity(s, i, b);
    SameFastest(s, i, b, top);
    FastestIsTop(s, top);
    FastestIsTop(t, top);
    TotalOf(ph, s, shared, top);
    TotalOf(ph, t, shared, top);
    SumsPerActivity(ph, s, i, b, ph.laws.volts(top), shared, |s|);
    CyclesPerActivity(s, i, b, |s|);
    TrafficDiffers(GigaCycles(s, |s|), GigaCycles(t, |s|), Cycles(t[i]) - Cycles(s[i]));
  }

  /** One more unit of activity of an active core costs its switching power at the voltage it runs at, the
      rail's on a shared rail and its own on split rails, and its uncore traffic; nothing else changes. */
  lemma ActivityCosts(ph: Physics, s: Cores, i: nat, b: real, shared: bool, top: real, v: real)
    requires i < |s| && Active(s[i]) && b > ACTIVITY_C6_EPS && Fastest(s, top)
    requires v == ph.laws.volts(if shared then top else s[i].f)
    ensures Package(ph, WithActivity(s, i, b), shared).Total()
            == Package(ph, s, shared).Total() + Price(ph.cEff, v, s[i].f, b - s[i].a)
  {
    TotalDiffers(ph, s, i, b, shared, top, v);
    CostsDiffer(ph, v, s[i], b);
  }

  // ---------------------------------------------------------------- one core

  lemma VoltsOrder(l: Laws, f: real, g: real)
    requires Lawful(l) && f <= g
    ensures l.volts(f) <= l.volts(g)
  {
  }

  lemma VoltsPositive(l: Laws, f: real)
    requires Lawful(l)
    ensures 0.0 < l.volts(F_MIN_HZ) <= l.volts(f)
  {
  }

  lemma LeakMonotone(ph: Physics, v: real, w: real, active: bool)
    requires Sane(ph) && 0.0 <= v <= w
    ensures 0.0 <= Leak(ph, v, active) <= Leak(ph, w, active)
  {
    assert v / VT_EFF_V <= w / VT_EFF_V;
    var x, y := ph.laws.exp(v / VT_EFF_V), ph.laws.exp(w / VT_EFF_V);
    assert 0.0 <= x <= y;
    ProductMonotone(v, w, x, y);
    ProductMonotone(ph.kLeak, ph.kLeak, v * x, w * y);
    ProductMonotone(ph.kLeak * (v * x), ph.kLeak * (w * y), ph.tempFactor, ph.tempFactor);
  }

  lemma DynamicMonotone(ph: Physics, v: real, w: real, c: Core, d: Core)
    requires Sane(ph) && 0.0 <= v <= w && c.a == d.a && (Active(c) ==> 0.0 <= c.f <= d.f)
    ensures 0.0 <= Dynamic(ph, v, c) <= Dynamic(ph, w, d)
  {
    if Active(c) {
      ProductMonotone(v, w, v, w);
      ProductMonotone(c.a, c.a, ph.cEff, ph.cEff);
      ProductMonotone(c.a * ph.cEff, c.a * ph.cEff, v * v, w * w);
      ProductMonotone(c.a * ph.cEff * (v * v), c.a * ph.cEff * (w * w), c.f / GIGA, d.f / GIGA);
    }
  }

  lemma RingProduct(v: real, w: real, x: real, y: real)
    requires 0.0 <= v <= w && 0.0 <= x <= y
    ensures 0.0 <= RingAt(v, x) <= RingAt(w, y)
  {
    ProductMonotone(v, w, v, w);
    ProductMonotone(C_RING, C_RING, v * v, w * w);
    ProductMonotone(C_RING * (v * v), C_RING * (w * w), x / GIGA, y / GIGA);
  }

  lemma RingMonotone(ph: Physics, f: real, g: real)
    requires Sane(ph) && f <= g
    ensures Ring(ph.laws, f) <= Ring(ph.laws, g)
  {
    VoltsOrder(ph.laws, RingHz(f), RingHz(g));
    VoltsPositive(ph.laws, RingHz(f));
    RingProduct(ph.laws.volts(RingHz(f)), ph.laws.volts(RingHz(g)), RingHz(f), RingHz(g));
  }

  // ---------------------------------------------------------------- more frequency, more power

  /** The same cores, each at least as fast. */
  ghost predicate Faster(s: Cores, t: Cores) {
    |s| == |t| && forall i :: 0 <= i < |s| ==> s[i].a == t[i].a && (Active(s[i]) ==> 0.0 <= s[i].f <= t[i].f)
  }

  lemma FasterTop(s: Cores, t: Cores)
    requires Faster(s, t)
    ensures Top(s, |s|).None? <==> Top(t, |t|).None?
    ensures Top(s, |s|).Some? ==> 0.0 <= Top(s, |s|).value <= Top(t, |t|).value
  {
    var a := Top(s, |s|);
    assert forall i :: 0 <= i < |s| ==> (Active(s[i]) <==> Active(t[i]));
    if a.Some? {
      var i :| 0 <= i < |s| && Active(s[i]) && s[i].f == a.value;
      assert Active(t[i]) && t[i].f <= Top(t, |t|).value;
    }
  }

  lemma CoreVoltsMonotone(ph: Physics, c: Core, d: Core, v: real, w: real, shared: bool)
    requires Sane(ph) && 0.0 <= v <= w && c.a == d.a && (Active(c) ==> c.f <= d.f)
    ensures 0.0 <= CoreVolts(ph.laws, c, v, shared) <= CoreVolts(ph.laws, d, w, shared)
  {
    if !shared {
      var f, g := if Active(c) then c.f else F_MIN_HZ, if Active(d) then d.f else F_MIN_HZ;
      VoltsOrder(ph.laws, f, g);
      VoltsPositive(ph.laws, f);
    }
  }

  lemma {:induction false} SumsMonotone(ph: Physics, s: Cores, t: Cores, v: real, w: real, shared: bool, k: nat)
    requires Sane(ph) && Faster(s, t) && 0.0 <= v <= w && k <= |s|
    ensures DynamicSum(ph, s, v, shared, k) <= DynamicSum(ph, t, w, shared, k)
    ensures LeakSum(ph, s, v, shared, k) <= LeakSum(ph, t, w, shared, k)
  {
    if k > 0 {
      SumsMonotone(ph, s, t, v, w, shared, k - 1);
      var c, d := s[k - 1], t[k - 1];
      CoreVoltsMonotone(ph, c, d, v, w, shared);
      DynamicMonotone(ph, CoreVolts(ph.laws, c, v, shared), CoreVolts(ph.laws, d, w, shared), c, d);
      LeakMonotone(ph, CoreVolts(ph.laws, c, v, shared), CoreVolts(ph.laws, d, w, shared), Active(c));
    }
  }

  lemma {:induction false} CyclesMonotone(s: Cores, t: Cores, k: nat)
    requires Faster(s, t) && k <= |s|
    ensures GigaCycles(s, k) <= GigaCycles(t, k)
  {
    if k > 0 {
      CyclesMonotone(s, t, k - 1);
      if Active(s[k - 1]) {
        ProductMonotone(s[k - 1].a, s[k - 1].a, s[k - 1].f, t[k - 1].f);
      }
    }
  }

  /** Raising any core's frequency never lowers package power, on either kind of rail. */
  lemma PowerMonotone(ph: Physics, s: Cores, t: Cores, shared: bool)
    requires Sane(ph) && Faster(s, t)
    ensures Package(ph, s, shared).Total() <= Package(ph, t, shared).Total()
  {
    FasterTop(s, t);
    var a, b := Top(s, |s|), Top(t, |t|);
    if a.Some? {
      VoltsOrder(ph.laws, a.value, b.value);
      VoltsPositive(ph.laws, a.value);
      SumsMonotone(ph, s, t, ph.laws.volts(a.value), ph.laws.volts(b.value), shared, |s|);
      RingMonotone(ph, a.value, b.value);
      CyclesMonotone(s, t, |s|);
    }
  }

  // ---------------------------------------------------------------- the rail tax

  /** Active cores run at non-negative frequencies. */
  ghost predicate Running(s: Cores) {
    forall i :: 0 <= i < |s| && Active(s[i]) ==> s[i].f >= 0.0
  }

  /** A core that would do with less than the rail gives it. */
  ghost predicate Dragged(l: Laws, c: Core, v: real) {
    CoreVolts(l, c, v, false) < v
  }

  lemma OwnVoltsBelowRail(ph: Physics, s: Cores, top: real, i: nat)
    requires Sane(ph) && i < |s| && Top(s, |s|) == Some(top)
    ensures 0.0 < CoreVolts(ph.laws, s[i], ph.laws.volts(top), false) <= ph.laws.volts(top)
  {
    var f := if Active(s[i]) then s[i].f else F_MIN_HZ;
    VoltsPositive(ph.laws, f);
    VoltsPositive(ph.laws, top);
    if Active(s[i]) {
      VoltsOrder(ph.laws, f, top);
    }
  }

  lemma {:induction false} SumsDominate(ph: Physics, s: Cores, top: real, k: nat)
    requires Sane(ph) && Running(s) && Top(s, |s|) == Some(top) && k <= |s|
    ensures DynamicSum(ph, s, ph.laws.volts(top), false, k) <= DynamicSum(ph, s, ph.laws.volts(top), true, k)
    ensures LeakSum(ph, s, ph.laws.volts(top), false, k) <= LeakSum(ph, s, ph.laws.volts(top), true, k)
  {
    if k > 0 {
      SumsDominate(ph, s, top, k - 1);
      var c, v := s[k - 1], ph.laws.volts(top);
      OwnVoltsBelowRail(ph, s, top, k - 1);
      DynamicMonotone(ph, CoreVolts(ph.laws, c, v, false), v, c, c);
      LeakMonotone(ph, CoreVolts(ph.laws, c, v, false), v, Active(c));
    }
  }

  /** What core `i` leaks on its own rail and on the shared one. */
  lemma LeakOnRails(ph: Physics, s: Cores, top: real, i: nat)
    requires Sane(ph) && Top(s, |s|) == Some(top) && i < |s|
    ensures var v, c := ph.laws.volts(top), s[i];
            && Leak(ph, CoreVolts(ph.laws, c, v, false), Active(c))
               <= Leak(ph, CoreVolts(ph.laws, c, v, true), Active(c))
            && (ph.kLeak > 0.0 && Dragged(ph.laws, c, v) ==>
                  Leak(ph, CoreVolts(ph.laws, c, v, false), Active(c))
                  < Leak(ph, CoreVolts(ph.laws, c, v, true), Active(c)))
  {
    var c, v := s[i], ph.laws.volts(top);
    OwnVoltsBelowRail(ph, s, top, i);
    LeakMonotone(ph, CoreVolts(ph.laws, c, v, false), v, Active(c));
    if ph.kLeak > 0.0 && Dragged(ph.laws, c, v) {
      LeakStrict(ph, CoreVolts(ph.laws, c, v, false), v, Active(c));
    }
  }

  lemma {:induction false} LeakSumStrict(ph: Physics, s: Cores, top: real, k: nat, i: nat)
    requires Sane(ph) && Running(s) && Top(s, |s|) == Some(top) && i < k <= |s|
    requires ph.kLeak > 0.0 && Dragged(ph.laws, s[i], ph.laws.volts(top))
    ensures LeakSum(ph, s, ph.laws.volts(top), false, k) < LeakSum(ph, s, ph.laws.volts(top), true, k)
  {
    LeakOnRails(ph, s, top, k - 1);
    if i == k - 1 {
      SumsDominate(ph, s, top, k - 1);
    } else {
      LeakSumStrict(ph, s, top, k - 1, i);
    }
  }

  lemma {:induction false} NobodyDragged(ph: Physics, s: Cores, top: real, k: nat)
    requires Sane(ph) && Top(s, |s|) == Some(top) && k <= |s|
    requires forall i :: 0 <= i < k ==> !Dragged(ph.laws, s[i], ph.laws.volts(top))
    ensures DynamicSum(ph, s, ph.laws.volts(top), false, k) == DynamicSum(ph, s, ph.laws.volts(top), true, k)
    ensures LeakSum(ph, s, ph.laws.volts(top), false, k) == LeakSum(ph, s, ph.laws.volts(top), true, k)
  {
    if k > 0 {
      NobodyDragged(ph, s, top, k - 1);
      OwnVoltsBelowRail(ph, s, top, k - 1);
      assert CoreVolts(ph.laws, s[k - 1], ph.laws.volts(top), false) == ph.laws.volts(top);
    }
  }

  lemma LeakStrict(ph: Physics, v: real, w: real, active: bool)
    requires Sane(ph) && ph.kLeak > 0.0 && 0.0 < v < w
    ensures Leak(ph, v, active) < Leak(ph, w, active)
  {
    assert v / VT_EFF_V <= w / VT_EFF_V;
    var x, y := ph.laws.exp(v / VT_EFF_V), ph.laws.exp(w / VT_EFF_V);
    assert 0.0 < x <= y;
    ProductStrict(v, w, x, y);
    ProductStrict(v * x, w * y, ph.kLeak, ph.kLeak);
    ProductStrict(ph.kLeak * (v * x), ph.kLeak * (w * y), ph.tempFactor, ph.tempFactor);
  }

  /** A shared rail never costs less than split rails; with leakage it costs strictly more exactly
      when some core, gated or not, would do with less voltage than the fastest one needs. */
  lemma SharedRailCostsMore(ph: Physics, s: Cores)
    requires Sane(ph) && Running(s)
    ensures Package(ph, s, false).Total() <= Package(ph, s, true).Total()
    ensures ph.kLeak > 0.0 ==>
              (Package(ph, s, false).Total() < Package(ph, s, true).Total() <==>
               Top(s, |s|).Some?
               && exists i :: 0 <= i < |s| && Dragged(ph.laws, s[i], ph.laws.volts(Top(s, |s|).value)))
  {
    var top := Top(s, |s|);
    if top.Some? {
      SumsDominate(ph, s, top.value, |s|);
      if ph.kLeak > 0.0 {
        if i :| 0 <= i < |s| && Dragged(ph.laws, s[i], ph.laws.volts(top.value)) {
          LeakSumStrict(ph, s, top.value, |s|, i);
        } else {
          NobodyDragged(ph, s, top.value, |s|);
        }
      }
    }
  }
}
