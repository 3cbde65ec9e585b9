/**
 `freq_under_power_cap` of sim/rail_model.py: the bisection on the package power of a load. Sound,
 tight to 0.1 MHz exactly when it can be, never stopped by its iteration limit, and never faster on
 a shared rail than on split rails.
 */
module PowerCap {
  import opened Wrappers
  import opened RailModel
  import opened PackagePower
  import opened Bisection

  const F_TURBO_MAX_HZ: real := 4000000000.0

  /** `n` cores at activity `a` beside some cores held fixed. */
  datatype Load = Load(n: nat, a: real, others: Cores)

  function States(l: Load, f: real): (s: Cores)
    ensures |s| == l.n + |l.others|
    ensures forall i :: 0 <= i < l.n ==> s[i] == Core(f, l.a)
    ensures forall i :: l.n <= i < |s| ==> s[i] == l.others[i - l.n]
  {
    seq(l.n, _ => Core(f, l.a)) + l.others
  }

  function PowerAt(ph: Physics, l: Load, shared: bool, f: real): real {
    Package(ph, States(l, f), shared).Total()
  }

  function Curve(ph: Physics, l: Load, shared: bool): real -> real {
    f => PowerAt(ph, l, shared, f)
  }

  /** The local function `p_at`. */
  method Measure(ph: Physics, l: Load, shared: bool, f: real) returns (w: real)
    ensures w == Curve(ph, l, shared)(f)
  {
    var power := Compute(ph, States(l, f), shared);
    w := power.Total();
  }

  /** `freq_under_power_cap`. */
  method FreqUnderPowerCap(ph: Physics, l: Load, ceiling: real, cap: real, shared: bool) returns (r: real)
    ensures r == CapFrequency(Curve(ph, l, shared), cap, ceiling, ITERATIONS)
  {
    var atMin := Measure(ph, l, shared, F_MIN_HZ);
    if atMin >= cap {
      return F_MIN_HZ;
    }
    var atCeiling := Measure(ph, l, shared, ceiling);
    if atCeiling <= cap {
      return ceiling;
    }
    r := Search(ph, l, ceiling, cap, shared);
  }

  /** One round of the loop, at most `fuel` of which are left. */
  method Halve(ph: Physics, l: Load, cap: real, shared: bool, lo: real, hi: real, ghost fuel: nat)
    returns (lo': real, hi': real)
    requires fuel >= 1
    ensures var p := Curve(ph, l, shared);
            Bisect(p, cap, lo, hi, fuel) == if hi' - lo' < TOL_HZ then lo' else Bisect(p, cap, lo', hi', fuel - 1)
  {
    var mid := Middle(lo, hi);
    var atMid := Measure(ph, l, shared, mid);
    lo', hi' := lo, hi;
    if atMid > cap {
      hi' := mid;
    } else {
      lo' := mid;
    }
    Round(Curve(ph, l, shared), cap, lo, hi, atMid, lo', hi', fuel);
  }

  method Search(ph: Physics, l: Load, ceiling: real, cap: real, shared: bool) returns (r: real)
    ensures r == Bisect(Curve(ph, l, shared), cap, F_MIN_HZ, ceiling, ITERATIONS)
  {
    var lo, hi, i := F_MIN_HZ, ceiling, 0;
    while i < ITERATIONS
      invariant 0 <= i <= ITERATIONS
      invariant Bisect(Curve(ph, l, shared), cap, lo, hi, ITERATIONS - i)
                == Bisect(Curve(ph, l, shared), cap, F_MIN_HZ, ceiling, ITERATIONS)
    {
      lo, hi := Halve(ph, l, cap, shared, lo, hi, ITERATIONS - i);
      if hi - lo < TOL_HZ {
        return lo;
      }
      i := i + 1;
    }
    r := lo;
  }

  // ---------------------------------------------------------------- the curve

  lemma CurveMonotone(ph: Physics, l: Load, shared: bool, f: real, g: real)
    requires Sane(ph) && Running(l.others) && 0.0 <= f <= g
    ensures PowerAt(ph, l, shared, f) <= PowerAt(ph, l, shared, g)
  {
    PowerMonotone(ph, States(l, f), States(l, g), shared);
  }

  lemma CurveFlat(ph: Physics, l: Load, shared: bool, f: real, g: real)
    requires Sane(ph) && Running(l.others) && (l.n == 0 || l.a <= ACTIVITY_C6_EPS)
    ensures PowerAt(ph, l, shared, f) == PowerAt(ph, l, shared, g)
  {
    PowerMonotone(ph, States(l, f), States(l, g), shared);
    PowerMonotone(ph, States(l, g), States(l, f), shared);
  }

  lemma {:induction false} CyclesStrict(s: Cores, t: Cores, k: nat, i: nat)
    requires Faster(s, t) && i < k <= |s| && Active(s[i]) && s[i].f < t[i].f
    ensures GigaCycles(s, k) < GigaCycles(t, k)
  {
    if i == k - 1 {
      CyclesMonotone(s, t, k - 1);
      ProductStrict(s[i].f, t[i].f, s[i].a, s[i].a);
    } else {
      CyclesStrict(s, t, k - 1, i);
      if Active(s[k - 1]) {
        ProductMonotone(s[k - 1].a, s[k - 1].a, s[k - 1].f, t[k - 1].f);
      }
    }
  }

  lemma PowerStrict(ph: Physics, s: Cores, t: Cores, shared: bool, i: nat)
    requires Sane(ph) && Faster(s, t) && i < |s| && Active(s[i]) && s[i].f < t[i].f
    ensures Package(ph, s, shared).Total() < Package(ph, t, shared).Total()
  {
    FasterTop(s, t);
    var a, b := Top(s, |s|), Top(t, |t|);
    assert a.Some?;
    VoltsOrder(ph.laws, a.value, b.value);
    VoltsPositive(ph.laws, a.value);
    SumsMonotone(ph, s, t, ph.laws.volts(a.value), ph.laws.volts(b.value), shared, |s|);
    RingMonotone(ph, a.value, b.value);
    CyclesStrict(s, t, |s|, i);
  }

  lemma CurveStrict(ph: Physics, l: Load, shared: bool, f: real, g: real)
    requires Sane(ph) && Running(l.others) && 0.0 <= f < g && l.n > 0 && l.a > ACTIVITY_C6_EPS
    ensures PowerAt(ph, l, shared, f) < PowerAt(ph, l, shared, g)
  {
    assert States(l, f)[0] == Core(f, l.a);
    PowerStrict(ph, States(l, f), States(l, g), shared, 0);
  }

  // ---------------------------------------------------------------- the result

  /** `r` keeps the cap and cannot be raised by 0.1 MHz below the ceiling. */
  ghost predicate Tight(p: real -> real, cap: real, ceiling: real, r: real) {
    r == ceiling || p(r + TOL_HZ) > cap
  }

  /** The result lies in the range and keeps a cap that the lowest frequency keeps. */
  lemma CapIsKept(ph: Physics, l: Load, ceiling: real, cap: real, shared: bool)
    requires F_MIN_HZ <= ceiling
    ensures var r := CapFrequency(Curve(ph, l, shared), cap, ceiling, ITERATIONS);
            && F_MIN_HZ <= r <= ceiling
            && (PowerAt(ph, l, shared, F_MIN_HZ) <= cap ==> PowerAt(ph, l, shared, r) <= cap)
            && (PowerAt(ph, l, shared, F_MIN_HZ) >= cap ==> r == F_MIN_HZ)
  {
    BisectInside(Curve(ph, l, shared), cap, F_MIN_HZ, ceiling, ITERATIONS);
  }

  /** Sixteen rounds decide every ceiling up to the turbo limit; the other 44 never run. */
  lemma LimitNeverStopsIt(p: real -> real, cap: real, ceiling: real, fuel: nat)
    requires F_MIN_HZ <= ceiling <= F_TURBO_MAX_HZ && fuel >= 16
    ensures CapFrequency(p, cap, ceiling, fuel) == CapFrequency(p, cap, ceiling, 16)
  {
    SixteenHalvings();
    SpareRounds(p, cap, F_MIN_HZ, ceiling, 16, fuel);
  }

  lemma BreaksAbove(ph: Physics, l: Load, shared: bool, cap: real, f: real, g: real)
    requires Sane(ph) && Running(l.others) && 0.0 <= f <= g && Curve(ph, l, shared)(f) > cap
    ensures Curve(ph, l, shared)(g) > cap
  {
    CurveMonotone(ph, l, shared, f, g);
  }

  lemma BisectionIsTight(ph: Physics, l: Load, ceiling: real, cap: real, shared: bool)
    requires Sane(ph) && Running(l.others) && F_MIN_HZ <= ceiling <= F_TURBO_MAX_HZ
    requires PowerAt(ph, l, shared, F_MIN_HZ) < cap < PowerAt(ph, l, shared, ceiling)
    ensures Tight(Curve(ph, l, shared), cap, ceiling, Bisect(Curve(ph, l, shared), cap, F_MIN_HZ, ceiling, 16))
  {
    var p := Curve(ph, l, shared);
    SixteenHalvings();
    var r := Bisect(p, cap, F_MIN_HZ, ceiling, 16);
    BisectInside(p, cap, F_MIN_HZ, ceiling, 16);
    var h := BisectTight(p, cap, F_MIN_HZ, ceiling, 16);
    BreaksAbove(ph, l, shared, cap, h, r + TOL_HZ);
  }

  /** When the cap can be met at all, the result is tight exactly if the cap is not already used up
      at the lowest frequency by a load that does not react to frequency. */
  lemma CapIsTight(ph: Physics, l: Load, ceiling: real, cap: real, shared: bool)
    requires Sane(ph) && Running(l.others) && F_MIN_HZ <= ceiling <= F_TURBO_MAX_HZ
    requires PowerAt(ph, l, shared, F_MIN_HZ) <= cap
    ensures var p := Curve(ph, l, shared);
            Tight(p, cap, ceiling, CapFrequency(p, cap, ceiling, ITERATIONS)) <==>
            PowerAt(ph, l, shared, F_MIN_HZ) < cap || (l.n > 0 && l.a > ACTIVITY_C6_EPS) || ceiling == F_MIN_HZ
  {
    var p := Curve(ph, l, shared);
    if PowerAt(ph, l, shared, F_MIN_HZ) == cap {
      if l.n > 0 && l.a > ACTIVITY_C6_EPS {
        CurveStrict(ph, l, shared, F_MIN_HZ, F_MIN_HZ + TOL_HZ);
      } else {
        CurveFlat(ph, l, shared, F_MIN_HZ, F_MIN_HZ + TOL_HZ);
      }
    } else if PowerAt(ph, l, shared, ceiling) > cap {
      LimitNeverStopsIt(p, cap, ceiling, ITERATIONS);
      BisectionIsTight(ph, l, ceiling, cap, shared);
    }
  }

  /** The smallest case of the exception, whatever the physics: no core at all, a cap of exactly what an
      idle package draws. The result is the lowest frequency, though the ceiling would keep the cap. */
  lemma IdleCapNotTight(ph: Physics, shared: bool)
    requires Sane(ph)
    ensures var p := Curve(ph, Load(0, 0.0, []), shared);
            && CapFrequency(p, P_PKG_C6_W, F_TURBO_MAX_HZ, ITERATIONS) == F_MIN_HZ
            && !Tight(p, P_PKG_C6_W, F_TURBO_MAX_HZ, F_MIN_HZ)
            && p(F_TURBO_MAX_HZ) <= P_PKG_C6_W
  {
    var l := Load(0, 0.0, []);
    assert PowerAt(ph, l, shared, F_MIN_HZ) == P_PKG_C6_W;
    CapIsTight(ph, l, F_TURBO_MAX_HZ, P_PKG_C6_W, shared);
  }

  /** Under the same cap and ceiling a shared rail never reaches a higher frequency than split rails. */
  lemma SharedRailNeverFaster(ph: Physics, l: Load, ceiling: real, cap: real)
    requires Sane(ph) && Running(l.others) && F_MIN_HZ <= ceiling
    ensures CapFrequency(Curve(ph, l, true), cap, ceiling, ITERATIONS)
            <= CapFrequency(Curve(ph, l, false), cap, ceiling, ITERATIONS)
  {
    var p, q := Curve(ph, l, true), Curve(ph, l, false);
    forall f: real | F_MIN_HZ <= f <= ceiling ensures p(f) >= q(f) {
      SharedRailCostsMore(ph, States(l, f));
    }
    HigherCurveLowerFrequency(p, q, cap, ceiling, ITERATIONS);
  }
}
