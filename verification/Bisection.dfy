/**
 The bisection of `freq_under_power_cap` in sim/rail_model.py for an arbitrary power curve: where it
 ends, when the iteration limit matters, and how two curves compare.
 */
module Bisection {
  import opened RailModel

  const TOL_HZ: real := 100000.0
  const ITERATIONS: nat := 60

  function Middle(lo: real, hi: real): real {
    0.5 * (lo + hi)
  }

  /** At most `fuel` rounds from the interval `[lo, hi]`. */
  function Bisect(p: real -> real, cap: real, lo: real, hi: real, fuel: nat): real
    decreases fuel
  {
    if fuel == 0 then lo
    else
      var mid := Middle(lo, hi);
      if p(mid) > cap then
        if mid - lo < TOL_HZ then lo else Bisect(p, cap, lo, mid, fuel - 1)
      else
        if hi - mid < TOL_HZ then mid else Bisect(p, cap, mid, hi, fuel - 1)
  }

  function CapFrequency(p: real -> real, cap: real, ceiling: real, fuel: nat): real {
    if p(F_MIN_HZ) >= cap then F_MIN_HZ
    else if p(ceiling) <= cap then ceiling
    else Bisect(p, cap, F_MIN_HZ, ceiling, fuel)
  }

  function Pow2(k: nat): real {
    if k == 0 then 1.0 else 2.0 * Pow2(k - 1)
  }

  /** One round, given the power `w` at the middle. */
  lemma Round(p: real -> real, cap: real, lo: real, hi: real, w: real, l: real, h: real, fuel: nat)
    requires w == p(Middle(lo, hi)) && fuel >= 1
    requires if w > cap then l == lo && h == Middle(lo, hi) else l == Middle(lo, hi) && h == hi
    ensures Bisect(p, cap, lo, hi, fuel) == if h - l < TOL_HZ then l else Bisect(p, cap, l, h, fuel - 1)
  {
  }

  // ---------------------------------------------------------------- where it ends

  lemma {:induction false} BisectInside(p: real -> real, cap: real, lo: real, hi: real, fuel: nat)
    requires lo <= hi
    ensures lo <= Bisect(p, cap, lo, hi, fuel) <= hi
    ensures p(lo) <= cap ==> p(Bisect(p, cap, lo, hi, fuel)) <= cap
    decreases fuel
  {
    if fuel > 0 {
      var mid := Middle(lo, hi);
      if p(mid) > cap {
        BisectInside(p, cap, lo, mid, fuel - 1);
      } else {
        BisectInside(p, cap, mid, hi, fuel - 1);
      }
    }
  }

  /** With rounds enough for the width, a point within the tolerance above the result breaks the cap. */
  lemma {:induction false} BisectTight(p: real -> real, cap: real, lo: real, hi: real, fuel: nat)
    returns (h: real)
    requires lo <= hi && p(hi) > cap && fuel >= 1 && hi - lo < TOL_HZ * Pow2(fuel)
    ensures var r := Bisect(p, cap, lo, hi, fuel); r <= h < r + TOL_HZ && h <= hi && p(h) > cap
    decreases fuel
  {
    var mid := Middle(lo, hi);
    if p(mid) > cap {
      if mid - lo < TOL_HZ {
        h := mid;
      } else {
        h := BisectTight(p, cap, lo, mid, fuel - 1);
      }
    } else if hi - mid < TOL_HZ {
      h := hi;
    } else {
      h := BisectTight(p, cap, mid, hi, fuel - 1);
    }
  }

  /** More rounds than the width needs change nothing. */
  lemma {:induction false} SpareRounds(p: real -> real, cap: real, lo: real, hi: real, need: nat, fuel: nat)
    requires lo <= hi && 1 <= need <= fuel && hi - lo < TOL_HZ * Pow2(need)
    ensures Bisect(p, cap, lo, hi, fuel) == Bisect(p, cap, lo, hi, need)
    decreases fuel
  {
    var mid := Middle(lo, hi);
    if mid - lo >= TOL_HZ {
      if p(mid) > cap {
        SpareRounds(p, cap, lo, mid, need - 1, fuel - 1);
      } else {
        SpareRounds(p, cap, mid, hi, need - 1, fuel - 1);
      }
    }
  }

  lemma SixteenHalvings()
    ensures TOL_HZ * Pow2(16) == 6553600000.0
  {
    assert Pow2(4) == 16.0;
    assert Pow2(8) == 256.0;
    assert Pow2(12) == 4096.0;
  }

  // ---------------------------------------------------------------- two curves in lockstep

  /** `p` is at least `q` on the interval. */
  ghost predicate Above(p: real -> real, q: real -> real, lo: real, hi: real) {
    forall f: real :: lo <= f <= hi ==> p(f) >= q(f)
  }

  /** The higher curve never ends above the lower one; neither needs to be monotone. */
  lemma {:induction false} Lockstep(p: real -> real, q: real -> real, cap: real, lo: real, hi: real, fuel: nat)
    requires lo <= hi && Above(p, q, lo, hi)
    ensures Bisect(p, cap, lo, hi, fuel) <= Bisect(q, cap, lo, hi, fuel)
    decreases fuel
  {
    if fuel > 0 {
      var mid := Middle(lo, hi);
      assert p(mid) >= q(mid);
      if q(mid) > cap {
        Lockstep(p, q, cap, lo, mid, fuel - 1);
      } else if p(mid) <= cap {
        Lockstep(p, q, cap, mid, hi, fuel - 1);
      } else {
        BisectInside(p, cap, lo, mid, fuel - 1);
        BisectInside(q, cap, mid, hi, fuel - 1);
      }
    }
  }

  lemma HigherCurveLowerFrequency(p: real -> real, q: real -> real, cap: real, ceiling: real, fuel: nat)
    requires F_MIN_HZ <= ceiling && Above(p, q, F_MIN_HZ, ceiling)
    ensures CapFrequency(p, cap, ceiling, fuel) <= CapFrequency(q, cap, ceiling, fuel)
  {
    assert p(F_MIN_HZ) >= q(F_MIN_HZ) && p(ceiling) >= q(ceiling);
    BisectInside(p, cap, F_MIN_HZ, ceiling, fuel);
    BisectInside(q, cap, F_MIN_HZ, ceiling, fuel);
    Lockstep(p, q, cap, F_MIN_HZ, ceiling, fuel);
  }
}
