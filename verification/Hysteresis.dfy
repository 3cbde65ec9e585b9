/**
 The adaptive classifier on its own: a task's class (domain and EWMA) under a sequence of on-CPU
 slices, with the integer truncation and the u64 arithmetic of `bls_stopping`.
 */
module Hysteresis {
  import opened Domains
  import M = SchedModel

  datatype Class = Class(domain: Dom, ewma: nat)

  /** Below this, `ewma * 3 + delta` cannot wrap. */
  const SANE: nat := 0x4000_0000_0000_0000

  function Stop(thresh: nat, c: Class, delta: nat): Class {
    var e := M.Ewma(c.ewma, delta);
    Class(M.Reclassify(thresh, c.domain, e), e)
  }

  function Stops(thresh: nat, c: Class, ds: seq<nat>): Class
    decreases |ds|
  {
    if ds == [] then c else Stops(thresh, Stop(thresh, c, ds[0]), ds[1..])
  }

  predicate Within(ds: seq<nat>, lo: int, hi: int) {
    forall i :: 0 <= i < |ds| ==> lo <= ds[i] < hi
  }

  lemma {:induction false} StopsAppend(thresh: nat, c: Class, a: seq<nat>, b: seq<nat>)
    ensures Stops(thresh, c, a + b) == Stops(thresh, Stops(thresh, c, a), b)
    decreases |a|
  {
    if a == [] {
      assert a + b == b;
    } else {
      assert (a + b)[0] == a[0] && (a + b)[1..] == a[1..] + b;
      StopsAppend(thresh, Stop(thresh, c, a[0]), a[1..], b);
    }
  }

  // ---------------------------------------------------------------- bounds

  /** The EWMA lands between its old value and the new slice, unless the u64 product wraps. */
  lemma EwmaBetween(e: nat, delta: nat)
    requires e * 3 + delta < M.TWO64
    ensures (if e < delta then e else delta) <= M.Ewma(e, delta) <= (if e < delta then delta else e)
  {
  }

  /** A bound on all slices is a bound on the EWMA, from both sides. */
  lemma {:induction false} EwmaBounded(thresh: nat, c: Class, ds: seq<nat>, lo: nat, hi: nat)
    requires Within(ds, lo, hi) && lo <= c.ewma < hi <= SANE
    ensures lo <= Stops(thresh, c, ds).ewma < hi
    decreases |ds|
  {
    if ds != [] {
      EwmaBetween(c.ewma, ds[0]);
      EwmaBounded(thresh, Stop(thresh, c, ds[0]), ds[1..], lo, hi);
    }
  }

  // ---------------------------------------------------------------- hysteresis

  /** A task whose EWMA is above the threshold survives any two stops in the BIG domain. */
  lemma TwoStopsKeepBig(thresh: nat, e: nat, ds: seq<nat>)
    requires thresh < e < SANE && |ds| <= 2 && Within(ds, 0, SANE)
    ensures Stops(thresh, Class(Big, e), ds).domain == Big
  {
    if |ds| >= 1 {
      EwmaBetween(e, ds[0]);
      var c1 := Stop(thresh, Class(Big, e), ds[0]);
      assert 4 * c1.ewma + 3 >= 3 * e;
      if |ds| == 2 {
        EwmaBetween(c1.ewma, ds[1]);
        var c2 := Stop(thresh, c1, ds[1]);
        assert 4 * c2.ewma + 3 >= 3 * c1.ewma;
        assert Stops(thresh, c1, ds[1..]) == c2;
      }
    }
  }

  lemma EmptySlice(thresh: nat, e: nat)
    requires e < SANE
    ensures Stop(thresh, Class(Big, e), 0) == Class(if e * 3 / 4 < thresh / 2 then Little else Big, e * 3 / 4)
  {
  }

  /** The thresholds at which the truncated average can fall below half of them in three stops. */
  predicate ThirdStopDemotes(thresh: nat) {
    thresh == 2 || thresh == 4 || thresh == 6 || thresh >= 8
  }

  /** Three empty slices demote a task just promoted at exactly those thresholds; two never do. */
  lemma ThreeStopsCanDemote(thresh: nat)
    requires thresh < SANE - 1
    ensures Stops(thresh, Class(Big, thresh + 1), [0, 0, 0]).domain == Little <==> ThirdStopDemotes(thresh)
    ensures Stops(thresh, Class(Big, thresh + 1), [0, 0]).domain == Big
  {
    var e := thresh + 1;
    EmptySlice(thresh, e);
    EmptySlice(thresh, e * 3 / 4);
    EmptySlice(thresh, e * 3 / 4 * 3 / 4);
    var c1, c2 := Class(Big, e * 3 / 4), Class(Big, e * 3 / 4 * 3 / 4);
    assert [0, 0, 0][1..] == [0, 0] && [0, 0][1..] == [0] && [0][1..] == [];
    assert Stops(thresh, c2, [0]) == Stop(thresh, c2, 0);
    assert Stops(thresh, c1, [0, 0]) == Stops(thresh, c2, [0]);
    assert Stops(thresh, c1, [0]) == c2;
  }

  /** A higher average and longer slices leave a higher average. */
  lemma StopMonotone(thresh: nat, c: Class, d: Class, x: nat)
    requires c.ewma <= d.ewma < SANE && x < SANE
    ensures Stop(thresh, c, 0).ewma <= Stop(thresh, d, x).ewma < SANE
  {
    EwmaBetween(d.ewma, x);
  }

  /** Nothing demotes faster than empty slices on the lowest average above the threshold. */
  lemma EmptySlicesDemoteFirst(thresh: nat, e: nat, ds: seq<nat>)
    requires thresh < e < SANE && |ds| == 3 && Within(ds, 0, SANE)
    requires Stops(thresh, Class(Big, e), ds).domain == Little
    ensures ThirdStopDemotes(thresh)
  {
    var a, b := Class(Big, thresh + 1), Class(Big, e);
    TwoStopsKeepBig(thresh, e, ds[..2]);
    TwoStopsKeepBig(thresh, thresh + 1, [0, 0]);
    ThreeStops(thresh, a, [0, 0, 0]);
    ThreeStops(thresh, b, ds);
    StopMonotone(thresh, a, b, ds[0]);
    var a1, b1 := Stop(thresh, a, 0), Stop(thresh, b, ds[0]);
    StopMonotone(thresh, a1, b1, ds[1]);
    var a2, b2 := Stop(thresh, a1, 0), Stop(thresh, b1, ds[1]);
    StopMonotone(thresh, a2, b2, ds[2]);
    assert a2 == Stops(thresh, a, [0, 0]) && b2 == Stops(thresh, b, ds[..2]);
    ThreeStopsCanDemote(thresh);
  }

  lemma ThreeStops(thresh: nat, c: Class, ds: seq<nat>)
    requires |ds| == 3
    ensures var c2 := Stop(thresh, Stop(thresh, c, ds[0]), ds[1]);
            Stops(thresh, c, ds[..2]) == c2 && Stops(thresh, c, ds) == Stop(thresh, c2, ds[2])
    ensures ds == [0, 0, 0] ==> ds[..2] == [0, 0]
  {
    var c1 := Stop(thresh, c, ds[0]);
    var c2 := Stop(thresh, c1, ds[1]);
    assert ds[1..][1..] == [ds[2]] && ds[..2][1..] == [ds[1]];
    assert Stops(thresh, c1, [ds[1]]) == c2;
    assert Stops(thresh, c2, [ds[2]]) == Stop(thresh, c2, ds[2]);
  }

  /** Some three slices demote some task above the threshold. */
  ghost predicate ThreeCanDemote(thresh: nat) {
    exists e, ds :: thresh < e < SANE && |ds| == 3 && Within(ds, 0, SANE)
                    && Stops(thresh, Class(Big, e), ds).domain == Little
  }

  /** So three is the exact bound at those thresholds; at the others (0, 1, 3, 5 and 7) no three stops
      demote. */
  lemma ThreeStopsExactly(thresh: nat)
    requires thresh < SANE - 1
    ensures ThreeCanDemote(thresh) <==> ThirdStopDemotes(thresh)
  {
    if ThirdStopDemotes(thresh) {
      ThreeStopsCanDemote(thresh);
      assert Within([0, 0, 0], 0, SANE);
    }
    if ThreeCanDemote(thresh) {
      var e, ds :| thresh < e < SANE && |ds| == 3 && Within(ds, 0, SANE)
                   && Stops(thresh, Class(Big, e), ds).domain == Little;
      EmptySlicesDemoteFirst(thresh, e, ds);
    }
  }

  /** Hysteresis: along any sequence of slices at least three stops separate a promotion (by slice `x`)
      from the next demotion, whatever the threshold. */
  lemma PromotionLasts(thresh: nat, c: Class, before: seq<nat>, x: nat, rest: seq<nat>)
    requires c.ewma < SANE && Within(before, 0, SANE) && x < SANE && Within(rest, 0, SANE)
    requires Stops(thresh, c, before).domain == Little && Stops(thresh, c, before + [x]).domain == Big
    requires Stops(thresh, c, before + [x] + rest).domain == Little
    ensures |rest| >= 3
  {
    EwmaBounded(thresh, c, before, 0, SANE);
    var c0 := Stops(thresh, c, before);
    EwmaBetween(c0.ewma, x);
    StopsAppend(thresh, c, before, [x]);
    assert Stops(thresh, c0, [x]) == Stop(thresh, c0, x);
    var promoted := Stop(thresh, c0, x);
    assert promoted.ewma > thresh;
    StopsAppend(thresh, c, before + [x], rest);
    if |rest| <= 2 {
      TwoStopsKeepBig(thresh, promoted.ewma, rest);
    }
  }

  // ---------------------------------------------------------------- convergence to BIG

  /** Stops until the EWMA passes a threshold that it misses by `gap - 4`, at slices of threshold + 4. */
  function StopsToPromote(gap: nat): nat {
    if gap < 4 then 0 else 1 + StopsToPromote(gap - gap / 4)
  }

  function Gap(thresh: nat, e: nat): nat {
    if e > thresh then 0 else thresh + 4 - e
  }

  lemma {:induction false} StopsToPromoteMonotone(a: nat, b: nat)
    requires a <= b
    ensures StopsToPromote(a) <= StopsToPromote(b)
    decreases b
  {
    if a >= 4 {
      StopsToPromoteMonotone(a - a / 4, b - b / 4);
    }
  }

  lemma {:induction false} EwmaClimbs(thresh: nat, c: Class, ds: seq<nat>)
    requires c.ewma < SANE && Within(ds, thresh + 4, SANE)
    requires |ds| >= StopsToPromote(Gap(thresh, c.ewma))
    ensures Stops(thresh, c, ds).ewma > thresh
    decreases |ds|
  {
    if c.ewma > thresh {
      EwmaBounded(thresh, c, ds, thresh + 1, SANE);
    } else {
      var g := Gap(thresh, c.ewma);
      assert 1 <= StopsToPromote(g);
      var c1 := Stop(thresh, c, ds[0]);
      EwmaBetween(c.ewma, ds[0]);
      assert c1.ewma >= c.ewma + g / 4;
      StopsToPromoteMonotone(Gap(thresh, c1.ewma), g - g / 4);
      EwmaClimbs(thresh, c1, ds[1..]);
    }
  }

  /** The last stop files a task with a large EWMA under BIG and one with a small EWMA under LITTLE. */
  lemma LastStopDecides(thresh: nat, c: Class, ds: seq<nat>)
    requires ds != []
    ensures Stops(thresh, c, ds).ewma > thresh ==> Stops(thresh, c, ds).domain == Big
    ensures Stops(thresh, c, ds).ewma < thresh / 2 ==> Stops(thresh, c, ds).domain == Little
  {
    var n := |ds| - 1;
    assert ds == ds[..n] + [ds[n]];
    StopsAppend(thresh, c, ds[..n], [ds[n]]);
    assert Stops(thresh, Stops(thresh, c, ds[..n]), [ds[n]]) == Stop(thresh, Stops(thresh, c, ds[..n]), ds[n]);
  }

  /** Slices of at least threshold + 4 put any task in the BIG domain after a bounded number of stops,
      and it is there after every later stop. */
  lemma ConvergesToBig(thresh: nat, c: Class, ds: seq<nat>)
    requires c.ewma < SANE && Within(ds, thresh + 4, SANE)
    requires |ds| >= 1 && |ds| >= StopsToPromote(Gap(thresh, c.ewma))
    ensures Stops(thresh, c, ds).domain == Big
  {
    EwmaClimbs(thresh, c, ds);
    LastStopDecides(thresh, c, ds);
  }

  /** The bound is exact at slices of threshold + 4: one stop earlier the task is still LITTLE. */
  lemma {:induction false} PromotedNoEarlier(thresh: nat, e: nat, ds: seq<nat>)
    requires e <= thresh && thresh + 4 < SANE && Within(ds, thresh + 4, thresh + 5)
    requires |ds| < StopsToPromote(Gap(thresh, e))
    ensures Stops(thresh, Class(Little, e), ds).domain == Little
    decreases |ds|
  {
    if ds != [] {
      var g := Gap(thresh, e);
      var c1 := Stop(thresh, Class(Little, e), ds[0]);
      assert ds[0] == thresh + 4;
      assert c1.ewma == e + g / 4;
      PromotedNoEarlier(thresh, c1.ewma, ds[1..]);
    }
  }

  /** Slices of at most threshold + 3 never promote: truncation stops the EWMA at the threshold. */
  lemma {:induction false} StuckLittle(thresh: nat, e: nat, ds: seq<nat>)
    requires e <= thresh && thresh + 4 <= SANE && Within(ds, 0, thresh + 4)
    ensures Stops(thresh, Class(Little, e), ds).domain == Little
    ensures Stops(thresh, Class(Little, e), ds).ewma <= thresh
    decreases |ds|
  {
    if ds != [] {
      EwmaBetween(e, ds[0]);
      StuckLittle(thresh, Stop(thresh, Class(Little, e), ds[0]).ewma, ds[1..]);
    }
  }

  // ---------------------------------------------------------------- convergence to LITTLE

  /** Stops until an EWMA that exceeds half the threshold by `excess` is below it. */
  function StopsToDemote(excess: int): nat
    decreases excess + 1
  {
    if excess < 0 then 0 else 1 + StopsToDemote(excess - excess / 4 - 1)
  }

  lemma {:induction false} StopsToDemoteMonotone(a: int, b: int)
    requires a <= b
    ensures StopsToDemote(a) <= StopsToDemote(b)
    decreases b + 1
  {
    if a >= 0 {
      StopsToDemoteMonotone(a - a / 4 - 1, b - b / 4 - 1);
    }
  }

  lemma {:induction false} EwmaFalls(thresh: nat, c: Class, ds: seq<nat>)
    requires c.ewma < SANE && thresh / 2 <= SANE && Within(ds, 0, thresh / 2)
    requires |ds| >= StopsToDemote(c.ewma - thresh / 2)
    ensures Stops(thresh, c, ds).ewma < thresh / 2
    decreases |ds|
  {
    var h := thresh / 2;
    if c.ewma < h {
      EwmaBounded(thresh, c, ds, 0, h);
    } else {
      var x := c.ewma - h;
      assert 1 <= StopsToDemote(x);
      var c1 := Stop(thresh, c, ds[0]);
      EwmaBetween(c.ewma, ds[0]);
      assert c1.ewma - h <= x - x / 4 - 1;
      StopsToDemoteMonotone(c1.ewma - h, x - x / 4 - 1);
      EwmaFalls(thresh, c1, ds[1..]);
    }
  }

  /** Slices below half the threshold put any task in the LITTLE domain after a bounded number of stops,
      and it is there after every later stop. */
  lemma ConvergesToLittle(thresh: nat, c: Class, ds: seq<nat>)
    requires c.ewma < SANE && thresh / 2 <= SANE && Within(ds, 0, thresh / 2)
    requires |ds| >= 1 && |ds| >= StopsToDemote(c.ewma - thresh / 2)
    ensures Stops(thresh, c, ds).domain == Little
  {
    EwmaFalls(thresh, c, ds);
    LastStopDecides(thresh, c, ds);
  }

  /** The bound is exact at the longest such slices: one stop earlier the task is still BIG. */
  lemma {:induction false} DemotedNoEarlier(thresh: nat, e: nat, ds: seq<nat>)
    requires thresh / 2 <= e < SANE && Within(ds, thresh / 2 - 1, thresh / 2)
    requires |ds| < StopsToDemote(e - thresh / 2)
    ensures Stops(thresh, Class(Big, e), ds).domain == Big
    decreases |ds|
  {
    if ds != [] {
      var h, x := thresh / 2, e - thresh / 2;
      var c1 := Stop(thresh, Class(Big, e), ds[0]);
      assert ds[0] == h - 1;
      assert c1.ewma - h == x - x / 4 - 1;
      DemotedNoEarlier(thresh, c1.ewma, ds[1..]);
    }
  }

  /** Slices of at least half the threshold never demote a task whose EWMA is there already. */
  lemma {:induction false} StuckBig(thresh: nat, e: nat, ds: seq<nat>)
    requires thresh / 2 <= e < SANE && Within(ds, thresh / 2, SANE)
    ensures Stops(thresh, Class(Big, e), ds).domain == Big
    decreases |ds|
  {
    if ds != [] {
      EwmaBetween(e, ds[0]);
      StuckBig(thresh, Stop(thresh, Class(Big, e), ds[0]).ewma, ds[1..]);
    }
  }

  /** How far the EWMA can climb in `n` stops; a third more each time. */
  function Reach(n: nat): nat {
    if n == 0 then 3 else 4 * Reach(n - 1) / 3
  }

  /** The number of stops is logarithmic in the gap: `n` stops are enough exactly up to `Reach(n)`. */
  lemma {:induction false} PromotionIsLogarithmic(gap: nat, n: nat)
    ensures Reach(n) >= 3
    ensures StopsToPromote(gap) <= n <==> gap <= Reach(n)
    decreases n
  {
    if n > 0 {
      PromotionIsLogarithmic(gap - gap / 4, n - 1);
      if gap < 4 {
        assert 4 * Reach(n - 1) >= 12;
      }
    }
  }

  /** How far above half the threshold `n` stops can start and still end below it. */
  function ReachDown(n: nat): int {
    if n == 0 then -1 else 4 * (ReachDown(n - 1) + 1) / 3
  }

  /** Demotion is logarithmic too: `n` stops are enough exactly up to `ReachDown(n)`. */
  lemma {:induction false} DemotionIsLogarithmic(excess: int, n: nat)
    ensures ReachDown(n) >= -1
    ensures StopsToDemote(excess) <= n <==> excess <= ReachDown(n)
    decreases n
  {
    if n > 0 {
      DemotionIsLogarithmic(excess - excess / 4 - 1, n - 1);
    }
  }
}
