/**
 Constants of sim/rail_model.py over exact reals, and its voltage curve `v_of_f`: straight between
 its anchors, flat outside, monotone. Of the exponential only sign and monotonicity matter, so it is
 a parameter; so is the curve, of which the shipped one is an instance.
 */
module RailModel {
  const GIGA: real := 1000000000.0
  const F_MIN_HZ: real := 400000000.0
  const F_RING_MIN_HZ: real := 800000000.0
  const F_RING_MAX_HZ: real := 3900000000.0
  const VT_EFF_V: real := 0.3
  const C6_LEAK_RESIDUAL: real := 0.1
  const ACTIVITY_C6_EPS: real := 0.000001
  const P_PKG_C6_W: real := 0.15
  const C_RING: real := 0.55
  const K_TRAFFIC: real := 0.12

  /** `PARAMS` as shipped. */
  const C_EFF_PRIOR: real := 2.2
  const K_LEAK_PRIOR: real := 0.01035
  const P_SA_FLOOR_PRIOR: real := 0.9

  datatype Anchor = Anchor(mhz: real, volts: real)

  const VF_ANCHORS: seq<Anchor> := [
    Anchor(400.0, 0.650), Anchor(800.0, 0.680), Anchor(1200.0, 0.725),
    Anchor(1800.0, 0.830), Anchor(2400.0, 0.925), Anchor(3000.0, 1.020),
    Anchor(3400.0, 1.075), Anchor(3700.0, 1.115), Anchor(4000.0, 1.150)]

  /** The exponential and the voltage curve. */
  datatype Laws = Laws(exp: real -> real, volts: real -> real)

  /** `PARAMS`, the temperature factor and the two laws. */
  datatype Physics = Physics(cEff: real, kLeak: real, saFloor: real, tempFactor: real, laws: Laws)

  /** A positive and monotone exponential; a monotone voltage, positive and lowest at the lowest P-state. */
  ghost predicate Lawful(l: Laws) {
    && (forall x: real :: l.exp(x) > 0.0)
    && (forall x: real, y: real :: x <= y ==> l.exp(x) <= l.exp(y))
    && (forall f: real :: 0.0 < l.volts(F_MIN_HZ) <= l.volts(f))
    && forall f: real, g: real :: f <= g ==> l.volts(f) <= l.volts(g)
  }

  /** Non-negative parameters under lawful laws. */
  ghost predicate Sane(ph: Physics) {
    ph.cEff >= 0.0 && ph.kLeak >= 0.0 && ph.saFloor >= 0.0 && ph.tempFactor > 0.0 && Lawful(ph.laws)
  }

  /** A physical core: frequency in Hz and the share of time it is not clock-gated. */
  datatype Core = Core(f: real, a: real)

  predicate Active(c: Core) {
    c.a > ACTIVITY_C6_EPS
  }

  // ---------------------------------------------------------------- products

  lemma ProductMonotone(a: real, b: real, c: real, d: real)
    requires 0.0 <= a <= b && 0.0 <= c <= d
    ensures 0.0 <= a * c <= b * d
  {
    assert b * d - a * c == (b - a) * d + a * (d - c);
  }

  lemma ProductStrict(a: real, b: real, c: real, d: real)
    requires 0.0 <= a < b && 0.0 < c <= d
    ensures a * c < b * d
  {
    assert b * d - a * c == (b - a) * d + a * (d - c);
    assert (b - a) * d > 0.0;
  }

  // ---------------------------------------------------------------- V(f)

  ghost predicate Rising(t: seq<Anchor>) {
    && |t| >= 2
    && (forall i, j :: 0 <= i < j < |t| ==> t[i].mhz < t[j].mhz)
    && forall i, j :: 0 <= i <= j < |t| ==> t[i].volts <= t[j].volts
  }

  /** The straight line through anchors `i` and `i + 1`. */
  function Chord(t: seq<Anchor>, i: nat, mhz: real): real
    requires i + 1 < |t| && t[i].mhz < t[i + 1].mhz
  {
    t[i].volts + (mhz - t[i].mhz) / (t[i + 1].mhz - t[i].mhz) * (t[i + 1].volts - t[i].volts)
  }

  function Segment(t: seq<Anchor>, mhz: real, i: nat): real
    requires |t| >= 2 && i < |t| && forall k :: 0 <= k < |t| - 1 ==> t[k].mhz < t[k + 1].mhz
    decreases |t| - i
  {
    if i + 1 == |t| then t[i].volts
    else if t[i].mhz <= mhz <= t[i + 1].mhz then Chord(t, i, mhz)
    else Segment(t, mhz, i + 1)
  }

  function Lookup(t: seq<Anchor>, mhz: real): real
    requires |t| >= 2 && forall k :: 0 <= k < |t| - 1 ==> t[k].mhz < t[k + 1].mhz
  {
    if mhz <= t[0].mhz then t[0].volts
    else if mhz >= t[|t| - 1].mhz then t[|t| - 1].volts
    else Segment(t, mhz, 0)
  }

  lemma ChordBetween(t: seq<Anchor>, i: nat, x: real, y: real)
    requires Rising(t) && i + 1 < |t| && t[i].mhz <= x <= y <= t[i + 1].mhz
    ensures t[i].volts <= Chord(t, i, x) <= Chord(t, i, y) <= t[i + 1].volts
    ensures Chord(t, i, t[i].mhz) == t[i].volts && Chord(t, i, t[i + 1].mhz) == t[i + 1].volts
  {
    var w, h := t[i + 1].mhz - t[i].mhz, t[i + 1].volts - t[i].volts;
    var p, q := (x - t[i].mhz) / w, (y - t[i].mhz) / w;
    assert p * w == x - t[i].mhz && q * w == y - t[i].mhz;
    FractionOrder(p, q, w, x - t[i].mhz, y - t[i].mhz);
    ProductMonotone(p, q, h, h);
    ProductMonotone(q, 1.0, h, h);
    ChordEnds(t, i);
  }

  lemma ChordEnds(t: seq<Anchor>, i: nat)
    requires i + 1 < |t| && t[i].mhz < t[i + 1].mhz
    ensures Chord(t, i, t[i].mhz) == t[i].volts && Chord(t, i, t[i + 1].mhz) == t[i + 1].volts
  {
    var w := t[i + 1].mhz - t[i].mhz;
    assert w / w == 1.0 && 0.0 / w == 0.0;
  }

  lemma FractionOrder(p: real, q: real, w: real, a: real, b: real)
    requires w > 0.0 && 0.0 <= a <= b <= w && p * w == a && q * w == b
    ensures 0.0 <= p <= q <= 1.0
  {
    assert p < 0.0 ==> p * w < 0.0;
    assert p > q ==> (p - q) * w > 0.0;
    assert q > 1.0 ==> (q - 1.0) * w > 0.0;
  }

  /** Between two neighbouring anchors the lookup is the chord, whichever segment it finds first. */
  lemma {:induction false} SegmentIsChord(t: seq<Anchor>, mhz: real, i: nat, k: nat)
    requires Rising(t) && i <= k && k + 1 < |t| && t[k].mhz <= mhz <= t[k + 1].mhz
    requires i == 0 || t[i].mhz < mhz || i == k
    ensures Segment(t, mhz, i) == Chord(t, k, mhz)
    decreases k - i
  {
    ChordBetween(t, k, mhz, mhz);
    if i < k {
      ChordBetween(t, i, t[i + 1].mhz, t[i + 1].mhz);
      if t[i].mhz <= mhz <= t[i + 1].mhz {
        assert t[i + 1].mhz <= t[k].mhz;
        assert mhz == t[i + 1].mhz && i + 1 == k;
      } else {
        SegmentIsChord(t, mhz, i + 1, k);
      }
    }
  }

  /** The curve goes through its anchors, is straight in between and flat outside. */
  lemma LookupIsPiecewiseLinear(t: seq<Anchor>, mhz: real)
    requires Rising(t)
    ensures mhz <= t[0].mhz ==> Lookup(t, mhz) == t[0].volts
    ensures mhz >= t[|t| - 1].mhz ==> Lookup(t, mhz) == t[|t| - 1].volts
    ensures forall k :: 0 <= k < |t| - 1 && t[k].mhz <= mhz <= t[k + 1].mhz ==> Lookup(t, mhz) == Chord(t, k, mhz)
  {
    forall k | 0 <= k < |t| - 1 && t[k].mhz <= mhz <= t[k + 1].mhz ensures Lookup(t, mhz) == Chord(t, k, mhz) {
      ChordBetween(t, k, mhz, mhz);
      if t[0].mhz < mhz < t[|t| - 1].mhz {
        SegmentIsChord(t, mhz, 0, k);
      } else if mhz <= t[0].mhz {
        assert k == 0;
      } else {
        assert k == |t| - 2;
      }
    }
  }

  lemma {:induction false} FindSegment(t: seq<Anchor>, mhz: real, i: nat) returns (k: nat)
    requires Rising(t) && i + 1 < |t| && t[i].mhz <= mhz <= t[|t| - 1].mhz
    ensures i <= k && k + 1 < |t| && t[k].mhz <= mhz <= t[k + 1].mhz
    decreases |t| - i
  {
    if mhz <= t[i + 1].mhz {
      k := i;
    } else {
      k := FindSegment(t, mhz, i + 1);
    }
  }

  lemma LookupBounded(t: seq<Anchor>, x: real)
    requires Rising(t)
    ensures t[0].volts <= Lookup(t, x) <= t[|t| - 1].volts
  {
    LookupIsPiecewiseLinear(t, x);
    if t[0].mhz < x < t[|t| - 1].mhz {
      var k := FindSegment(t, x, 0);
      ChordBetween(t, k, x, x);
    }
  }

  /** More frequency never needs less voltage. */
  lemma LookupMonotone(t: seq<Anchor>, x: real, y: real)
    requires Rising(t) && x <= y
    ensures Lookup(t, x) <= Lookup(t, y)
  {
    LookupBounded(t, x);
    LookupBounded(t, y);
    LookupIsPiecewiseLinear(t, x);
    LookupIsPiecewiseLinear(t, y);
    if t[0].mhz < x && y < t[|t| - 1].mhz {
      var i := FindSegment(t, x, 0);
      var j := FindSegment(t, y, 0);
      ChordBetween(t, i, x, x);
      ChordBetween(t, j, y, y);
      if i == j {
        ChordBetween(t, i, x, y);
      } else if j < i {
        assert t[j + 1].mhz <= t[i].mhz;
        ChordBetween(t, i, x, x);
        assert x == y;
      }
    }
  }

  /** `v_of_f`. */
  function Volts(f: real): real {
    AnchorsAscend();
    Lookup(VF_ANCHORS, f / 1000000.0)
  }

  lemma AnchorsAscend()
    ensures |VF_ANCHORS| == 9
    ensures forall k :: 0 <= k < |VF_ANCHORS| - 1 ==> VF_ANCHORS[k].mhz < VF_ANCHORS[k + 1].mhz
  {
  }

  lemma AnchorsRise()
    ensures Rising(VF_ANCHORS)
  {
  }

  lemma VoltsBounded(f: real)
    ensures Volts(F_MIN_HZ) == 0.65 <= Volts(f) <= 1.15
  {
    AnchorsRise();
    LookupBounded(VF_ANCHORS, f / 1000000.0);
  }

  lemma VoltsMonotone(f: real, g: real)
    requires f <= g
    ensures Volts(f) <= Volts(g)
  {
    AnchorsRise();
    LookupMonotone(VF_ANCHORS, f / 1000000.0, g / 1000000.0);
  }

  /** The shipped curve beside any exponential. */
  function Shipped(exp: real -> real): Laws {
    Laws(exp, f => Volts(f))
  }

  lemma ShippedIsLawful(exp: real -> real)
    requires forall x: real :: exp(x) > 0.0
    requires forall x: real, y: real :: x <= y ==> exp(x) <= exp(y)
    ensures Lawful(Shipped(exp))
  {
    var l := Shipped(exp);
    forall f: real ensures 0.0 < l.volts(F_MIN_HZ) <= l.volts(f) {
      VoltsBounded(f);
    }
    forall f: real, g: real | f <= g ensures l.volts(f) <= l.volts(g) {
      VoltsMonotone(f, g);
    }
  }
}
