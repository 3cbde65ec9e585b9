/**
 The energy counters of src/energy.c: unwrapping in `rapl_delta_j`, priming, and the sum over a run
 of samples some of which fail. Energies are whole microjoules; a reading is the true energy modulo
 the counter's range.
 */
module Rapl {
  import opened Wrappers

  const TWO64: int := 0x1_0000_0000_0000_0000

  /** `uint64_t`, with its subtraction and addition. */
  type Word = x: nat | x < TWO64

  function Minus(a: Word, b: Word): Word {
    if a >= b then a - b else a - b + TWO64
  }

  function Plus(a: Word, b: Word): Word {
    if a + b < TWO64 then a + b else a + b - TWO64
  }

  /** One value per sample, `None` where the file could not be read. */
  type Samples<T> = seq<Option<T>>

  // ---------------------------------------------------------------- what the code computes from readings

  /** The difference that a reading `v` adds, `range` 0 means unknown. */
  function Delta(range: Word, last: Word, v: Word): Word {
    if v >= last then v - last
    else if range != 0 then Plus(Minus(range, last), v)
    else 0
  }

  /** The last successful reading among the first `k`. */
  function LastRead<T>(last: T, seen: Samples<T>, k: nat): T
    requires k <= |seen|
  {
    if k == 0 then last
    else if seen[k - 1].Some? then seen[k - 1].value
    else LastRead(last, seen, k - 1)
  }

  /** The accumulated differences of the first `k` readings. */
  function Accumulated(range: Word, last: Word, seen: Samples<Word>, k: nat): nat
    requires k <= |seen|
  {
    if k == 0 then 0
    else
      Accumulated(range, last, seen, k - 1)
      + if seen[k - 1].Some? then Delta(range, LastRead<Word>(last, seen, k - 1), seen[k - 1].value) else 0
  }

  /** Sum of the per-sample values that are not NAN. */
  function RowSum(rows: Samples<Word>, k: nat): nat
    requires k <= |rows|
  {
    if k == 0 then 0 else RowSum(rows, k - 1) + if rows[k - 1].Some? then rows[k - 1].value else 0
  }

  /** `struct rapl_dom` of a domain that was found. */
  class Domain {
    const range: Word
    var lastUj: Word
    var totalUj: nat

    /** `add_rapl` after its first successful read. */
    constructor (range: Word, first: Word)
      ensures this.range == range && lastUj == first && totalUj == 0
    {
      this.range, lastUj, totalUj := range, first, 0;
    }

    /** `rapl_delta_j`; `None` stands for NAN. */
    method RaplDelta(read: Option<Word>) returns (r: Option<Word>)
      modifies this
      ensures read.None? ==> r.None? && lastUj == old(lastUj) && totalUj == old(totalUj)
      ensures read.Some? ==> r == Some(Delta(range, old(lastUj), read.value)) && lastUj == read.value
      ensures read.Some? ==> totalUj == old(totalUj) + r.value
    {
      if read.None? {
        return None;
      }
      var v: Word, delta: Word := read.value, 0;
      if v >= lastUj {
        delta := v - lastUj;
      } else if range != 0 {
        delta := Plus(Minus(range, lastUj), v);
      }
      lastUj := v;
      totalUj := totalUj + delta;
      r := Some(delta);
    }

    /** The prime-then-sample part of `main` for one domain; `rows` is what the samples report. */
    method Record(prime: Option<Word>, seen: Samples<Word>) returns (rows: Samples<Word>)
      modifies this
      ensures var start := if prime.Some? then prime.value else old(lastUj);
              totalUj == Accumulated(range, start, seen, |seen|) && lastUj == LastRead<Word>(start, seen, |seen|)
      ensures |rows| == |seen| && forall i :: 0 <= i < |rows| ==> (rows[i].Some? <==> seen[i].Some?)
      ensures RowSum(rows, |rows|) == totalUj
    {
      var discarded := RaplDelta(prime);
      totalUj := 0;
      ghost var start := lastUj;
      rows := [];
      var i := 0;
      while i < |seen|
        invariant 0 <= i <= |seen| && |rows| == i
        invariant totalUj == Accumulated(range, start, seen, i) && lastUj == LastRead<Word>(start, seen, i)
        invariant forall k :: 0 <= k < i ==> (rows[k].Some? <==> seen[k].Some?)
        invariant RowSum(rows, i) == totalUj
      {
        var r := RaplDelta(seen[i]);
        RowSumPrefix(rows, [r], i);
        rows := rows + [r];
        i := i + 1;
      }
    }
  }

  lemma {:induction false} RowSumPrefix(rows: Samples<Word>, more: Samples<Word>, k: nat)
    requires k <= |rows|
    ensures RowSum(rows + more, k) == RowSum(rows, k)
  {
    if k > 0 {
      RowSumPrefix(rows, more, k - 1);
    }
  }

  // ---------------------------------------------------------------- what it means for the true energy

  /** True energies at the samples that succeed never fall, starting from `e0`. */
  ghost predicate Rising(e0: nat, es: Samples<nat>, k: nat)
    requires k <= |es|
  {
    k == 0
    || (Rising(e0, es, k - 1) && (es[k - 1].Some? ==> LastRead<nat>(e0, es, k - 1) <= es[k - 1].value))
  }

  /** What a counter of that range shows after `e` microjoules, and how often it has turned. */
  function Rest(range: Word, e: nat): (r: Word)
    requires range > 0
    ensures r < range
  {
    if e < range then e else Rest(range, e - range)
  }

  function Turns(range: Word, e: nat): nat
    requires range > 0
  {
    if e < range then 0 else 1 + Turns(range, e - range)
  }

  /** What the counter shows at each sample. */
  function Shown(range: Word, es: Samples<nat>): (seen: Samples<Word>)
    requires range > 0
    ensures |seen| == |es|
    ensures forall k :: 0 <= k < |es| ==> seen[k] == if es[k].Some? then Some(Rest(range, es[k].value)) else None
  {
    seq(|es|, k requires 0 <= k < |es| => if es[k].Some? then Some(Rest(range, es[k].value)) else None)
  }

  /** Whole turns of the counter that happened between two successful reads and were not seen. */
  function LostTurns(range: Word, e0: nat, es: Samples<nat>, k: nat): nat
    requires range > 0 && k <= |es| && Rising(e0, es, k)
  {
    if k == 0 then 0
    else
      LostTurns(range, e0, es, k - 1)
      + if es[k - 1].Some? then Turns(range, es[k - 1].value - LastRead<nat>(e0, es, k - 1)) else 0
  }

  function Hidden(range: Word, d: nat): nat
    requires range > 0
  {
    RestIsPart(range, d);
    d - Rest(range, d)
  }

  /** The energy in those turns. */
  function Unseen(range: Word, e0: nat, es: Samples<nat>, k: nat): nat
    requires range > 0 && k <= |es| && Rising(e0, es, k)
  {
    if k == 0 then 0
    else
      Unseen(range, e0, es, k - 1)
      + if es[k - 1].Some? then Hidden(range, es[k - 1].value - LastRead<nat>(e0, es, k - 1)) else 0
  }

  lemma {:induction false} RestIsPart(range: Word, e: nat)
    requires range > 0
    ensures Rest(range, e) <= e
  {
    if e >= range {
      RestIsPart(range, e - range);
    }
  }

  lemma {:induction false} TurnsAndRest(range: Word, e: nat)
    requires range > 0
    ensures e == Turns(range, e) * range + Rest(range, e)
  {
    if e >= range {
      TurnsAndRest(range, e - range);
      assert Turns(range, e) * range == Turns(range, e - range) * range + range;
    }
  }

  lemma {:induction false} RestOf(range: Word, turns: nat, r: nat)
    requires range > 0 && r < range && turns * range >= 0
    ensures Rest(range, turns * range + r) == r
  {
    if turns > 0 {
      assert turns * range == (turns - 1) * range + range;
      assert (turns - 1) * range >= 0;
      RestOf(range, turns - 1, r);
    }
  }

  /** Multiples are ordered like their factors. */
  lemma FewerTurns(range: nat, p: nat, q: nat)
    requires range > 0
    ensures p > q ==> p * range >= q * range + range
  {
    assert p * range - q * range == (p - q) * range;
    if p > q {
      assert (p - q) * range == range + (p - q - 1) * range;
      assert (p - q - 1) * range >= 0;
    }
  }

  lemma RestOfDifference(range: Word, p: nat, q: nat, d: nat, r: nat)
    requires range > 0 && p <= q && r < range && d == q * range - p * range + r
    ensures Rest(range, d) == r
  {
    assert (q - p) * range == q * range - p * range;
    RestOf(range, q - p, r);
  }

  lemma TurnsInOrder(range: Word, p: nat, q: nat, a: Word, b: Word)
    requires range > 0 && a < range && b < range && p * range + a <= q * range + b
    ensures p <= q && (b < a ==> p < q)
  {
    FewerTurns(range, p, q);
  }

  /** One unwrapped difference is the true one up to whole turns. */
  lemma DeltaIsRemainder(range: Word, e: nat, f: nat)
    requires range > 0 && e <= f
    ensures Delta(range, Rest(range, e), Rest(range, f)) == Rest(range, f - e)
  {
    var a, b, p, q := Rest(range, e), Rest(range, f), Turns(range, e), Turns(range, f);
    TurnsAndRest(range, e);
    TurnsAndRest(range, f);
    TurnsInOrder(range, p, q, a, b);
    if b >= a {
      RestOfDifference(range, p, q, f - e, b - a);
    } else {
      RestOfDifference(range, p + 1, q, f - e, range + b - a);
    }
  }

  lemma {:induction false} LastShown(range: Word, e0: nat, es: Samples<nat>, k: nat)
    requires range > 0 && k <= |es|
    ensures LastRead<Word>(Rest(range, e0), Shown(range, es), k) == Rest(range, LastRead<nat>(e0, es, k))
  {
    if k > 0 {
      LastShown(range, e0, es, k - 1);
    }
  }

  lemma NothingLost(range: nat, turns: nat)
    requires range > 0
    ensures range * turns == 0 <==> turns == 0
  {
  }

  lemma OneRead(range: Word, e0: nat, es: Samples<nat>, k: nat)
    requires range > 0 && 0 < k <= |es| && Rising(e0, es, k) && es[k - 1].Some?
    ensures Accumulated(range, Rest(range, e0), Shown(range, es), k)
            == Accumulated(range, Rest(range, e0), Shown(range, es), k - 1)
               + Rest(range, es[k - 1].value - LastRead<nat>(e0, es, k - 1))
  {
    LastShown(range, e0, es, k - 1);
    DeltaIsRemainder(range, LastRead<nat>(e0, es, k - 1), es[k - 1].value);
  }

  /** The sum misses exactly the energy of the turns that went unseen. */
  lemma {:induction false} SumMissesUnseen(range: Word, e0: nat, es: Samples<nat>, k: nat)
    requires range > 0 && k <= |es| && Rising(e0, es, k)
    ensures Accumulated(range, Rest(range, e0), Shown(range, es), k) + Unseen(range, e0, es, k)
            == LastRead<nat>(e0, es, k) - e0
  {
    if k > 0 {
      SumMissesUnseen(range, e0, es, k - 1);
      if es[k - 1].Some? {
        OneRead(range, e0, es, k);
      }
    }
  }

  lemma AddTurns(range: Word, unseen: nat, turns: nat, d: nat)
    requires range > 0 && unseen == range * turns
    ensures unseen + Hidden(range, d) == range * (turns + Turns(range, d))
  {
    var q := Turns(range, d);
    TurnsAndRest(range, d);
    assert range * (turns + q) == range * turns + q * range;
  }

  lemma {:induction false} UnseenIsTurns(range: Word, e0: nat, es: Samples<nat>, k: nat)
    requires range > 0 && k <= |es| && Rising(e0, es, k)
    ensures Unseen(range, e0, es, k) == range * LostTurns(range, e0, es, k)
  {
    if k > 0 {
      UnseenIsTurns(range, e0, es, k - 1);
      if es[k - 1].Some? {
        AddTurns(range, Unseen(range, e0, es, k - 1), LostTurns(range, e0, es, k - 1),
                 es[k - 1].value - LastRead<nat>(e0, es, k - 1));
      }
    }
  }

  /** The sum is the true energy between the first and the last successful read, short by exactly a
      whole number of turns. */
  lemma SumIsEnergyUpToTurns(range: Word, e0: nat, es: Samples<nat>)
    requires range > 0 && Rising(e0, es, |es|)
    ensures Accumulated(range, Rest(range, e0), Shown(range, es), |es|) + range * LostTurns(range, e0, es, |es|)
            == LastRead<nat>(e0, es, |es|) - e0
  {
    SumMissesUnseen(range, e0, es, |es|);
    UnseenIsTurns(range, e0, es, |es|);
  }

  ghost predicate ShortUpTo(range: nat, e0: nat, es: Samples<nat>, k: nat)
    requires k <= |es|
  {
    forall i :: 0 <= i < k && es[i].Some? ==> es[i].value - LastRead<nat>(e0, es, i) < range
  }

  lemma {:induction false} NoTurnLost(range: Word, e0: nat, es: Samples<nat>, k: nat)
    requires range > 0 && k <= |es| && Rising(e0, es, k)
    ensures LostTurns(range, e0, es, k) == 0 <==> ShortUpTo(range, e0, es, k)
  {
    if k > 0 {
      NoTurnLost(range, e0, es, k - 1);
      if es[k - 1].Some? {
        var d: nat := es[k - 1].value - LastRead<nat>(e0, es, k - 1);
        assert Turns(range, d) == 0 <==> d < range;
      }
    }
  }

  /** Every interval between successful reads uses less than one turn. */
  ghost predicate ReadOftenEnough(range: nat, e0: nat, es: Samples<nat>) {
    ShortUpTo(range, e0, es, |es|)
  }

  /** The recorded total is the true energy exactly when no interval between successful reads uses a
      whole turn of the counter. */
  lemma TotalIsExact(range: Word, e0: nat, es: Samples<nat>)
    requires range > 0 && Rising(e0, es, |es|)
    ensures Accumulated(range, Rest(range, e0), Shown(range, es), |es|) == LastRead<nat>(e0, es, |es|) - e0 <==>
            ReadOftenEnough(range, e0, es)
  {
    SumIsEnergyUpToTurns(range, e0, es);
    NoTurnLost(range, e0, es, |es|);
    NothingLost(range, LostTurns(range, e0, es, |es|));
  }

  // ---------------------------------------------------------------- failed reads

  /** The successful readings among the first `k`. */
  function Succeeded(seen: Samples<Word>, k: nat): Samples<Word>
    requires k <= |seen|
  {
    if k == 0 then []
    else if seen[k - 1].Some? then Succeeded(seen, k - 1) + [seen[k - 1]]
    else Succeeded(seen, k - 1)
  }

  lemma {:induction false} AccumulatedPrefix(range: Word, last: Word, seen: Samples<Word>, more: Samples<Word>, k: nat)
    requires k <= |seen|
    ensures Accumulated(range, last, seen + more, k) == Accumulated(range, last, seen, k)
    ensures LastRead<Word>(last, seen + more, k) == LastRead<Word>(last, seen, k)
  {
    if k > 0 {
      AccumulatedPrefix(range, last, seen, more, k - 1);
    }
  }

  /** A failed read loses nothing: the next success spans it. */
  lemma {:induction false} FailedReadsLoseNothing(range: Word, last: Word, seen: Samples<Word>, k: nat)
    requires k <= |seen|
    ensures var s := Succeeded(seen, k);
            && Accumulated(range, last, seen, k) == Accumulated(range, last, s, |s|)
            && LastRead<Word>(last, seen, k) == LastRead<Word>(last, s, |s|)
  {
    if k > 0 {
      FailedReadsLoseNothing(range, last, seen, k - 1);
      if seen[k - 1].Some? {
        var s := Succeeded(seen, k - 1);
        AccumulatedPrefix(range, last, s, [seen[k - 1]], |s|);
      }
    }
  }

  // ---------------------------------------------------------------- an unknown range

  /** Without `max_energy_range_uj` one difference is exact only if the counter did not turn in between. */
  lemma UnknownRangeDelta(modulus: Word, e: nat, f: nat)
    requires modulus > 0 && e <= f
    ensures Delta(0, Rest(modulus, e), Rest(modulus, f)) == f - e <==> Turns(modulus, e) == Turns(modulus, f)
  {
    var p, q := Turns(modulus, e), Turns(modulus, f);
    TurnsAndRest(modulus, e);
    TurnsAndRest(modulus, f);
    FewerTurns(modulus, p, q);
    FewerTurns(modulus, q, p);
  }

  /** It is never too much, and turns never go back. */
  lemma UnknownRangeBounds(modulus: Word, e: nat, f: nat)
    requires modulus > 0 && e <= f
    ensures Delta(0, Rest(modulus, e), Rest(modulus, f)) <= f - e
    ensures Turns(modulus, e) <= Turns(modulus, f)
  {
    var p, q := Turns(modulus, e), Turns(modulus, f);
    TurnsAndRest(modulus, e);
    TurnsAndRest(modulus, f);
    FewerTurns(modulus, p, q);
    FewerTurns(modulus, q, p);
  }

  lemma {:induction false} UnknownSum(modulus: Word, e0: nat, es: Samples<nat>, k: nat)
    requires modulus > 0 && k <= |es| && Rising(e0, es, k)
    ensures var total, last := Accumulated(0, Rest(modulus, e0), Shown(modulus, es), k), LastRead<nat>(e0, es, k);
            && total <= last - e0 && Turns(modulus, e0) <= Turns(modulus, last)
            && (total == last - e0 <==> Turns(modulus, e0) == Turns(modulus, last))
  {
    if k > 0 {
      UnknownSum(modulus, e0, es, k - 1);
      if es[k - 1].Some? {
        var e, f := LastRead<nat>(e0, es, k - 1), es[k - 1].value;
        LastShown(modulus, e0, es, k - 1);
        UnknownRangeDelta(modulus, e, f);
        UnknownRangeBounds(modulus, e, f);
      }
    }
  }

  /** Over a whole run the total is exact exactly when the counter never turned between the first base
      and the last successful read, and too small otherwise. */
  lemma UnknownTotalIsExact(modulus: Word, e0: nat, es: Samples<nat>)
    requires modulus > 0 && Rising(e0, es, |es|)
    ensures var total, last := Accumulated(0, Rest(modulus, e0), Shown(modulus, es), |es|), LastRead<nat>(e0, es, |es|);
            if Turns(modulus, e0) == Turns(modulus, last) then total == last - e0 else total < last - e0
  {
    UnknownSum(modulus, e0, es, |es|);
  }

  // ---------------------------------------------------------------- priming

  /** What a run reports. The energy of the settling time is left out exactly as far as the priming
      read succeeded: if it fails, the total starts at the read made when the domain was found. */
  method MeasureRun(range: Word, found: nat, prime: Option<nat>, es: Samples<nat>) returns (total: nat)
    requires range > 0 && (prime.Some? ==> found <= prime.value)
    requires Rising(if prime.Some? then prime.value else found, es, |es|)
    ensures var start := if prime.Some? then prime.value else found;
            && (total == LastRead<nat>(start, es, |es|) - start <==> ReadOftenEnough(range, start, es))
            && total + range * LostTurns(range, start, es, |es|) == LastRead<nat>(start, es, |es|) - start
  {
    ghost var start := if prime.Some? then prime.value else found;
    var d := new Domain(range, Rest(range, found));
    var rows := d.Record(if prime.Some? then Some(Rest(range, prime.value)) else None, Shown(range, es));
    total := d.totalUj;
    TotalIsExact(range, start, es);
    SumIsEnergyUpToTurns(range, start, es);
  }

  /** The same run where `max_energy_range_uj` could not be read. */
  method MeasureUnknownRun(modulus: Word, found: nat, prime: Option<nat>, es: Samples<nat>) returns (total: nat)
    requires modulus > 0 && (prime.Some? ==> found <= prime.value)
    requires Rising(if prime.Some? then prime.value else found, es, |es|)
    ensures var start := if prime.Some? then prime.value else found;
            var last := LastRead<nat>(start, es, |es|);
            if Turns(modulus, start) == Turns(modulus, last) then total == last - start else total < last - start
  {
    var d := new Domain(0, Rest(modulus, found));
    var rows := d.Record(if prime.Some? then Some(Rest(modulus, prime.value)) else None, Shown(modulus, es));
    total := d.totalUj;
    UnknownTotalIsExact(modulus, if prime.Some? then prime.value else found, es);
  }
}
