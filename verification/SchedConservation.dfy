/**
 Task conservation: after any valid run, counting every shared queue, every local queue, every
 running task and every task between `select_cpu` and `enqueue`, each task that wants to run
 is counted exactly once and no other task is counted at all.
 */
module SchedConservation {
  import opened Wrappers
  import opened Domains
  import opened SchedModel

  function One(b: bool): nat {
    if b then 1 else 0
  }

  function Ids(q: seq<Entry>): (r: seq<nat>)
    ensures |r| == |q| && forall i :: 0 <= i < |q| ==> r[i] == q[i].task
  {
    seq(|q|, i requires 0 <= i < |q| => q[i].task)
  }

  /** Occurrences of task `p` in a queue. */
  function Occ(q: seq<Entry>, p: nat): nat {
    multiset(Ids(q))[p]
  }

  function OccLocal(local: seq<seq<Entry>>, p: nat): nat {
    if local == [] then 0 else OccLocal(local[..|local| - 1], p) + Occ(local[|local| - 1], p)
  }

  function Hit(o: Option<nat>, p: nat): nat {
    if o == Some(p) then 1 else 0
  }

  function OccCurr(curr: seq<Option<nat>>, p: nat): nat {
    if curr == [] then 0 else OccCurr(curr[..|curr| - 1], p) + Hit(curr[|curr| - 1], p)
  }

  /** In how many places task `p` is. */
  function Places(s: State, p: nat): nat {
    Occ(s.big, p) + Occ(s.little, p) + OccLocal(s.local, p) + OccCurr(s.curr, p)
    + if p in s.pending then 1 else 0
  }

  ghost predicate Conserved(s: State) {
    forall p: nat :: Places(s, p) == if p in s.runnable then 1 else 0
  }

  // ---------------------------------------------------------------- counting lemmas

  lemma OccAppend(q: seq<Entry>, e: Entry, p: nat)
    ensures Occ(q + [e], p) == Occ(q, p) + if e.task == p then 1 else 0
  {
    assert Ids(q + [e]) == Ids(q) + [e.task];
  }

  lemma OccRemove(q: seq<Entry>, i: nat, p: nat)
    requires i < |q|
    ensures Occ(q[..i] + q[i + 1..], p) == Occ(q, p) - if q[i].task == p then 1 else 0
  {
    var ids := Ids(q);
    assert Ids(q[..i] + q[i + 1..]) == ids[..i] + ids[i + 1..];
    assert ids == ids[..i] + [ids[i]] + ids[i + 1..];
  }

  lemma OccPositive(q: seq<Entry>, i: nat)
    requires i < |q|
    ensures Occ(q, q[i].task) >= 1
  {
    assert Ids(q)[i] in multiset(Ids(q));
  }

  lemma {:induction false} OccLocalUpdate(local: seq<seq<Entry>>, c: nat, q: seq<Entry>, p: nat)
    requires c < |local|
    ensures OccLocal(local[c := q], p) == OccLocal(local, p) - Occ(local[c], p) + Occ(q, p)
  {
    var n := |local| - 1;
    if c == n {
      assert local[c := q][..n] == local[..n];
    } else {
      assert local[c := q][..n] == local[..n][c := q];
      OccLocalUpdate(local[..n], c, q, p);
    }
  }

  lemma {:induction false} OccLocalHolds(local: seq<seq<Entry>>, c: nat, p: nat)
    requires c < |local|
    ensures Occ(local[c], p) <= OccLocal(local, p)
  {
    if c < |local| - 1 {
      OccLocalHolds(local[..|local| - 1], c, p);
    }
  }

  lemma {:induction false} OccCurrUpdate(curr: seq<Option<nat>>, c: nat, o: Option<nat>, p: nat)
    requires c < |curr|
    ensures OccCurr(curr[c := o], p) == OccCurr(curr, p) - Hit(curr[c], p) + Hit(o, p)
  {
    var n := |curr| - 1;
    if c == n {
      assert curr[c := o][..n] == curr[..n];
    } else {
      assert curr[c := o][..n] == curr[..n][c := o];
      OccCurrUpdate(curr[..n], c, o, p);
    }
  }

  /** Two CPUs running the same task would count it twice. */
  lemma OccCurrTwice(curr: seq<Option<nat>>, c: nat, d: nat, p: nat)
    requires c < |curr| && d < |curr|
    ensures c != d ==> Hit(curr[c], p) + Hit(curr[d], p) <= OccCurr(curr, p)
    ensures Hit(curr[c], p) <= OccCurr(curr, p)
  {
    OccCurrUpdate(curr, c, None, p);
    OccCurrUpdate(curr[c := None], d, None, p);
  }

  // ---------------------------------------------------------------- what each move does

  lemma PlaceOnPlaces(s: State, c: nat, e: Entry, p: nat)
    requires c < |s.idle| == |s.local|
    ensures Places(PlaceOn(s, c, e), p) == Places(s, p) + if e.task == p then 1 else 0
  {
    OccLocalUpdate(s.local, c, s.local[c] + [e], p);
    OccAppend(s.local[c], e, p);
  }

  lemma MovePreserves(w: World, s: State, d: Dom, i: nat, c: nat, p: nat)
    requires WellFormed(w, s) && c < w.cfg.nrCpus && i < |Dsq(s, d)|
    ensures Places(MoveToLocal(w, s, d, i, c), p) == Places(s, p)
  {
    var q := Dsq(s, d);
    OccRemove(q, i, p);
    OccLocalUpdate(s.local, c, s.local[c] + [q[i]], p);
    OccAppend(s.local[c], q[i], p);
  }

  lemma EnqueuePreserves(w: World, s: State, x: nat, p: nat)
    requires ValidWorld(w) && WellFormed(w, s) && x in s.pending
    ensures Places(EnqueueStep(w, s, x), p) == Places(s, p)
  {
    var d := DomOf(s, x);
    OccAppend(Dsq(s, d), Entry(x, Slice(w.cfg, d)), p);
  }

  lemma FetchedPreserves(w: World, s: State, c: nat, d: Dom, i: nat, p: nat)
    requires ValidWorld(w) && WellFormed(w, s) && c < w.cfg.nrCpus && i < |Dsq(s, d)|
    ensures Places(Fetched(w, s, c, d, i), p) == Places(s, p)
    ensures Fetched(w, s, c, d, i).runnable == s.runnable
  {
    var st := if d == DomOfCpu(w.cfg, c) then s.stats.(localHit := s.stats.localHit + 1)
              else s.stats.(steal := s.stats.steal + 1);
    var s1 := s.(kicked := s.kicked[c := false], stats := st);
    assert Places(s1, p) == Places(s, p);
    MovePreserves(w, s1, d, i, c, p);
  }

  lemma DispatchPreserves(w: World, s: State, c: nat, p: nat)
    requires ValidWorld(w) && WellFormed(w, s) && c < w.cfg.nrCpus
    ensures Places(DispatchStep(w, s, c), p) == Places(s, p)
    ensures DispatchStep(w, s, c).runnable == s.runnable
  {
    var src := Source(w, s, c);
    if src.Some? {
      FetchedPreserves(w, s, c, src.value.0, src.value.1, p);
    }
  }

  lemma OccHead(q: seq<Entry>, p: nat)
    requires q != []
    ensures Occ(q, p) == Occ(q[1..], p) + if q[0].task == p then 1 else 0
  {
    assert Ids(q) == [q[0].task] + Ids(q[1..]);
  }

  lemma RunningPreserves(s: State, c: nat, now: nat, p: nat)
    requires c < |s.local| == |s.curr| && s.local[c] != [] && s.local[c][0].task < |s.ctx|
    requires s.curr[c].None?
    ensures Places(RunningStep(s, c, now), p) == Places(s, p)
  {
    var q := s.local[c];
    OccLocalUpdate(s.local, c, q[1..], p);
    OccHead(q, p);
    OccCurrUpdate(s.curr, c, Some(q[0].task), p);
  }

  /** A running task is in no queue, not pending, and on no other CPU. */
  lemma RunsOnlyThere(s: State, c: nat)
    requires Conserved(s) && c < |s.curr| && s.curr[c].Some?
    ensures var p := s.curr[c].value;
            && p in s.runnable && p !in s.pending
            && (forall d, i :: 0 <= i < |Dsq(s, d)| ==> Dsq(s, d)[i].task != p)
            && (forall k, i :: 0 <= k < |s.local| && 0 <= i < |s.local[k]| ==> s.local[k][i].task != p)
            && (forall k :: 0 <= k < |s.curr| && k != c ==> s.curr[k] != Some(p))
  {
    var p := s.curr[c].value;
    OccCurrTwice(s.curr, c, c, p);
    assert Places(s, p) <= 1;
    forall d, i | 0 <= i < |Dsq(s, d)| ensures Dsq(s, d)[i].task != p {
      OccPositive(Dsq(s, d), i);
    }
    forall k, i | 0 <= k < |s.local| && 0 <= i < |s.local[k]| ensures s.local[k][i].task != p {
      OccPositive(s.local[k], i);
      OccLocalHolds(s.local, k, s.local[k][i].task);
    }
    forall k | 0 <= k < |s.curr| && k != c ensures s.curr[k] != Some(p) {
      OccCurrTwice(s.curr, c, k, p);
    }
  }

  /** A task that does not want to run is nowhere. */
  lemma SleepsNowhere(s: State, p: nat)
    requires Conserved(s) && p !in s.runnable
    ensures p !in s.pending
    ensures forall d, i :: 0 <= i < |Dsq(s, d)| ==> Dsq(s, d)[i].task != p
    ensures forall k, i :: 0 <= k < |s.local| && 0 <= i < |s.local[k]| ==> s.local[k][i].task != p
    ensures forall k :: 0 <= k < |s.curr| ==> s.curr[k] != Some(p)
  {
    assert Places(s, p) == 0;
    forall d, i | 0 <= i < |Dsq(s, d)| ensures Dsq(s, d)[i].task != p {
      OccPositive(Dsq(s, d), i);
    }
    forall k, i | 0 <= k < |s.local| && 0 <= i < |s.local[k]| ensures s.local[k][i].task != p {
      OccPositive(s.local[k], i);
      OccLocalHolds(s.local, k, s.local[k][i].task);
    }
    forall k | 0 <= k < |s.curr| ensures s.curr[k] != Some(p) {
      OccCurrTwice(s.curr, k, k, p);
    }
  }

  lemma StoppingMoves(w: World, s: State, c: nat, runnable: bool, now: nat, p: nat)
    requires ValidWorld(w) && WellFormed(w, s) && c < w.cfg.nrCpus && s.curr[c].Some?
    requires Conserved(s)
    ensures var r := StoppingStep(w, s, c, runnable, now);
            Places(r, p) == if p in r.runnable then 1 else 0
  {
    assert Places(s, p) == if p in s.runnable then 1 else 0;
    OccCurrUpdate(s.curr, c, None, p);
    RunsOnlyThere(s, c);
  }

  lemma SelectMoves(w: World, s: State, x: nat, prev: int, p: nat)
    requires ValidWorld(w) && WellFormed(w, s) && x < |w.masks| && x !in s.runnable && Conserved(s)
    ensures var r := SelectStep(w, s, x, prev).0;
            Places(r, p) == if p in r.runnable then 1 else 0
  {
    assert Places(s, p) == if p in s.runnable then 1 else 0;
    var d := DomOf(s, x);
    var e := Entry(x, Slice(w.cfg, d));
    var c := PickIdle(w, s.idle, x, d, prev);
    if c >= 0 {
      PlaceOnPlaces(s, c, e, p);
    } else {
      var s1 := s.(stats := s.stats.(noIdle := s.stats.noIdle + 1));
      var c2 := if w.cfg.strict then -1 else PickIdle(w, s.idle, x, Other(d), -1);
      if c2 >= 0 {
        PlaceOnPlaces(s1, c2, e, p);
      } else {
        SleepsNowhere(s, x);
      }
    }
  }

  lemma StepConserves(w: World, s: State, ev: Event)
    requires ValidWorld(w) && WellFormed(w, s) && Enabled(w, s, ev) && Conserved(s)
    ensures Conserved(Step(w, s, ev))
  {
    forall p: nat ensures Places(Step(w, s, ev), p) == if p in Step(w, s, ev).runnable then 1 else 0 {
      assert Places(s, p) == if p in s.runnable then 1 else 0;
      match ev
      case InitTask(_, _, _) =>
      case Arrive(x) => SleepsNowhere(s, x);
      case SelectCpu(x, prev) => SelectMoves(w, s, x, prev, p);
      case Enqueue(x) => EnqueuePreserves(w, s, x, p);
      case Dispatch(c) => DispatchPreserves(w, s, c, p);
      case Running(c, now) => RunningPreserves(s, c, now, p);
      case Stopping(c, runnable, now) => StoppingMoves(w, s, c, runnable, now, p);
      case LeaveIdle(_) =>
    }
  }

  lemma {:induction false} NobodyRuns(curr: seq<Option<nat>>, p: nat)
    requires forall c :: 0 <= c < |curr| ==> curr[c].None?
    ensures OccCurr(curr, p) == 0
  {
    if curr != [] {
      NobodyRuns(curr[..|curr| - 1], p);
    }
  }

  lemma {:induction false} NothingLocal(local: seq<seq<Entry>>, p: nat)
    requires forall c :: 0 <= c < |local| ==> local[c] == []
    ensures OccLocal(local, p) == 0
  {
    if local != [] {
      NothingLocal(local[..|local| - 1], p);
    }
  }

  /** Conservation over whole runs, for every interleaving of the callbacks: a task that wants to
      run is in exactly one place, any other task is in none. */
  lemma {:induction false} TasksConserved(w: World, evs: seq<Event>)
    requires ValidRun(w, evs)
    ensures Conserved(Reached(w, evs))
  {
    if evs == [] {
      forall p: nat ensures Places(Initial(w), p) == 0 {
        NothingLocal(Initial(w).local, p);
        NobodyRuns(Initial(w).curr, p);
      }
    } else {
      LastStep(w, evs);
      TasksConserved(w, evs[..|evs| - 1]);
      StepConserves(w, Reached(w, evs[..|evs| - 1]), evs[|evs| - 1]);
    }
  }
}
