/**
 Affinity: `pick_idle_in_dom` does not look at the mask when it takes the previous CPU. That is the
 only way a task can reach a CPU outside its mask, and on which machines it can happen is exact.
 */
module SchedAffinity {
  import opened Wrappers
  import opened Domains
  import opened SchedModel
  import SchedConservation
  import opened SchedPartition
  import SchedFlat

  /** Every task that waits on or runs on a CPU may run there. */
  ghost predicate MasksKept(masks: seq<set<int>>, local: seq<seq<Entry>>, curr: seq<Option<nat>>)
    requires LocalOk(|masks|, local) && CurrOk(|masks|, curr)
  {
    && (forall c, i :: 0 <= c < |local| && 0 <= i < |local[c]| ==> c in masks[local[c][i].task])
    && (forall c :: 0 <= c < |curr| && curr[c].Some? ==> c in masks[curr[c].value])
  }

  /** One wakeup: the task is placed outside its mask exactly when its previous CPU lies outside it
      and is idle and in the task's domain. */
  lemma OutsideMaskOnlyByPrev(w: World, s: State, p: nat, prev: int)
    requires ValidWorld(w) && Neat(w, s) && Enabled(w, s, SelectCpu(p, prev))
    requires p !in s.pending && MasksKept(w.masks, s.local, s.curr)
    ensures var r := SelectStep(w, s, p, prev).0;
            !MasksKept(w.masks, r.local, r.curr)
            <==> PrevUsable(w, s.idle, DomOf(s, p), prev) && prev !in w.masks[p]
  {
    var d := DomOf(s, p);
    var r := SelectStep(w, s, p, prev).0;
    var c := PickIdle(w, s.idle, p, d, prev);
    if c >= 0 {
      assert r.local[c][0].task == p;
    }
  }

  ghost predicate PrevAllowed(w: World, ev: Event) {
    ev.SelectCpu? && ev.p < |w.masks| ==> ev.prev in w.masks[ev.p]
  }

  /** The previous CPU is allowed, or the first branch does not take it. */
  ghost predicate PrevHarmless(w: World, s: State, ev: Event)
    requires ValidWorld(w) && WellFormed(w, s)
  {
    ev.SelectCpu? && ev.p < |w.masks| ==>
      ev.prev in w.masks[ev.p] || !PrevUsable(w, s.idle, DomOf(s, ev.p), ev.prev)
  }

  lemma DispatchKeepsMasks(w: World, s: State, c: nat)
    requires ValidWorld(w) && WellFormed(w, s) && c < w.cfg.nrCpus && MasksKept(w.masks, s.local, s.curr)
    ensures MasksKept(w.masks, DispatchStep(w, s, c).local, DispatchStep(w, s, c).curr)
  {
    DispatchLocal(w, s, c);
  }

  lemma StepKeepsMasks(w: World, s: State, ev: Event)
    requires ValidWorld(w) && Orderly(w, s) && Enabled(w, s, ev) && PrevHarmless(w, s, ev)
    requires MasksKept(w.masks, s.local, s.curr)
    ensures MasksKept(w.masks, Step(w, s, ev).local, Step(w, s, ev).curr)
  {
    if ev.SelectCpu? {
      SchedConservation.SleepsNowhere(s, ev.p);
      OutsideMaskOnlyByPrev(w, s, ev.p, ev.prev);
    } else if ev.Dispatch? {
      DispatchKeepsMasks(w, s, ev.c);
    } else {
      assert Step(w, s, ev).local == s.local
             || (ev.Running? && Step(w, s, ev).local == s.local[ev.c := s.local[ev.c][1..]]);
    }
  }

  /** If the kernel only ever offers an allowed previous CPU, no task ever waits or runs outside its mask. */
  lemma {:induction false} AffinityRespected(w: World, evs: seq<Event>)
    requires ValidRun(w, evs) && forall i :: 0 <= i < |evs| ==> PrevAllowed(w, evs[i])
    ensures MasksKept(w.masks, Reached(w, evs).local, Reached(w, evs).curr)
  {
    if evs != [] {
      var before := evs[..|evs| - 1];
      LastStep(w, evs);
      AffinityRespected(w, before);
      RunOrderly(w, before);
      StepKeepsMasks(w, Reached(w, before), evs[|evs| - 1]);
    }
  }

  // ---------------------------------------------------------------- on which machines it happens

  /** Every task may run on every CPU of every domain that it can ever belong to. */
  ghost predicate MasksCoverDomains(w: World)
    requires ValidWorld(w)
  {
    forall p, k :: 0 <= p < |w.masks| && 0 <= k < w.cfg.nrCpus && SchedFlat.Possible(w.cfg, DomOfCpu(w.cfg, k)) ==>
                     k in w.masks[p]
  }

  ghost predicate Misplaces(w: World, evs: seq<Event>) {
    ValidRun(w, evs) && !MasksKept(w.masks, Reached(w, evs).local, Reached(w, evs).curr)
  }

  /** A task of a CPU's domain is placed there by its first wakeup when all CPUs are idle. */
  lemma MisplacedAtOnce(w: World, s: State, p: nat, k: nat)
    requires ValidWorld(w) && WellFormed(w, s) && Neat(w, s) && p < |w.masks| && k < w.cfg.nrCpus
    requires p !in s.runnable && p !in s.pending && DomOf(s, p) == DomOfCpu(w.cfg, k) && k !in w.masks[p] && s.idle[k]
    ensures var r := SelectStep(w, s, p, k).0; !MasksKept(w.masks, r.local, r.curr)
  {
    var r := SelectStep(w, s, p, k).0;
    assert r.local[k][0].task == p;
  }

  /** Unless the masks cover the domains, two calls misplace a task. */
  lemma MisplacingRun(w: World, p: nat, k: nat) returns (evs: seq<Event>)
    requires ValidWorld(w) && p < |w.masks| && k < w.cfg.nrCpus && k !in w.masks[p]
    requires SchedFlat.Possible(w.cfg, DomOfCpu(w.cfg, k))
    ensures Misplaces(w, evs)
    ensures evs == (if DomOfCpu(w.cfg, k) == Big then [] else [InitTask(p, None, true)]) + [SelectCpu(p, k)]
  {
    var before := FirstCalls(w, p, DomOfCpu(w.cfg, k));
    evs := before + [SelectCpu(p, k)];
    assert evs[..|evs| - 1] == before;
    RunOrderly(w, before);
    MisplacedAtOnce(w, Reached(w, before), p, k);
  }

  /** A sleeping task of domain `d` on an idle machine. */
  lemma FirstCalls(w: World, p: nat, d: Dom) returns (evs: seq<Event>)
    requires ValidWorld(w) && p < |w.masks| && SchedFlat.Possible(w.cfg, d)
    ensures evs == (if d == Big then [] else [InitTask(p, None, true)]) && ValidRun(w, evs)
    ensures var s := Reached(w, evs);
            DomOf(s, p) == d && p !in s.runnable && p !in s.pending && forall k :: 0 <= k < |s.idle| ==> s.idle[k]
  {
    evs := if d == Big then [] else [InitTask(p, None, true)];
    assert After(w, []) == Some(Initial(w));
    if d != Big {
      assert evs[..0] == [];
    }
  }

  lemma {:induction false} CoveredMasksKept(w: World, evs: seq<Event>)
    requires ValidRun(w, evs) && MasksCoverDomains(w)
    ensures !Misplaces(w, evs)
  {
    if evs != [] {
      var before, ev := evs[..|evs| - 1], evs[|evs| - 1];
      LastStep(w, evs);
      CoveredMasksKept(w, before);
      RunOrderly(w, before);
      if ev.SelectCpu? {
        DomainPossible(w, before, ev.p);
      }
      StepKeepsMasks(w, Reached(w, before), ev);
    }
  }

  lemma DomainPossible(w: World, evs: seq<Event>, p: nat)
    requires ValidRun(w, evs) && p < |w.masks|
    ensures SchedFlat.Possible(w.cfg, DomOf(Reached(w, evs), p))
  {
    if w.cfg.mode == Flat {
      SchedFlat.FlatIsBig(w, evs);
    }
  }

  /** No run ever places a task outside its mask exactly when every mask covers the domains its task can
      belong to. */
  lemma MisplacesExactly(w: World)
    requires ValidWorld(w)
    ensures (forall evs :: !Misplaces(w, evs)) <==> MasksCoverDomains(w)
  {
    if MasksCoverDomains(w) {
      forall evs ensures !Misplaces(w, evs) {
        if ValidRun(w, evs) {
          CoveredMasksKept(w, evs);
        }
      }
    } else {
      var p, k :| 0 <= p < |w.masks| && 0 <= k < w.cfg.nrCpus && SchedFlat.Possible(w.cfg, DomOfCpu(w.cfg, k))
                  && k !in w.masks[p];
      var evs := MisplacingRun(w, p, k);
    }
  }

  /** Two BIG CPUs in flat mode and one task that may run on CPU 1 only. */
  function Pinned(): World {
    SchedFlat.Machine(2, 2, false, [{1}])
  }

  /** Its first wakeup, with previous CPU 0, puts it on CPU 0. */
  lemma PinnedTaskMisplaced()
    ensures Misplaces(Pinned(), [SelectCpu(0, 0)])
  {
    var evs := MisplacingRun(Pinned(), 0, 0);
    assert evs == [SelectCpu(0, 0)];
  }
}
