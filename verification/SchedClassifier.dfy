/**
 The classifier inside the scheduler: over any run, a task's class is the classifier of
 `Hysteresis` applied to the task's own slices, however the callbacks interleave.
 */
module SchedClassifier {
  import opened Wrappers
  import opened Domains
  import opened SchedModel
  import opened Hysteresis

  /** The call ends an on-CPU slice of task `p` that the scheduler accounts. */
  ghost predicate EndsSlice(w: World, s: State, ev: Event, p: nat)
    requires WellFormed(w, s) && Enabled(w, s, ev)
  {
    ev.Stopping? && s.curr[ev.c] == Some(p) && p < |s.ctx| && s.ctx[p].Some? && s.ctx[p].value.startedAt != 0
  }

  /** The slices of task `p` so far, in order. */
  ghost function Slices(w: World, evs: seq<Event>, p: nat): seq<nat>
    requires ValidRun(w, evs)
  {
    if evs == [] then []
    else
      var before, ev := evs[..|evs| - 1], evs[|evs| - 1];
      var s := Reached(w, before);
      Slices(w, before, p)
      + if EndsSlice(w, s, ev, p) then [Delta(ev.now, s.ctx[p].value.startedAt)] else []
  }

  /** Domain and pin that `init_task` gave task `p`, `None` if it has no storage. */
  ghost function Born(w: World, evs: seq<Event>, p: nat): Option<(Dom, bool)>
    requires ValidWorld(w)
  {
    if evs == [] then None
    else
      var ev := evs[|evs| - 1];
      if ev.InitTask? && ev.p == p && ev.ok then Some(InitialDomain(w.cfg, ev.comm))
      else Born(w, evs[..|evs| - 1], p)
  }

  ghost predicate Tracks(cfg: Config, tc: Option<TaskCtx>, born: Option<(Dom, bool)>, ds: seq<nat>) {
    if tc.None? then born.None? && ds == []
    else
      && born.Some? && tc.value.pinned == born.value.1
      && var cl := Stops(cfg.threshNs, Class(born.value.0, 0), ds);
      && tc.value.ewma == cl.ewma
      && tc.value.domain == if born.value.1 || !Adapts(cfg.mode) then born.value.0 else cl.domain
  }

  lemma StopTracks(cfg: Config, tc: TaskCtx, born: Option<(Dom, bool)>, ds: seq<nat>, cd: Dom, now: nat)
    requires Tracks(cfg, Some(tc), born, ds) && tc.startedAt != 0
    ensures Tracks(cfg, Some(StopCtx(cfg, tc, cd, now)), born, ds + [Delta(now, tc.startedAt)])
  {
    var d := Delta(now, tc.startedAt);
    var c0 := Class(born.value.0, 0);
    StopsAppend(cfg.threshNs, c0, ds, [d]);
    var cl := Stops(cfg.threshNs, c0, ds);
    assert Stops(cfg.threshNs, cl, [d]) == Stop(cfg.threshNs, cl, d);
  }

  lemma StepCtx(w: World, s: State, ev: Event, p: nat)
    requires ValidWorld(w) && WellFormed(w, s) && Enabled(w, s, ev) && p < |w.masks|
    requires !(ev.InitTask? && ev.p == p && ev.ok)
    ensures var r := Step(w, s, ev);
            if EndsSlice(w, s, ev, p) then
              r.ctx[p] == Some(StopCtx(w.cfg, s.ctx[p].value, DomOfCpu(w.cfg, ev.c), ev.now))
            else
              r.ctx[p] == s.ctx[p]
              || (s.ctx[p].Some? && r.ctx[p].Some?
                  && r.ctx[p].value == s.ctx[p].value.(startedAt := r.ctx[p].value.startedAt))
  {
    match ev
    case Dispatch(c) => assert Step(w, s, ev).ctx == s.ctx;
    case Enqueue(x) => assert Step(w, s, ev).ctx == s.ctx;
    case SelectCpu(x, prev) => assert Step(w, s, ev).ctx == s.ctx;
    case _ =>
  }

  /** Over any run the class of every task is the classifier applied to its own slices from its initial
      domain; outside the adaptive modes, or when a command rule pinned it, the domain never changes. */
  lemma {:induction false} ClassIsFoldOfSlices(w: World, evs: seq<Event>, p: nat)
    requires ValidRun(w, evs) && p < |w.masks|
    ensures Tracks(w.cfg, Reached(w, evs).ctx[p], Born(w, evs, p), Slices(w, evs, p))
  {
    if evs != [] {
      var before, ev := evs[..|evs| - 1], evs[|evs| - 1];
      LastStep(w, evs);
      ClassIsFoldOfSlices(w, before, p);
      var s := Reached(w, before);
      if ev.InitTask? && ev.p == p && ev.ok {
        assert Slices(w, evs, p) == [];
      } else {
        StepCtx(w, s, ev, p);
        if EndsSlice(w, s, ev, p) {
          StopTracks(w.cfg, s.ctx[p].value, Born(w, before, p), Slices(w, before, p), DomOfCpu(w.cfg, ev.c), ev.now);
        } else {
          assert Slices(w, evs, p) == Slices(w, before, p);
        }
      }
    }
  }

  /** A task pinned by a command rule keeps the domain of its rule for the whole run. */
  lemma PinnedNeverMoves(w: World, evs: seq<Event>, p: nat)
    requires ValidRun(w, evs) && p < |w.masks|
    requires Reached(w, evs).ctx[p].Some? && Reached(w, evs).ctx[p].value.pinned
    ensures Born(w, evs, p) == Some((DomOf(Reached(w, evs), p), true))
  {
    ClassIsFoldOfSlices(w, evs, p);
  }

  /** How many slices of `p` ended since its last promotion, `None` if it was never promoted. */
  ghost function Since(w: World, evs: seq<Event>, p: nat): Option<nat>
    requires ValidRun(w, evs) && p < |w.masks|
  {
    if evs == [] then None
    else
      var before, ev := evs[..|evs| - 1], evs[|evs| - 1];
      var s := Reached(w, before);
      var n := Since(w, before, p);
      if !EndsSlice(w, s, ev, p) then n
      else if DomOf(s, p) == Little && DomOf(Reached(w, evs), p) == Big then Some(0)
      else if n.Some? then Some(n.value + 1)
      else None
  }

  /** What `n` stops can have taken from the EWMA of a task promoted at threshold `t`. */
  predicate Fresh(t: nat, tc: Option<TaskCtx>, n: Option<nat>) {
    n.Some? ==>
      tc.Some? && (n.value <= 2 ==>
        && tc.value.domain == Big
        && (n.value == 0 ==> tc.value.ewma > t)
        && (n.value == 1 ==> 4 * tc.value.ewma >= 3 * t)
        && (n.value == 2 ==> 16 * tc.value.ewma + 12 >= 9 * t))
  }

  lemma StopFresh(cfg: Config, tc: TaskCtx, n: Option<nat>, cd: Dom, now: nat)
    requires Fresh(cfg.threshNs, Some(tc), n) && tc.startedAt != 0
    requires tc.ewma < SANE && Delta(now, tc.startedAt) < SANE
    ensures var tc' := StopCtx(cfg, tc, cd, now);
            Fresh(cfg.threshNs, Some(tc'),
                  if tc.domain == Little && tc'.domain == Big then Some(0)
                  else if n.Some? then Some(n.value + 1) else None)
  {
    EwmaBetween(tc.ewma, Delta(now, tc.startedAt));
    var e := Ewma(tc.ewma, Delta(now, tc.startedAt));
    assert 4 * e + 3 >= 3 * tc.ewma;
  }

  /** Hysteresis in a run: a task that is LITTLE after having been promoted has ended at least three
      slices since that promotion, however many other calls came between. */
  lemma {:induction false} NoPingPong(w: World, evs: seq<Event>, p: nat)
    requires ValidRun(w, evs) && p < |w.masks| && Within(Slices(w, evs, p), 0, SANE)
    ensures Fresh(w.cfg.threshNs, Reached(w, evs).ctx[p], Since(w, evs, p))
    ensures Since(w, evs, p).Some? && DomOf(Reached(w, evs), p) == Little ==> Since(w, evs, p).value >= 3
  {
    if evs != [] {
      var before, ev := evs[..|evs| - 1], evs[|evs| - 1];
      LastStep(w, evs);
      var s := Reached(w, before);
      var ds := Slices(w, before, p);
      assert ds <= Slices(w, evs, p);
      assert Within(ds, 0, SANE) by {
        assert forall i :: 0 <= i < |ds| ==> ds[i] == Slices(w, evs, p)[i];
      }
      NoPingPong(w, before, p);
      ClassIsFoldOfSlices(w, before, p);
      if EndsSlice(w, s, ev, p) {
        StepCtx(w, s, ev, p);
        var tc := s.ctx[p].value;
        assert Slices(w, evs, p)[|ds|] == Delta(ev.now, tc.startedAt);
        EwmaBounded(w.cfg.threshNs, Class(Born(w, before, p).value.0, 0), ds, 0, SANE);
        StopFresh(w.cfg, tc, Since(w, before, p), DomOfCpu(w.cfg, ev.c), ev.now);
      } else if !(ev.InitTask? && ev.p == p) {
        StepCtx(w, s, ev, p);
      }
    }
  }

  lemma FoldDecides(t: nat, c0: Class, earlier: seq<nat>, recent: seq<nat>)
    requires c0.ewma == 0 && recent != [] && Within(earlier, 0, SANE)
    ensures var e := Stops(t, c0, earlier).ewma;
            && (Within(recent, t + 4, SANE) && |recent| >= StopsToPromote(Gap(t, e)) ==>
                  Stops(t, c0, earlier + recent).domain == Big)
            && (Within(recent, 0, t / 2) && t / 2 <= SANE && |recent| >= StopsToDemote(e - t / 2) ==>
                  Stops(t, c0, earlier + recent).domain == Little)
  {
    StopsAppend(t, c0, earlier, recent);
    EwmaBounded(t, c0, earlier, 0, SANE);
    var c := Stops(t, c0, earlier);
    if Within(recent, t + 4, SANE) && |recent| >= StopsToPromote(Gap(t, c.ewma)) {
      ConvergesToBig(t, c, recent);
    }
    if Within(recent, 0, t / 2) && t / 2 <= SANE && |recent| >= StopsToDemote(c.ewma - t / 2) {
      ConvergesToLittle(t, c, recent);
    }
  }

  /** `recent` long slices after `earlier` end in BIG, `recent` short ones in LITTLE, if there are enough. */
  ghost predicate Settles(cfg: Config, born: Dom, earlier: seq<nat>, recent: seq<nat>, last: Dom) {
    var t := cfg.threshNs;
    var e := Stops(t, Class(born, 0), earlier).ewma;
    && (Within(recent, t + 4, SANE) && |recent| >= StopsToPromote(Gap(t, e)) ==> last == Big)
    && (Within(recent, 0, t / 2) && t / 2 <= SANE && |recent| >= StopsToDemote(e - t / 2) ==> last == Little)
  }

  lemma TrackedDecides(cfg: Config, tc: TaskCtx, born: (Dom, bool), earlier: seq<nat>, recent: seq<nat>)
    requires Tracks(cfg, Some(tc), Some(born), earlier + recent) && !tc.pinned && Adapts(cfg.mode)
    requires recent != [] && Within(earlier, 0, SANE)
    ensures Settles(cfg, born.0, earlier, recent, tc.domain)
  {
    FoldDecides(cfg.threshNs, Class(born.0, 0), earlier, recent);
  }

  /** Convergence in a run: once the latest slices of an unpinned adaptive task are all long, and there
      are enough of them, it is in the BIG domain; likewise LITTLE for short ones. */
  lemma RecentSlicesDecide(w: World, evs: seq<Event>, p: nat, earlier: seq<nat>, recent: seq<nat>)
    requires ValidRun(w, evs) && p < |w.masks|
    requires Reached(w, evs).ctx[p].Some? && !Reached(w, evs).ctx[p].value.pinned && Adapts(w.cfg.mode)
    requires Born(w, evs, p).Some? && Slices(w, evs, p) == earlier + recent && recent != [] && Within(earlier, 0, SANE)
    ensures Settles(w.cfg, Born(w, evs, p).value.0, earlier, recent, DomOf(Reached(w, evs), p))
  {
    ClassIsFoldOfSlices(w, evs, p);
    TrackedDecides(w.cfg, Reached(w, evs).ctx[p].value, Born(w, evs, p).value, earlier, recent);
  }
}
