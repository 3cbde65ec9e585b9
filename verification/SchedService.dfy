/**
 Service of one task over a run. For every task the calls that made it ready to run alternate with
 its starts: it is started once for each of them, before the next, or still waits in one place.
 */
module SchedService {
  import opened Wrappers
  import opened SchedModel
  import opened SchedConservation

  /** What an observer of one task sees, by looking at states and never at counters. */
  datatype Log = Log(
    wakes: nat, arrivals: nat, requeues: nat, placed: nat, enqueues: nat,
    starts: nat, sleeps: nat)
  {
    /** How often the task became ready to run: woken, forked, or stopped without going to sleep. */
    function Ready(): nat {
      wakes + arrivals + requeues
    }
  }

  /** Task `p` is woken by `ev`. */
  predicate WokenBy(ev: Event, p: nat) {
    ev.SelectCpu? && ev.p == p
  }

  /** Task `p` starts at `ev`. */
  ghost predicate StartedBy(w: World, s: State, ev: Event, p: nat)
    requires WellFormed(w, s) && Enabled(w, s, ev)
  {
    ev.Running? && s.local[ev.c][0].task == p
  }

  /** Task `p` stops at `ev`. */
  ghost predicate StoppedBy(w: World, s: State, ev: Event, p: nat)
    requires WellFormed(w, s) && Enabled(w, s, ev)
  {
    ev.Stopping? && s.curr[ev.c].value == p
  }

  ghost function Observe(w: World, s: State, ev: Event, p: nat, l: Log): Log
    requires ValidWorld(w) && WellFormed(w, s) && Enabled(w, s, ev)
  {
    Log(l.wakes + One(WokenBy(ev, p)),
        l.arrivals + One(ev.Arrive? && ev.p == p),
        l.requeues + One(StoppedBy(w, s, ev, p) && ev.runnable),
        l.placed + One(WokenBy(ev, p) && p !in Step(w, s, ev).pending),
        l.enqueues + One(ev.Enqueue? && ev.p == p),
        l.starts + One(StartedBy(w, s, ev, p)),
        l.sleeps + One(StoppedBy(w, s, ev, p) && !ev.runnable))
  }

  /** The log of task `p` over a run. */
  ghost function LogOf(w: World, evs: seq<Event>, p: nat): Log
    requires ValidRun(w, evs)
  {
    if evs == [] then Log(0, 0, 0, 0, 0, 0, 0)
    else
      var before := evs[..|evs| - 1];
      Observe(w, Reached(w, before), evs[|evs| - 1], p, LogOf(w, before, p))
  }

  /** How many copies of task `p` wait: in a shared queue, in a local queue, or for `enqueue`. */
  function PlacesWaiting(s: State, p: nat): nat {
    Occ(s.big, p) + Occ(s.little, p) + OccLocal(s.local, p) + One(p in s.pending)
  }

  /** The starts of `p` against its readiness, and the two ways into a queue. */
  ghost predicate InStep(s: State, p: nat, l: Log) {
    && l.Ready() + OccCurr(s.curr, p) == l.starts + One(p in s.runnable)
    && l.Ready() == l.placed + l.enqueues + One(p in s.pending)
    && l.wakes + l.arrivals == l.sleeps + One(p in s.runnable)
  }

  // ---------------------------------------------------------------- one call

  lemma RunningServes(w: World, s: State, ev: Event, p: nat, l: Log)
    requires ValidWorld(w) && WellFormed(w, s) && Enabled(w, s, ev) && ev.Running? && InStep(s, p, l)
    ensures InStep(Step(w, s, ev), p, Observe(w, s, ev, p, l))
  {
    OccCurrUpdate(s.curr, ev.c, Some(s.local[ev.c][0].task), p);
  }

  lemma StoppingServes(w: World, s: State, ev: Event, p: nat, l: Log)
    requires ValidWorld(w) && WellFormed(w, s) && Enabled(w, s, ev) && ev.Stopping? && Conserved(s) && InStep(s, p, l)
    ensures InStep(Step(w, s, ev), p, Observe(w, s, ev, p, l))
  {
    OccCurrUpdate(s.curr, ev.c, None, p);
    RunsOnlyThere(s, ev.c);
  }

  lemma WakingServes(w: World, s: State, ev: Event, p: nat, l: Log)
    requires ValidWorld(w) && WellFormed(w, s) && Enabled(w, s, ev) && Conserved(s) && InStep(s, p, l)
    requires ev.SelectCpu? || ev.Arrive?
    ensures InStep(Step(w, s, ev), p, Observe(w, s, ev, p, l))
  {
    SleepsNowhere(s, ev.p);
  }

  lemma OtherCallsServe(w: World, s: State, ev: Event, p: nat, l: Log)
    requires ValidWorld(w) && WellFormed(w, s) && Enabled(w, s, ev) && InStep(s, p, l)
    requires ev.InitTask? || ev.Enqueue? || ev.Dispatch? || ev.LeaveIdle?
    ensures InStep(Step(w, s, ev), p, Observe(w, s, ev, p, l))
  {
  }

  lemma StepServes(w: World, s: State, ev: Event, p: nat, l: Log)
    requires ValidWorld(w) && WellFormed(w, s) && Enabled(w, s, ev) && Conserved(s) && InStep(s, p, l)
    ensures InStep(Step(w, s, ev), p, Observe(w, s, ev, p, l))
  {
    if ev.Running? {
      RunningServes(w, s, ev, p, l);
    } else if ev.Stopping? {
      StoppingServes(w, s, ev, p, l);
    } else if ev.SelectCpu? || ev.Arrive? {
      WakingServes(w, s, ev, p, l);
    } else {
      OtherCallsServe(w, s, ev, p, l);
    }
  }

  lemma {:induction false} RunServes(w: World, evs: seq<Event>, p: nat)
    requires ValidRun(w, evs)
    ensures InStep(Reached(w, evs), p, LogOf(w, evs, p))
  {
    if evs == [] {
      NobodyRuns(Initial(w).curr, p);
    } else {
      var before := evs[..|evs| - 1];
      LastStep(w, evs);
      RunServes(w, before, p);
      TasksConserved(w, before);
      StepServes(w, Reached(w, before), evs[|evs| - 1], p, LogOf(w, before, p));
    }
  }

  /** Each time task `p` became ready it was started once or still waits, and it waits in at most one
      place; each of those times it was placed directly or enqueued, once, or has yet to be enqueued. */
  lemma EveryWakeupServedOnce(w: World, evs: seq<Event>, p: nat)
    requires ValidRun(w, evs)
    ensures var s, l := Reached(w, evs), LogOf(w, evs, p);
            && l.Ready() == l.starts + PlacesWaiting(s, p) && PlacesWaiting(s, p) <= 1
            && l.Ready() == l.placed + l.enqueues + One(p in s.pending)
            && l.wakes + l.arrivals == l.sleeps + One(p in s.runnable)
  {
    RunServes(w, evs, p);
    TasksConserved(w, evs);
    var s := Reached(w, evs);
    assert Places(s, p) == PlacesWaiting(s, p) + OccCurr(s.curr, p);
  }

  /** So starts and readiness alternate at every moment of a run: `p` is never started without having
      become ready since its last start, and never becomes ready again before it was started. */
  lemma StartsFollowWakeups(w: World, evs: seq<Event>, k: nat, p: nat)
    requires ValidRun(w, evs) && k <= |evs|
    ensures ValidRun(w, evs[..k])
    ensures LogOf(w, evs[..k], p).starts <= LogOf(w, evs[..k], p).Ready() <= LogOf(w, evs[..k], p).starts + 1
  {
    PrefixRun(w, evs, k);
    EveryWakeupServedOnce(w, evs[..k], p);
  }
}
