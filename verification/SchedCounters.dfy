/**
 The counter array against the history of calls. A `Ledger` records what an observer sees at each
 call, by looking at the states before and after and never at the counters; after every run the
 counters balance against it.
 */
module SchedCounters {
  import opened Wrappers
  import opened Domains
  import opened SchedModel
  import opened SchedConservation
  import opened SchedPartition

  datatype Ledger = Ledger(
    wakes: nat, arrivals: nat, requeues: nat, sleeps: nat, enqueues: nat, spills: nat,
    starts: nat, stops: nat, promotions: nat, demotions: nat)

  /** `select_cpu` put the task on a CPU of the other domain. */
  ghost predicate Spills(w: World, s: State, ev: Event)
    requires ValidWorld(w) && WellFormed(w, s) && Enabled(w, s, ev)
  {
    ev.SelectCpu?
    && ev.p !in Step(w, s, ev).pending
    && DomOfCpu(w.cfg, SelectStep(w, s, ev.p, ev.prev).1) != DomOf(s, ev.p)
  }

  /** `stopping` moved its task from domain `from` to the other one. */
  ghost predicate Moves(w: World, s: State, ev: Event, from: Dom)
    requires ValidWorld(w) && WellFormed(w, s) && Enabled(w, s, ev)
  {
    ev.Stopping? && DomOf(s, s.curr[ev.c].value) == from && DomOf(Step(w, s, ev), s.curr[ev.c].value) != from
  }

  ghost function Note(w: World, s: State, ev: Event, l: Ledger): Ledger
    requires ValidWorld(w) && WellFormed(w, s) && Enabled(w, s, ev)
  {
    Ledger(l.wakes + One(ev.SelectCpu?), l.arrivals + One(ev.Arrive?),
           l.requeues + One(ev.Stopping? && ev.runnable), l.sleeps + One(ev.Stopping? && !ev.runnable),
           l.enqueues + One(ev.Enqueue?), l.spills + One(Spills(w, s, ev)),
           l.starts + One(ev.Running?), l.stops + One(ev.Stopping?),
           l.promotions + One(Moves(w, s, ev, Little)), l.demotions + One(Moves(w, s, ev, Big)))
  }

  ghost function Book(w: World, evs: seq<Event>): Ledger
    requires ValidRun(w, evs)
  {
    if evs == [] then Ledger(0, 0, 0, 0, 0, 0, 0, 0, 0, 0)
    else
      var before := evs[..|evs| - 1];
      Note(w, Reached(w, before), evs[|evs| - 1], Book(w, before))
  }

  /** CPUs with a task on their local queue. */
  function Loaded(local: seq<seq<Entry>>): set<nat> {
    set c: nat | c < |local| && local[c] != []
  }

  /** CPUs running a task. */
  function Busy(curr: seq<Option<nat>>): set<nat> {
    set c: nat | c < |curr| && curr[c].Some?
  }

  /** Tasks the scheduler classifies as `d`. */
  function TasksIn(ctx: seq<Option<TaskCtx>>, d: Dom): set<nat> {
    set p: nat | p < |ctx| && InDom(ctx[p], d)
  }

  predicate InDom(tc: Option<TaskCtx>, d: Dom) {
    tc.Some? && tc.value.domain == d
  }

  /** The queueing counters. */
  ghost predicate QueueBalance(s: State, l: Ledger) {
    && s.stats.enq == s.stats.dsqBig + s.stats.dsqLittle == l.enqueues
    && s.stats.enq + l.spills == |s.big| + |s.little| + s.stats.localHit + s.stats.steal
    && l.wakes + l.arrivals + l.requeues == s.stats.direct + s.stats.enq + |s.pending|
    && l.wakes + l.spills == s.stats.direct + s.stats.noIdle
  }

  /** The starting and stopping of tasks. */
  ghost predicate FlowBalance(s: State, l: Ledger) {
    && s.stats.direct + s.stats.localHit + s.stats.steal == l.starts + |Loaded(s.local)| + l.spills
    && l.starts == l.stops + |Busy(s.curr)|
    && l.stops == l.requeues + l.sleeps
    && |s.runnable| + l.sleeps == l.wakes + l.arrivals
  }

  /** The classification counters. */
  ghost predicate ClassBalance(s: State, l: Ledger) {
    && s.stats.reclassify == l.promotions + l.demotions
    && |TasksIn(s.ctx, Big)| + l.demotions == s.stats.tasksBig + l.promotions
    && |TasksIn(s.ctx, Little)| + l.promotions == s.stats.tasksLittle + l.demotions
  }

  // ---------------------------------------------------------------- set updates

  /** Two sets that agree except perhaps on `x`. */
  lemma DifferAt(a: set<nat>, b: set<nat>, x: nat)
    requires a - {x} == b - {x}
    ensures |b| + One(x in a) == |a| + One(x in b)
  {
    assert a == if x in a then (a - {x}) + {x} else a - {x};
    assert b == if x in b then (a - {x}) + {x} else a - {x};
  }

  lemma LoadedUpdate(local: seq<seq<Entry>>, c: nat, q: seq<Entry>)
    requires c < |local|
    ensures |Loaded(local[c := q])| + One(local[c] != []) == |Loaded(local)| + One(q != [])
  {
    DifferAt(Loaded(local), Loaded(local[c := q]), c);
  }

  lemma BusyUpdate(curr: seq<Option<nat>>, c: nat, o: Option<nat>)
    requires c < |curr|
    ensures |Busy(curr[c := o])| + One(curr[c].Some?) == |Busy(curr)| + One(o.Some?)
  {
    DifferAt(Busy(curr), Busy(curr[c := o]), c);
  }

  lemma TasksInUpdate(ctx: seq<Option<TaskCtx>>, p: nat, tc: TaskCtx, d: Dom)
    requires p < |ctx|
    ensures |TasksIn(ctx[p := Some(tc)], d)| + One(InDom(ctx[p], d)) == |TasksIn(ctx, d)| + One(tc.domain == d)
  {
    var a, b := TasksIn(ctx, d), TasksIn(ctx[p := Some(tc)], d);
    assert forall q :: q in a - {p} <==> q in b - {p};
    DifferAt(a, b, p);
  }

  // ---------------------------------------------------------------- one call

  /** What `bls_select_cpu` adds to the counters: one waiting task, or one placed task that may be a
      spill. */
  lemma SelectStats(w: World, s: State, p: nat, prev: int)
    requires ValidWorld(w) && WellFormed(w, s) && p < |w.masks| && p !in s.pending
    ensures var (r, c) := SelectStep(w, s, p, prev);
            var waits := p in r.pending;
            var spills := !waits && DomOfCpu(w.cfg, c) != DomOf(s, p);
            r.stats == s.stats.(direct := s.stats.direct + One(!waits), steal := s.stats.steal + One(spills),
                                noIdle := s.stats.noIdle + One(waits || spills))
  {
  }

  /** And to the places where tasks are. */
  lemma SelectPlaces(w: World, s: State, p: nat, prev: int)
    requires ValidWorld(w) && Neat(w, s) && Enabled(w, s, SelectCpu(p, prev)) && p !in s.pending
    ensures var r := SelectStep(w, s, p, prev).0;
            var waits := p in r.pending;
            && r.big == s.big && r.little == s.little && r.curr == s.curr
            && |r.runnable| == |s.runnable| + 1 && |r.pending| == |s.pending| + One(waits)
            && |Loaded(r.local)| == |Loaded(s.local)| + One(!waits)
  {
    var c := SelectLocal(w, s, p, prev);
    if c >= 0 {
      LoadedUpdate(s.local, c, [Entry(p, Slice(w.cfg, DomOf(s, p)))]);
    }
  }

  lemma SelectBalance(w: World, s: State, p: nat, prev: int, l: Ledger)
    requires ValidWorld(w) && Orderly(w, s) && Enabled(w, s, SelectCpu(p, prev))
    requires QueueBalance(s, l) && FlowBalance(s, l)
    ensures var r, m := Step(w, s, SelectCpu(p, prev)), Note(w, s, SelectCpu(p, prev), l);
            QueueBalance(r, m) && FlowBalance(r, m)
  {
    SleepsNowhere(s, p);
    SelectStats(w, s, p, prev);
    SelectPlaces(w, s, p, prev);
  }

  /** What a successful dispatch moves: one entry, one hit or steal. */
  lemma FetchShape(w: World, s: State, c: nat, d: Dom, i: nat)
    requires ValidWorld(w) && WellFormed(w, s) && c < w.cfg.nrCpus && i < |Dsq(s, d)| && s.local[c] == []
    ensures var r := Fetched(w, s, c, d, i);
            && |r.big| + |r.little| + 1 == |s.big| + |s.little|
            && r.curr == s.curr && r.pending == s.pending && r.runnable == s.runnable
            && |Loaded(r.local)| == |Loaded(s.local)| + 1
            && r.stats == s.stats.(localHit := r.stats.localHit, steal := r.stats.steal)
            && r.stats.localHit + r.stats.steal == s.stats.localHit + s.stats.steal + 1
  {
    LoadedUpdate(s.local, c, s.local[c] + [Dsq(s, d)[i]]);
  }

  lemma DispatchBalance(w: World, s: State, c: nat, l: Ledger)
    requires ValidWorld(w) && WellFormed(w, s) && Enabled(w, s, Dispatch(c))
    requires QueueBalance(s, l) && FlowBalance(s, l)
    ensures QueueBalance(DispatchStep(w, s, c), l) && FlowBalance(DispatchStep(w, s, c), l)
  {
    if Source(w, s, c).Some? {
      FetchShape(w, s, c, Source(w, s, c).value.0, Source(w, s, c).value.1);
    }
  }

  lemma StoppingShape(w: World, s: State, c: nat, runnable: bool, now: nat)
    requires ValidWorld(w) && WellFormed(w, s) && c < w.cfg.nrCpus && s.curr[c].Some?
    ensures var r, p := StoppingStep(w, s, c, runnable, now), s.curr[c].value;
            && r.big == s.big && r.little == s.little && r.local == s.local && r.curr == s.curr[c := None]
            && r.pending == (if runnable then s.pending + {p} else s.pending)
            && r.runnable == (if runnable then s.runnable else s.runnable - {p})
            && r.stats == s.stats.(reclassify := r.stats.reclassify, runBigMs := r.stats.runBigMs,
                                   runLittleMs := r.stats.runLittleMs)
  {
  }

  lemma ArriveFlow(w: World, s: State, p: nat, l: Ledger)
    requires ValidWorld(w) && Orderly(w, s) && Enabled(w, s, Arrive(p))
    requires QueueBalance(s, l) && FlowBalance(s, l)
    ensures var r, m := Step(w, s, Arrive(p)), Note(w, s, Arrive(p), l);
            QueueBalance(r, m) && FlowBalance(r, m)
  {
    SleepsNowhere(s, p);
  }

  lemma EnqueueFlow(w: World, s: State, p: nat, l: Ledger)
    requires ValidWorld(w) && WellFormed(w, s) && Enabled(w, s, Enqueue(p))
    requires QueueBalance(s, l) && FlowBalance(s, l)
    ensures var r, m := Step(w, s, Enqueue(p)), Note(w, s, Enqueue(p), l);
            QueueBalance(r, m) && FlowBalance(r, m)
  {
  }

  lemma StoppingPlaces(w: World, s: State, c: nat, runnable: bool, now: nat)
    requires ValidWorld(w) && Orderly(w, s) && Enabled(w, s, Stopping(c, runnable, now))
    ensures var r := StoppingStep(w, s, c, runnable, now);
            && |r.pending| == |s.pending| + One(runnable) && |r.runnable| + One(!runnable) == |s.runnable|
            && |Busy(r.curr)| + 1 == |Busy(s.curr)|
  {
    assert s.curr[c].value in s.runnable && s.curr[c].value !in s.pending by { RunsOnlyThere(s, c); }
    StoppingShape(w, s, c, runnable, now);
    BusyUpdate(s.curr, c, None);
  }

  lemma StoppingFlow(w: World, s: State, c: nat, runnable: bool, now: nat, l: Ledger)
    requires ValidWorld(w) && Orderly(w, s) && Enabled(w, s, Stopping(c, runnable, now))
    requires QueueBalance(s, l) && FlowBalance(s, l)
    ensures var r, m := Step(w, s, Stopping(c, runnable, now)), Note(w, s, Stopping(c, runnable, now), l);
            QueueBalance(r, m) && FlowBalance(r, m)
  {
    StoppingShape(w, s, c, runnable, now);
    StoppingPlaces(w, s, c, runnable, now);
  }

  lemma StoppingClass(w: World, s: State, c: nat, runnable: bool, now: nat, l: Ledger)
    requires ValidWorld(w) && WellFormed(w, s) && Enabled(w, s, Stopping(c, runnable, now))
    requires ClassBalance(s, l)
    ensures ClassBalance(Step(w, s, Stopping(c, runnable, now)), Note(w, s, Stopping(c, runnable, now), l))
  {
    var p := s.curr[c].value;
    if s.ctx[p].Some? {
      var tc' := StopCtx(w.cfg, s.ctx[p].value, DomOfCpu(w.cfg, c), now);
      TasksInUpdate(s.ctx, p, tc', Big);
      TasksInUpdate(s.ctx, p, tc', Little);
    }
  }

  lemma RunningFlow(w: World, s: State, c: nat, now: nat, l: Ledger)
    requires ValidWorld(w) && Neat(w, s) && Enabled(w, s, Running(c, now))
    requires QueueBalance(s, l) && FlowBalance(s, l)
    ensures var r, m := Step(w, s, Running(c, now)), Note(w, s, Running(c, now), l);
            QueueBalance(r, m) && FlowBalance(r, m)
  {
    LoadedUpdate(s.local, c, s.local[c][1..]);
    BusyUpdate(s.curr, c, Some(s.local[c][0].task));
  }

  lemma QuietFlow(w: World, s: State, ev: Event, l: Ledger)
    requires ValidWorld(w) && Orderly(w, s) && Enabled(w, s, ev)
    requires ev.InitTask? || ev.Arrive? || ev.Enqueue? || ev.LeaveIdle?
    requires QueueBalance(s, l) && FlowBalance(s, l)
    ensures QueueBalance(Step(w, s, ev), Note(w, s, ev, l)) && FlowBalance(Step(w, s, ev), Note(w, s, ev, l))
  {
    if ev.Arrive? {
      ArriveFlow(w, s, ev.p, l);
    } else if ev.Enqueue? {
      EnqueueFlow(w, s, ev.p, l);
    }
  }

  lemma StepFlow(w: World, s: State, ev: Event, l: Ledger)
    requires ValidWorld(w) && Orderly(w, s) && Enabled(w, s, ev)
    requires QueueBalance(s, l) && FlowBalance(s, l)
    ensures QueueBalance(Step(w, s, ev), Note(w, s, ev, l)) && FlowBalance(Step(w, s, ev), Note(w, s, ev, l))
  {
    if ev.SelectCpu? {
      SelectBalance(w, s, ev.p, ev.prev, l);
    } else if ev.Dispatch? {
      DispatchBalance(w, s, ev.c, l);
    } else if ev.Running? {
      RunningFlow(w, s, ev.c, ev.now, l);
    } else if ev.Stopping? {
      StoppingFlow(w, s, ev.c, ev.runnable, ev.now, l);
    } else {
      QuietFlow(w, s, ev, l);
    }
  }

  lemma InitClass(w: World, s: State, ev: Event, l: Ledger)
    requires ValidWorld(w) && WellFormed(w, s) && ev.InitTask? && Enabled(w, s, ev) && ClassBalance(s, l)
    ensures ClassBalance(Step(w, s, ev), Note(w, s, ev, l))
  {
    if ev.ok {
      var tc := Step(w, s, ev).ctx[ev.p].value;
      TasksInUpdate(s.ctx, ev.p, tc, Big);
      TasksInUpdate(s.ctx, ev.p, tc, Little);
    }
  }

  lemma RunningClass(w: World, s: State, ev: Event, l: Ledger)
    requires ValidWorld(w) && WellFormed(w, s) && ev.Running? && Enabled(w, s, ev) && ClassBalance(s, l)
    ensures ClassBalance(Step(w, s, ev), Note(w, s, ev, l))
  {
    var p := s.local[ev.c][0].task;
    if s.ctx[p].Some? {
      TasksInUpdate(s.ctx, p, s.ctx[p].value.(startedAt := ev.now), Big);
      TasksInUpdate(s.ctx, p, s.ctx[p].value.(startedAt := ev.now), Little);
    }
  }

  lemma StepClass(w: World, s: State, ev: Event, l: Ledger)
    requires ValidWorld(w) && WellFormed(w, s) && Enabled(w, s, ev) && ClassBalance(s, l)
    ensures ClassBalance(Step(w, s, ev), Note(w, s, ev, l))
  {
    if ev.InitTask? {
      InitClass(w, s, ev, l);
    } else if ev.Running? {
      RunningClass(w, s, ev, l);
    } else if ev.Stopping? {
      StoppingClass(w, s, ev.c, ev.runnable, ev.now, l);
    } else if ev.Dispatch? {
      DispatchLocal(w, s, ev.c);
    }
  }

  /** After every run the counters balance against the observed history. */
  lemma {:induction false} CountersBalance(w: World, evs: seq<Event>)
    requires ValidRun(w, evs)
    ensures QueueBalance(Reached(w, evs), Book(w, evs))
    ensures FlowBalance(Reached(w, evs), Book(w, evs))
    ensures ClassBalance(Reached(w, evs), Book(w, evs))
  {
    if evs == [] {
      var s := Initial(w);
      assert Loaded(s.local) == {} && Busy(s.curr) == {};
      assert TasksIn(s.ctx, Big) == {} && TasksIn(s.ctx, Little) == {};
    } else {
      var before := evs[..|evs| - 1];
      LastStep(w, evs);
      CountersBalance(w, before);
      RunOrderly(w, before);
      StepFlow(w, Reached(w, before), evs[|evs| - 1], Book(w, before));
      StepClass(w, Reached(w, before), evs[|evs| - 1], Book(w, before));
    }
  }

  /** In total as many starts as tasks became runnable, less those that still wait; the waiting and the
      running ones are all the runnable tasks. */
  lemma WakeupTotals(w: World, evs: seq<Event>)
    requires ValidRun(w, evs)
    ensures var s, l := Reached(w, evs), Book(w, evs);
            && l.wakes + l.arrivals + l.requeues
               == l.starts + |Loaded(s.local)| + |s.big| + |s.little| + |s.pending|
            && |s.runnable| == |Busy(s.curr)| + |Loaded(s.local)| + |s.big| + |s.little| + |s.pending|
  {
    CountersBalance(w, evs);
  }
}
