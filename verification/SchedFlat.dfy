/**
 The control arm. With mode FLAT and every CPU BIG (what `--flat` sets up) the scheduler is a
 single global FIFO: every run simulates a scheduler that has one queue and no domains at all.
 */
module OneQueue {
  import opened Wrappers

  /** A scheduler with one queue: tasks, CPUs, no domains, no task storage, no counters. */
  datatype Sched = Sched(
    queue: seq<nat>, local: seq<seq<nat>>, curr: seq<Option<nat>>, idle: seq<bool>, kicked: seq<bool>,
    pending: set<nat>, runnable: set<nat>)

  ghost predicate Shaped(n: nat, masks: seq<set<int>>, q: Sched) {
    && |q.local| == |q.curr| == |q.idle| == |q.kicked| == n
    && (forall i :: 0 <= i < |q.queue| ==> q.queue[i] < |masks|)
  }

  /** The lowest idle CPU that the mask admits, -1 if there is none. */
  ghost function LowestIdle(idle: seq<bool>, mask: set<int>, from: nat): int
    requires from <= |idle|
    decreases |idle| - from
  {
    if from == |idle| then -1
    else if idle[from] && from in mask then from
    else LowestIdle(idle, mask, from + 1)
  }

  /** Position of the first queued task that may run on CPU `c`, -1 if there is none. */
  ghost function FirstFor(masks: seq<set<int>>, queue: seq<nat>, c: nat, from: nat): int
    requires from <= |queue| && forall i :: 0 <= i < |queue| ==> queue[i] < |masks|
    decreases |queue| - from
  {
    if from == |queue| then -1
    else if c in masks[queue[from]] then from
    else FirstFor(masks, queue, c, from + 1)
  }

  /** Wake a task: on its idle previous CPU, else on the lowest idle one, else let it wait. */
  ghost function Wake(n: nat, masks: seq<set<int>>, q: Sched, p: nat, prev: int): Sched
    requires Shaped(n, masks, q) && p < |masks|
  {
    var c := if 0 <= prev < n && q.idle[prev] then prev else LowestIdle(q.idle, masks[p], 0);
    var q1 := q.(runnable := q.runnable + {p});
    if 0 <= c < n then q1.(idle := q.idle[c := false], local := q.local[c := q.local[c] + [p]])
    else q1.(pending := q.pending + {p})
  }

  /** Append to the one queue and kick the lowest idle CPU. */
  ghost function Put(n: nat, masks: seq<set<int>>, q: Sched, p: nat): Sched
    requires Shaped(n, masks, q) && p < |masks|
  {
    var c := LowestIdle(q.idle, masks[p], 0);
    var q1 := q.(queue := q.queue + [p], pending := q.pending - {p});
    if 0 <= c < n then q1.(idle := q.idle[c := false], kicked := q.kicked[c := true]) else q1
  }

  /** Take the first task that may run here, or sleep. */
  ghost function Get(n: nat, masks: seq<set<int>>, q: Sched, c: nat): Sched
    requires Shaped(n, masks, q) && c < n
  {
    var i := FirstFor(masks, q.queue, c, 0);
    var q1 := q.(kicked := q.kicked[c := false]);
    if 0 <= i < |q.queue| then
      q1.(queue := q.queue[..i] + q.queue[i + 1..], local := q.local[c := q.local[c] + [q.queue[i]]])
    else if q.curr[c].None? then q1.(idle := q.idle[c := true])
    else q1
  }
}

module SchedFlat {
  import opened Wrappers
  import opened Domains
  import opened CommRules
  import opened SchedModel
  import opened SchedConservation
  import opened SchedPartition
  import Q = OneQueue

  /** What `--flat` configures. */
  ghost predicate FlatWorld(w: World) {
    ValidWorld(w) && w.cfg.mode == Flat && forall c :: DomOfCpu(w.cfg, c) == Big
  }

  ghost predicate AllBig(ctx: seq<Option<TaskCtx>>) {
    forall p :: 0 <= p < |ctx| ==> DomIn(ctx, p) == Big
  }

  /** What holds at every moment of a flat run. */
  ghost predicate FlatState(w: World, s: State) {
    && AllBig(s.ctx) && s.little == [] && s.stats.steal == 0 && s.stats.reclassify == 0
    && s.stats.dsqLittle == 0 && s.stats.tasksLittle == 0 && s.stats.runLittleMs == 0
  }

  function LocalIds(local: seq<seq<Entry>>): (r: seq<seq<nat>>)
    ensures |r| == |local| && forall c :: 0 <= c < |local| ==> r[c] == Ids(local[c])
  {
    seq(|local|, c requires 0 <= c < |local| => Ids(local[c]))
  }

  /** Forget domains, slices, task storage and counters. */
  function Abs(s: State): Q.Sched {
    Q.Sched(Ids(s.big), LocalIds(s.local), s.curr, s.idle, s.kicked, s.pending, s.runnable)
  }

  /** The one-queue scheduler's answer to a call. */
  ghost function QStep(w: World, q: Q.Sched, ev: Event): Q.Sched
    requires Q.Shaped(w.cfg.nrCpus, w.masks, q)
  {
    var n := w.cfg.nrCpus;
    match ev
    case InitTask(_, _, _) => q
    case Arrive(p) => q.(pending := q.pending + {p}, runnable := q.runnable + {p})
    case SelectCpu(p, prev) => if p < |w.masks| then Q.Wake(n, w.masks, q, p, prev) else q
    case Enqueue(p) => if p < |w.masks| then Q.Put(n, w.masks, q, p) else q
    case Dispatch(c) => if c < n then Q.Get(n, w.masks, q, c) else q
    case Running(c, _) =>
      if c < n && q.local[c] != [] then
        q.(local := q.local[c := q.local[c][1..]], curr := q.curr[c := Some(q.local[c][0])])
      else q
    case Stopping(c, runnable, _) =>
      if c < n && q.curr[c].Some? then
        var p := q.curr[c].value;
        q.(curr := q.curr[c := None], pending := if runnable then q.pending + {p} else q.pending,
           runnable := if runnable then q.runnable else q.runnable - {p})
      else q
    case LeaveIdle(c) => if c < n then q.(idle := q.idle[c := false]) else q
  }

  lemma AbsShaped(w: World, s: State)
    requires ValidWorld(w) && WellFormed(w, s)
    ensures Q.Shaped(w.cfg.nrCpus, w.masks, Abs(s))
  {
  }

  lemma StaysBig(ctx: seq<Option<TaskCtx>>, p: nat, tc: TaskCtx)
    requires AllBig(ctx) && p < |ctx| && tc.domain == Big
    ensures AllBig(ctx[p := Some(tc)])
  {
    var ctx' := ctx[p := Some(tc)];
    forall q | 0 <= q < |ctx| ensures DomIn(ctx', q) == Big {
      assert DomIn(ctx, q) == Big;
    }
  }

  // ---------------------------------------------------------------- the searches agree

  lemma {:induction false} SameIdle(w: World, idle: seq<bool>, p: nat, from: nat)
    requires FlatWorld(w) && |idle| == w.cfg.nrCpus && p < |w.masks| && from <= |idle|
    ensures FirstIdle(w, idle, p, Big, from) == Q.LowestIdle(idle, w.masks[p], from)
    ensures FirstIdle(w, idle, p, Little, from) == -1
    decreases |idle| - from
  {
    if from < |idle| {
      assert DomOfCpu(w.cfg, from) == Big;
      SameIdle(w, idle, p, from + 1);
    }
  }

  lemma {:induction false} SameFirst(w: World, q: seq<Entry>, c: nat, from: nat)
    requires QueueOk(|w.masks|, q) && from <= |q|
    ensures FirstAllowed(w, q, c, from) == Q.FirstFor(w.masks, Ids(q), c, from)
    decreases |q| - from
  {
    if from < |q| {
      SameFirst(w, q, c, from + 1);
    }
  }

  // ---------------------------------------------------------------- one call

  lemma SimSelect(w: World, s: State, p: nat, prev: int)
    requires FlatWorld(w) && WellFormed(w, s) && FlatState(w, s) && p < |w.masks|
    ensures var r := SelectStep(w, s, p, prev).0;
            FlatState(w, r) && Q.Shaped(w.cfg.nrCpus, w.masks, Abs(s))
            && Abs(r) == Q.Wake(w.cfg.nrCpus, w.masks, Abs(s), p, prev)
  {
    AbsShaped(w, s);
    SameIdle(w, s.idle, p, 0);
    assert DomOf(s, p) == Big;
    assert forall c :: DomOfCpu(w.cfg, c) == Big;
    assert PickIdle(w, s.idle, p, Little, -1) == -1;
    var c := PickIdle(w, s.idle, p, Big, prev);
    if c >= 0 {
      var e := Entry(p, w.cfg.sliceBig);
      assert Ids(s.local[c] + [e]) == Ids(s.local[c]) + [p];
      assert LocalIds(s.local[c := s.local[c] + [e]]) == LocalIds(s.local)[c := Ids(s.local[c]) + [p]];
    }
  }

  lemma SimEnqueue(w: World, s: State, p: nat)
    requires FlatWorld(w) && WellFormed(w, s) && FlatState(w, s) && p < |w.masks|
    ensures var r := EnqueueStep(w, s, p);
            FlatState(w, r) && Q.Shaped(w.cfg.nrCpus, w.masks, Abs(s))
            && Abs(r) == Q.Put(w.cfg.nrCpus, w.masks, Abs(s), p)
  {
    AbsShaped(w, s);
    SameIdle(w, s.idle, p, 0);
    assert DomOf(s, p) == Big;
    assert Ids(s.big + [Entry(p, w.cfg.sliceBig)]) == Ids(s.big) + [p];
  }

  lemma SimFetched(w: World, s: State, c: nat, i: nat)
    requires FlatWorld(w) && WellFormed(w, s) && FlatState(w, s) && c < w.cfg.nrCpus && i < |s.big|
    ensures var r, q := Fetched(w, s, c, Big, i), Abs(s);
            FlatState(w, r)
            && Abs(r) == q.(kicked := q.kicked[c := false], queue := q.queue[..i] + q.queue[i + 1..],
                            local := q.local[c := q.local[c] + [q.queue[i]]])
  {
    assert DomOfCpu(w.cfg, c) == Big;
    var e := s.big[i];
    assert Ids(s.big[..i] + s.big[i + 1..]) == Ids(s.big)[..i] + Ids(s.big)[i + 1..];
    assert Ids(s.local[c] + [e]) == Ids(s.local[c]) + [e.task];
    assert LocalIds(s.local[c := s.local[c] + [e]]) == LocalIds(s.local)[c := Ids(s.local[c]) + [e.task]];
  }

  lemma FlatSource(w: World, s: State, c: nat)
    requires FlatWorld(w) && WellFormed(w, s) && s.little == [] && c < w.cfg.nrCpus
    ensures var i := FirstAllowed(w, s.big, c, 0);
            Source(w, s, c) == if i >= 0 then Some((Big, i as nat)) else None
  {
    assert DomOfCpu(w.cfg, c) == Big;
    assert FirstAllowed(w, s.little, c, 0) == -1;
  }

  lemma SimMiss(w: World, s: State, c: nat)
    requires FlatWorld(w) && WellFormed(w, s) && FlatState(w, s) && c < w.cfg.nrCpus && Source(w, s, c).None?
    ensures var r, q := DispatchStep(w, s, c), Abs(s);
            FlatState(w, r)
            && Abs(r) == q.(kicked := q.kicked[c := false],
                            idle := if q.curr[c].None? then q.idle[c := true] else q.idle)
  {
  }

  lemma SimDispatch(w: World, s: State, c: nat)
    requires FlatWorld(w) && WellFormed(w, s) && FlatState(w, s) && c < w.cfg.nrCpus
    ensures var r := DispatchStep(w, s, c);
            FlatState(w, r) && Q.Shaped(w.cfg.nrCpus, w.masks, Abs(s))
            && Abs(r) == Q.Get(w.cfg.nrCpus, w.masks, Abs(s), c)
  {
    AbsShaped(w, s);
    SameFirst(w, s.big, c, 0);
    FlatSource(w, s, c);
    var i := FirstAllowed(w, s.big, c, 0);
    if i >= 0 {
      SimFetched(w, s, c, i);
      assert DispatchStep(w, s, c) == Fetched(w, s, c, Big, i);
    } else {
      SimMiss(w, s, c);
    }
  }

  lemma SimRunning(w: World, s: State, c: nat, now: nat)
    requires FlatWorld(w) && WellFormed(w, s) && FlatState(w, s) && Enabled(w, s, Running(c, now))
    ensures var r := RunningStep(s, c, now);
            FlatState(w, r) && Q.Shaped(w.cfg.nrCpus, w.masks, Abs(s))
            && Abs(r) == QStep(w, Abs(s), Running(c, now))
  {
    AbsShaped(w, s);
    assert Ids(s.local[c][1..]) == Ids(s.local[c])[1..];
    assert LocalIds(s.local[c := s.local[c][1..]]) == LocalIds(s.local)[c := Ids(s.local[c])[1..]];
    var p := s.local[c][0].task;
    if s.ctx[p].Some? {
      assert DomIn(s.ctx, p) == Big;
      StaysBig(s.ctx, p, s.ctx[p].value.(startedAt := now));
    }
  }

  lemma SimStopping(w: World, s: State, c: nat, runnable: bool, now: nat)
    requires FlatWorld(w) && WellFormed(w, s) && FlatState(w, s) && Enabled(w, s, Stopping(c, runnable, now))
    ensures var r := StoppingStep(w, s, c, runnable, now);
            FlatState(w, r) && Q.Shaped(w.cfg.nrCpus, w.masks, Abs(s))
            && Abs(r) == QStep(w, Abs(s), Stopping(c, runnable, now))
  {
    AbsShaped(w, s);
    assert DomOfCpu(w.cfg, c) == Big;
    var p := s.curr[c].value;
    if s.ctx[p].Some? {
      assert DomIn(s.ctx, p) == Big;
      StaysBig(s.ctx, p, StopCtx(w.cfg, s.ctx[p].value, Big, now));
    }
  }

  lemma SimStep(w: World, s: State, ev: Event)
    requires FlatWorld(w) && WellFormed(w, s) && FlatState(w, s) && Enabled(w, s, ev)
    ensures FlatState(w, Step(w, s, ev)) && Q.Shaped(w.cfg.nrCpus, w.masks, Abs(s))
    ensures Abs(Step(w, s, ev)) == QStep(w, Abs(s), ev)
  {
    AbsShaped(w, s);
    match ev
    case InitTask(p, _, ok) =>
      if ok {
        StaysBig(s.ctx, p, Step(w, s, ev).ctx[p].value);
      }
    case SelectCpu(p, prev) => SimSelect(w, s, p, prev);
    case Enqueue(p) => SimEnqueue(w, s, p);
    case Dispatch(c) => SimDispatch(w, s, c);
    case Running(c, now) => SimRunning(w, s, c, now);
    case Stopping(c, runnable, now) => SimStopping(w, s, c, runnable, now);
    case _ =>
  }

  // ---------------------------------------------------------------- whole runs

  ghost function QInitial(w: World): Q.Sched
  {
    var n := w.cfg.nrCpus;
    Q.Sched([], seq(n, _ => []), seq(n, _ => None), seq(n, _ => true), seq(n, _ => false), {}, {})
  }

  /** The one-queue scheduler's run, `None` if it ever lost its shape. */
  ghost function QAfter(w: World, evs: seq<Event>): Option<Q.Sched> {
    if evs == [] then Some(QInitial(w))
    else
      var q := QAfter(w, evs[..|evs| - 1]);
      if q.Some? && Q.Shaped(w.cfg.nrCpus, w.masks, q.value) then Some(QStep(w, q.value, evs[|evs| - 1])) else None
  }

  /** Flat mode refines the one-queue scheduler, step for step over every run; the LITTLE queue stays
      empty and no cross-domain or reclassification counter ever moves. */
  lemma {:induction false} FlatRefinesOneQueue(w: World, evs: seq<Event>)
    requires FlatWorld(w) && ValidRun(w, evs)
    ensures QAfter(w, evs) == Some(Abs(Reached(w, evs)))
    ensures FlatState(w, Reached(w, evs))
  {
    if evs == [] {
      assert LocalIds(Initial(w).local) == QInitial(w).local;
      assert Ids(Initial(w).big) == [];
    } else {
      var before := evs[..|evs| - 1];
      LastStep(w, evs);
      FlatRefinesOneQueue(w, before);
      AbsShaped(w, Reached(w, before));
      SimStep(w, Reached(w, before), evs[|evs| - 1]);
    }
  }

  /** Every task waiting anywhere in a flat run carries the BIG slice. */
  lemma FlatSlices(w: World, evs: seq<Event>)
    requires FlatWorld(w) && ValidRun(w, evs)
    ensures var s := Reached(w, evs);
            && (forall i :: 0 <= i < |s.big| ==> s.big[i].slice == w.cfg.sliceBig)
            && (forall c, i :: 0 <= c < |s.local| && 0 <= i < |s.local[c]| ==> s.local[c][i].slice == w.cfg.sliceBig)
  {
    RunOrderly(w, evs);
    FlatRefinesOneQueue(w, evs);
    var s := Reached(w, evs);
    forall c, i | 0 <= c < |s.local| && 0 <= i < |s.local[c]| ensures s.local[c][i].slice == w.cfg.sliceBig {
      assert i == 0 && DomIn(s.ctx, s.local[c][0].task) == Big;
    }
  }

  // ---------------------------------------------------------------- --strict changes nothing

  function Strictly(w: World): World {
    w.(cfg := w.cfg.(strict := true))
  }

  lemma {:induction false} SameScan(w: World, idle: seq<bool>, p: nat, d: Dom, from: nat)
    requires ValidWorld(w) && |idle| == w.cfg.nrCpus && p < |w.masks| && from <= |idle|
    ensures FirstIdle(Strictly(w), idle, p, d, from) == FirstIdle(w, idle, p, d, from)
    decreases |idle| - from
  {
    if from < |idle| {
      SameScan(w, idle, p, d, from + 1);
    }
  }

  lemma {:induction false} SameQueueScan(w: World, q: seq<Entry>, c: nat, from: nat)
    requires QueueOk(|w.masks|, q) && from <= |q|
    ensures FirstAllowed(Strictly(w), q, c, from) == FirstAllowed(w, q, c, from)
    decreases |q| - from
  {
    if from < |q| {
      SameQueueScan(w, q, c, from + 1);
    }
  }

  lemma SameSelect(w: World, s: State, p: nat, prev: int)
    requires FlatWorld(w) && WellFormed(w, s) && FlatState(w, s) && p < |w.masks|
    ensures WellFormed(Strictly(w), s) && SelectStep(Strictly(w), s, p, prev) == SelectStep(w, s, p, prev)
  {
    SameScan(w, s.idle, p, Big, 0);
    SameIdle(w, s.idle, p, 0);
    assert DomOf(s, p) == Big;
    assert PickIdle(w, s.idle, p, Little, -1) == -1;
  }

  lemma SameDispatch(w: World, s: State, c: nat)
    requires FlatWorld(w) && WellFormed(w, s) && FlatState(w, s) && c < w.cfg.nrCpus
    ensures WellFormed(Strictly(w), s) && DispatchStep(Strictly(w), s, c) == DispatchStep(w, s, c)
  {
    SameQueueScan(w, s.big, c, 0);
    assert DomOfCpu(w.cfg, c) == Big;
    assert Source(Strictly(w), s, c) == Source(w, s, c);
  }

  lemma SameEnqueue(w: World, s: State, p: nat)
    requires FlatWorld(w) && WellFormed(w, s) && FlatState(w, s) && p < |w.masks|
    ensures WellFormed(Strictly(w), s) && EnqueueStep(Strictly(w), s, p) == EnqueueStep(w, s, p)
  {
    SameScan(w, s.idle, p, Big, 0);
    assert DomOf(s, p) == Big;
  }

  lemma SameEnabled(w: World, s: State, ev: Event)
    requires ValidWorld(w) && WellFormed(w, s)
    ensures WellFormed(Strictly(w), s) && Enabled(Strictly(w), s, ev) == Enabled(w, s, ev)
  {
  }

  lemma SameStep(w: World, s: State, ev: Event)
    requires FlatWorld(w) && WellFormed(w, s) && FlatState(w, s) && Enabled(w, s, ev)
    requires WellFormed(Strictly(w), s) && Enabled(Strictly(w), s, ev)
    ensures Step(Strictly(w), s, ev) == Step(w, s, ev)
  {
    match ev
    case SelectCpu(p, prev) => SameSelect(w, s, p, prev);
    case Dispatch(c) => SameDispatch(w, s, c);
    case Enqueue(p) => SameEnqueue(w, s, p);
    case _ =>
  }

  /** In flat mode `--strict` is invisible: the same calls are possible and reach the same states. */
  lemma {:induction false} StrictInvisibleWhenFlat(w: World, evs: seq<Event>)
    requires FlatWorld(w)
    ensures ValidWorld(Strictly(w)) && After(Strictly(w), evs) == After(w, evs)
  {
    if evs != [] {
      var before := evs[..|evs| - 1];
      StrictInvisibleWhenFlat(w, before);
      if After(w, before).Some? {
        FlatRefinesOneQueue(w, before);
        SameEnabled(w, Reached(w, before), evs[|evs| - 1]);
        if Enabled(w, Reached(w, before), evs[|evs| - 1]) {
          SameStep(w, Reached(w, before), evs[|evs| - 1]);
        }
      }
    }
  }

  // ---------------------------------------------------------------- flat mode on any machine

  /** Whether a task can ever belong to domain `d`: one without storage counts as BIG, and only flat mode
      never makes a task LITTLE. */
  predicate Possible(cfg: Config, d: Dom) {
    d == Big || cfg.mode != Flat
  }

  /** In flat mode no task is ever LITTLE. */
  lemma {:induction false} FlatIsBig(w: World, evs: seq<Event>)
    requires ValidRun(w, evs) && w.cfg.mode == Flat
    ensures AllBig(Reached(w, evs).ctx)
  {
    if evs != [] {
      var before, ev := evs[..|evs| - 1], evs[|evs| - 1];
      LastStep(w, evs);
      FlatIsBig(w, before);
      FlatStepIsBig(w, Reached(w, before), ev);
    }
  }

  lemma FlatStepIsBig(w: World, s: State, ev: Event)
    requires ValidWorld(w) && WellFormed(w, s) && Enabled(w, s, ev) && w.cfg.mode == Flat && AllBig(s.ctx)
    ensures AllBig(Step(w, s, ev).ctx)
  {
    if ev.Dispatch? {
      DispatchLocal(w, s, ev.c);
    } else if ev.InitTask? {
      if ev.ok {
        StaysBig(s.ctx, ev.p, Step(w, s, ev).ctx[ev.p].value);
      }
    } else if ev.Running? {
      FlatRunningIsBig(w, s, ev);
    } else if ev.Stopping? {
      FlatStoppingIsBig(w, s, ev);
    } else {
      assert Step(w, s, ev).ctx == s.ctx;
    }
  }

  lemma FlatRunningIsBig(w: World, s: State, ev: Event)
    requires ValidWorld(w) && WellFormed(w, s) && ev.Running? && Enabled(w, s, ev) && AllBig(s.ctx)
    ensures AllBig(Step(w, s, ev).ctx)
  {
    var p := s.local[ev.c][0].task;
    if s.ctx[p].Some? {
      assert DomIn(s.ctx, p) == Big;
      StaysBig(s.ctx, p, s.ctx[p].value.(startedAt := ev.now));
    }
  }

  lemma FlatStoppingIsBig(w: World, s: State, ev: Event)
    requires ValidWorld(w) && WellFormed(w, s) && ev.Stopping? && Enabled(w, s, ev) && AllBig(s.ctx)
    requires w.cfg.mode == Flat
    ensures AllBig(Step(w, s, ev).ctx)
  {
    var p := s.curr[ev.c].value;
    if s.ctx[p].Some? {
      assert DomIn(s.ctx, p) == Big;
      StaysBig(s.ctx, p, StopCtx(w.cfg, s.ctx[p].value, DomOfCpu(w.cfg, ev.c), ev.now));
    }
  }

  function Blank(): CommRule {
    CommRule(seq(COMM_LEN, _ => '\0'), 0, Big)
  }

  /** Flat mode; CPUs below `nBig` are BIG. */
  function Machine(nrCpus: nat, nBig: nat, strict: bool, masks: seq<set<int>>): World {
    World(Config(nrCpus, Flat, strict, 20_000_000, 3_000_000, 2_000_000,
                 seq(MAX_CPUS, i => if i < nBig then Big else Little), seq(MAX_COMM_RULES, _ => Blank())),
          masks)
  }
}
