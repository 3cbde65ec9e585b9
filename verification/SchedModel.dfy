/**
 The sched_ext scheduler of src/bls.bpf.c together with the part of the kernel it talks to,
 as a transition system: a state, one event per callback (or per kernel move), and the runs
 that the kernel's calling discipline allows.
 */
module SchedModel {
  import opened Wrappers
  import opened Domains
  import opened CommRules

  const TWO64: int := 0x1_0000_0000_0000_0000
  const NSEC_PER_MSEC: int := 1_000_000

  datatype Mode = Flat | Comm | Adaptive | Hybrid

  /** What the loader writes before attaching. */
  datatype Config = Config(
    nrCpus: nat, mode: Mode, strict: bool,
    sliceBig: nat, sliceLittle: nat, threshNs: nat,
    cpuDom: seq<Dom>, rules: seq<CommRule>)

  /** A configuration and the task population; `masks[p]` is the affinity mask of task `p`. */
  datatype World = World(cfg: Config, masks: seq<set<int>>)

  datatype TaskCtx = TaskCtx(
    ewma: nat, startedAt: nat, ranBig: nat, ranLittle: nat, domain: Dom, pinned: bool)

  /** A queued task and the slice it was inserted with. */
  datatype Entry = Entry(task: nat, slice: nat)

  datatype Stats = Stats(
    enq: nat, direct: nat, dsqBig: nat, dsqLittle: nat, localHit: nat, steal: nat,
    noIdle: nat, reclassify: nat, runBigMs: nat, runLittleMs: nat, tasksBig: nat, tasksLittle: nat)

  /** The per-task storage, the two shared queues, what the kernel keeps per CPU, the tasks that
      wait between `select_cpu` and `enqueue`, the tasks that want to run, and the counters. */
  datatype State = State(
    ctx: seq<Option<TaskCtx>>,
    big: seq<Entry>, little: seq<Entry>,
    local: seq<seq<Entry>>, curr: seq<Option<nat>>, idle: seq<bool>, kicked: seq<bool>,
    pending: set<nat>, runnable: set<nat>,
    stats: Stats)

  datatype Event =
    | InitTask(p: nat, comm: Option<CommBuf>, ok: bool)
    | Arrive(p: nat)
    | SelectCpu(p: nat, prev: int)
    | Enqueue(p: nat)
    | Dispatch(c: nat)
    | Running(c: nat, now: nat)
    | Stopping(c: nat, runnable: bool, now: nat)
    | LeaveIdle(c: nat)

  ghost predicate ValidWorld(w: World) {
    && 1 <= w.cfg.nrCpus <= MAX_CPUS
    && |w.cfg.cpuDom| == MAX_CPUS
    && ValidTable(w.cfg.rules)
  }

  ghost predicate QueueOk(n: nat, q: seq<Entry>) {
    forall i :: 0 <= i < |q| ==> q[i].task < n
  }

  ghost predicate LocalOk(n: nat, local: seq<seq<Entry>>) {
    forall c :: 0 <= c < |local| ==> QueueOk(n, local[c])
  }

  ghost predicate CurrOk(n: nat, curr: seq<Option<nat>>) {
    forall c :: 0 <= c < |curr| && curr[c].Some? ==> curr[c].value < n
  }

  ghost predicate TasksOk(n: nat, ps: set<nat>) {
    forall p :: p in ps ==> p < n
  }

  ghost predicate WellFormed(w: World, s: State) {
    && |s.ctx| == |w.masks|
    && |s.local| == |s.curr| == |s.idle| == |s.kicked| == w.cfg.nrCpus
    && QueueOk(|w.masks|, s.big) && QueueOk(|w.masks|, s.little)
    && LocalOk(|w.masks|, s.local) && CurrOk(|w.masks|, s.curr)
    && TasksOk(|w.masks|, s.pending) && TasksOk(|w.masks|, s.runnable)
  }

  // ---------------------------------------------------------------- small accessors

  /** `dom_of_cpu`: out-of-range CPUs count as BIG. */
  function DomOfCpu(cfg: Config, cpu: int): Dom
    requires |cfg.cpuDom| == MAX_CPUS
  {
    if cpu < 0 || cpu >= MAX_CPUS then Big else cfg.cpuDom[cpu]
  }

  /** `tc ? tc->domain : BLS_DOM_BIG`. */
  function DomIn(ctx: seq<Option<TaskCtx>>, p: nat): Dom
    requires p < |ctx|
  {
    if ctx[p].Some? then ctx[p].value.domain else Big
  }

  function DomOf(s: State, p: nat): Dom
    requires p < |s.ctx|
  {
    DomIn(s.ctx, p)
  }

  function Slice(cfg: Config, d: Dom): nat {
    if d == Little then cfg.sliceLittle else cfg.sliceBig
  }

  function Dsq(s: State, d: Dom): seq<Entry> {
    if d == Little then s.little else s.big
  }

  function WithDsq(s: State, d: Dom, q: seq<Entry>): State {
    if d == Little then s.(little := q) else s.(big := q)
  }

  // ---------------------------------------------------------------- kernel searches

  /** A CPU that a scan of domain `d` may claim for task `p`. */
  predicate Claimable(w: World, idle: seq<bool>, p: nat, d: Dom, c: int)
    requires ValidWorld(w) && |idle| == w.cfg.nrCpus && p < |w.masks|
  {
    0 <= c < w.cfg.nrCpus && DomOfCpu(w.cfg, c) == d && c in w.masks[p] && idle[c]
  }

  /** The lowest claimable CPU at or above `from`, -1 if there is none. */
  ghost function FirstIdle(w: World, idle: seq<bool>, p: nat, d: Dom, from: nat): (r: int)
    requires ValidWorld(w) && |idle| == w.cfg.nrCpus && p < |w.masks|
    requires from <= w.cfg.nrCpus
    ensures r == -1 || (from <= r && Claimable(w, idle, p, d, r))
    ensures r == -1 ==> forall c :: from <= c < w.cfg.nrCpus ==> !Claimable(w, idle, p, d, c)
    ensures r != -1 ==> forall c :: from <= c < r ==> !Claimable(w, idle, p, d, c)
    decreases w.cfg.nrCpus - from
  {
    if from == w.cfg.nrCpus then -1
    else if Claimable(w, idle, p, d, from) then from
    else FirstIdle(w, idle, p, d, from + 1)
  }

  /** The first branch of `pick_idle_in_dom`: an idle previous CPU in the domain, mask not consulted. */
  predicate PrevUsable(w: World, idle: seq<bool>, d: Dom, prev: int)
    requires ValidWorld(w) && |idle| == w.cfg.nrCpus
  {
    0 <= prev < w.cfg.nrCpus && DomOfCpu(w.cfg, prev) == d && idle[prev]
  }

  ghost function PickIdle(w: World, idle: seq<bool>, p: nat, d: Dom, prev: int): int
    requires ValidWorld(w) && |idle| == w.cfg.nrCpus && p < |w.masks|
  {
    if PrevUsable(w, idle, d, prev) then prev else FirstIdle(w, idle, p, d, 0)
  }

  /** Index of the first queued task that may run on CPU `c`, -1 if there is none. */
  ghost function FirstAllowed(w: World, q: seq<Entry>, c: nat, from: nat): (r: int)
    requires QueueOk(|w.masks|, q)
    requires from <= |q|
    ensures r == -1 || (from <= r < |q| && c in w.masks[q[r].task])
    ensures r == -1 ==> forall i :: from <= i < |q| ==> c !in w.masks[q[i].task]
    ensures r != -1 ==> forall i :: from <= i < r ==> c !in w.masks[q[i].task]
    decreases |q| - from
  {
    if from == |q| then -1
    else if c in w.masks[q[from].task] then from
    else FirstAllowed(w, q, c, from + 1)
  }

  // ---------------------------------------------------------------- the callbacks as state functions

  /** `initial_domain`: the domain and whether a command rule pins it. */
  ghost function InitialDomain(cfg: Config, comm: Option<CommBuf>): (Dom, bool)
    requires ValidTable(cfg.rules)
  {
    var byComm := if comm.Some? then FirstMatch(cfg.rules, comm.value, 0) else None;
    match cfg.mode
    case Flat => (Big, false)
    case Comm => if byComm.Some? then (byComm.value, true) else (Little, false)
    case Hybrid => if byComm.Some? then (byComm.value, true) else (Little, false)
    case Adaptive => (Little, false)
  }

  ghost function InitTaskStep(w: World, s: State, p: nat, comm: Option<CommBuf>, ok: bool): (r: State)
    requires ValidWorld(w) && WellFormed(w, s) && p < |w.masks|
    ensures WellFormed(w, r)
  {
    if !ok then s
    else
      var (d, pin) := InitialDomain(w.cfg, comm);
      var was := if s.ctx[p].Some? then s.ctx[p].value else TaskCtx(0, 0, 0, 0, Big, false);
      s.(ctx := s.ctx[p := Some(was.(domain := d, pinned := pin, ewma := 0, startedAt := 0))],
         stats := if d == Little then s.stats.(tasksLittle := s.stats.tasksLittle + 1)
                  else s.stats.(tasksBig := s.stats.tasksBig + 1))
  }

  /** Claim idle CPU `c` and put the task straight on its local queue. */
  function PlaceOn(s: State, c: nat, e: Entry): State
    requires c < |s.idle| == |s.local|
  {
    s.(idle := s.idle[c := false], local := s.local[c := s.local[c] + [e]],
       runnable := s.runnable + {e.task},
       stats := s.stats.(direct := s.stats.direct + 1))
  }

  /** `bls_select_cpu`; the second component is the CPU it returns. */
  ghost function SelectStep(w: World, s: State, p: nat, prev: int): (r: (State, int))
    requires ValidWorld(w) && WellFormed(w, s) && p < |w.masks|
    ensures WellFormed(w, r.0)
  {
    var d := DomOf(s, p);
    var e := Entry(p, Slice(w.cfg, d));
    var c := PickIdle(w, s.idle, p, d, prev);
    if c >= 0 then (PlaceOn(s, c, e), c)
    else
      var s1 := s.(stats := s.stats.(noIdle := s.stats.noIdle + 1));
      var c2 := if w.cfg.strict then -1 else PickIdle(w, s.idle, p, Other(d), -1);
      if c2 >= 0 then
        var s2 := PlaceOn(s1, c2, e);
        (s2.(stats := s2.stats.(steal := s2.stats.steal + 1)), c2)
      else (s1.(pending := s1.pending + {p}, runnable := s1.runnable + {p}), prev)
  }

  /** `kick_idle_in_dom`: trade one idle bit for one kick. */
  ghost function Kick(w: World, s: State, p: nat, d: Dom): (r: State)
    requires ValidWorld(w) && WellFormed(w, s) && p < |w.masks|
    ensures WellFormed(w, r)
  {
    var c := FirstIdle(w, s.idle, p, d, 0);
    if c >= 0 then s.(idle := s.idle[c := false], kicked := s.kicked[c := true]) else s
  }

  /** `bls_enqueue` up to the kick: the task joins its domain's queue. */
  ghost function Queued(w: World, s: State, p: nat): (r: State)
    requires ValidWorld(w) && WellFormed(w, s) && p < |w.masks|
    ensures WellFormed(w, r)
  {
    var d := DomOf(s, p);
    var s1 := s.(pending := s.pending - {p},
                 stats := if d == Little then s.stats.(enq := s.stats.enq + 1, dsqLittle := s.stats.dsqLittle + 1)
                          else s.stats.(enq := s.stats.enq + 1, dsqBig := s.stats.dsqBig + 1));
    WithDsq(s1, d, Dsq(s1, d) + [Entry(p, Slice(w.cfg, d))])
  }

  /** `bls_enqueue`. */
  ghost function EnqueueStep(w: World, s: State, p: nat): (r: State)
    requires ValidWorld(w) && WellFormed(w, s) && p < |w.masks|
    ensures WellFormed(w, r)
  {
    Kick(w, Queued(w, s, p), p, DomOf(s, p))
  }

  /** `scx_bpf_dsq_move_to_local`: entry `i` of queue `d` goes to the local queue of `c`. */
  ghost function MoveToLocal(w: World, s: State, d: Dom, i: nat, c: nat): (r: State)
    requires WellFormed(w, s) && c < w.cfg.nrCpus && i < |Dsq(s, d)|
    ensures WellFormed(w, r)
  {
    var q := Dsq(s, d);
    WithDsq(s, d, q[..i] + q[i + 1..]).(local := s.local[c := s.local[c] + [q[i]]])
  }

  /** Where `bls_dispatch` on CPU `c` finds its task: its own domain's queue first, the other
      domain's only when the partition is not strict. */
  ghost function Source(w: World, s: State, c: nat): (r: Option<(Dom, nat)>)
    requires ValidWorld(w) && WellFormed(w, s) && c < w.cfg.nrCpus
    ensures r.Some? ==> r.value.1 < |Dsq(s, r.value.0)|
  {
    var d := DomOfCpu(w.cfg, c);
    var i := FirstAllowed(w, Dsq(s, d), c, 0);
    if i >= 0 then Some((d, i))
    else if w.cfg.strict then None
    else
      var j := FirstAllowed(w, Dsq(s, Other(d)), c, 0);
      if j >= 0 then Some((Other(d), j)) else None
  }

  /** Dispatch on CPU `c` succeeds with entry `i` of queue `d`, a hit or a steal. */
  ghost function Fetched(w: World, s: State, c: nat, d: Dom, i: nat): (r: State)
    requires ValidWorld(w) && WellFormed(w, s) && c < w.cfg.nrCpus && i < |Dsq(s, d)|
    ensures WellFormed(w, r)
  {
    var st := if d == DomOfCpu(w.cfg, c) then s.stats.(localHit := s.stats.localHit + 1)
              else s.stats.(steal := s.stats.steal + 1);
    MoveToLocal(w, s.(kicked := s.kicked[c := false], stats := st), d, i, c)
  }

  /** `bls_dispatch`; a CPU with nothing to run goes idle in the same step. */
  ghost function DispatchStep(w: World, s: State, c: nat): (r: State)
    requires ValidWorld(w) && WellFormed(w, s) && c < w.cfg.nrCpus
    ensures WellFormed(w, r)
  {
    match Source(w, s, c)
    case Some((d, i)) => Fetched(w, s, c, d, i)
    case None =>
      var s0 := s.(kicked := s.kicked[c := false]);
      if s.curr[c].None? then s0.(idle := s0.idle[c := true]) else s0
  }

  /** The kernel takes the head of the local queue and calls `bls_running`. */
  function RunningStep(s: State, c: nat, now: nat): State
    requires c < |s.local| == |s.curr| && s.local[c] != [] && s.local[c][0].task < |s.ctx|
  {
    var p := s.local[c][0].task;
    s.(local := s.local[c := s.local[c][1..]], curr := s.curr[c := Some(p)],
       ctx := if s.ctx[p].Some? then s.ctx[p := Some(s.ctx[p].value.(startedAt := now))] else s.ctx)
  }

  /** u64 subtraction. */
  function Delta(now: nat, startedAt: nat): nat {
    (now - startedAt) % TWO64
  }

  /** The EWMA of `bls_stopping`, in u64 arithmetic. */
  function Ewma(e: nat, delta: nat): nat {
    ((e * 3 + delta) % TWO64) / 4
  }

  predicate Adapts(mode: Mode) {
    mode == Adaptive || mode == Hybrid
  }

  /** Promotion at the threshold, demotion at half of it. */
  function Reclassify(thresh: nat, d: Dom, ewma: nat): Dom {
    if d == Little && ewma > thresh then Big
    else if d == Big && ewma < thresh / 2 then Little
    else d
  }

  /** The task storage after `bls_stopping` on a CPU of domain `cd`. */
  function StopCtx(cfg: Config, tc: TaskCtx, cd: Dom, now: nat): TaskCtx {
    if tc.startedAt == 0 then tc
    else
      var delta := Delta(now, tc.startedAt);
      var e := Ewma(tc.ewma, delta);
      var tc1 := if cd == Little then tc.(ranLittle := (tc.ranLittle + delta) % TWO64)
                 else tc.(ranBig := (tc.ranBig + delta) % TWO64);
      tc1.(startedAt := 0, ewma := e,
           domain := if tc.pinned || !Adapts(cfg.mode) then tc.domain
                     else Reclassify(cfg.threshNs, tc.domain, e))
  }

  function StopStats(st: Stats, tc: TaskCtx, tc': TaskCtx, cd: Dom, now: nat): Stats {
    if tc.startedAt == 0 then st
    else
      var ms := Delta(now, tc.startedAt) / NSEC_PER_MSEC;
      var st1 := if cd == Little then st.(runLittleMs := st.runLittleMs + ms)
                 else st.(runBigMs := st.runBigMs + ms);
      if tc'.domain != tc.domain then st1.(reclassify := st1.reclassify + 1) else st1
  }

  /** `bls_stopping`, after which the task either waits for `enqueue` again or sleeps. */
  function StoppingStep(w: World, s: State, c: nat, runnable: bool, now: nat): State
    requires |w.cfg.cpuDom| == MAX_CPUS
    requires c < |s.curr| && s.curr[c].Some? && s.curr[c].value < |s.ctx|
  {
    var p := s.curr[c].value;
    var cd := DomOfCpu(w.cfg, c);
    var s1 := s.(curr := s.curr[c := None],
                 pending := if runnable then s.pending + {p} else s.pending,
                 runnable := if runnable then s.runnable else s.runnable - {p});
    if s.ctx[p].None? then s1
    else
      var tc := s.ctx[p].value;
      var tc' := StopCtx(w.cfg, tc, cd, now);
      s1.(ctx := s.ctx[p := Some(tc')], stats := StopStats(s.stats, tc, tc', cd, now))
  }

  // ---------------------------------------------------------------- runs

  /** The kernel's calling discipline. */
  ghost predicate Enabled(w: World, s: State, ev: Event)
    requires WellFormed(w, s)
  {
    match ev
    case InitTask(p, _, _) => p < |w.masks| && p !in s.runnable && s.ctx[p].None?
    case Arrive(p) => p < |w.masks| && p !in s.runnable
    case SelectCpu(p, _) => p < |w.masks| && p !in s.runnable
    case Enqueue(p) => p in s.pending
    case Dispatch(c) => c < w.cfg.nrCpus && s.local[c] == [] && !s.idle[c]
    case Running(c, _) => c < w.cfg.nrCpus && s.curr[c].None? && s.local[c] != []
    case Stopping(c, _, _) => c < w.cfg.nrCpus && s.curr[c].Some?
    case LeaveIdle(c) => c < w.cfg.nrCpus && s.idle[c]
  }

  ghost function Step(w: World, s: State, ev: Event): (r: State)
    requires ValidWorld(w) && WellFormed(w, s) && Enabled(w, s, ev)
    ensures WellFormed(w, r)
  {
    match ev
    case InitTask(p, comm, ok) => InitTaskStep(w, s, p, comm, ok)
    case Arrive(p) => s.(pending := s.pending + {p}, runnable := s.runnable + {p})
    case SelectCpu(p, prev) => SelectStep(w, s, p, prev).0
    case Enqueue(p) => EnqueueStep(w, s, p)
    case Dispatch(c) => DispatchStep(w, s, c)
    case Running(c, now) => RunningStep(s, c, now)
    case Stopping(c, runnable, now) => StoppingStep(w, s, c, runnable, now)
    case LeaveIdle(c) => s.(idle := s.idle[c := false])
  }

  /** Every CPU idle, every queue empty, no task storage yet. */
  ghost function Initial(w: World): (s: State)
    requires ValidWorld(w)
    ensures WellFormed(w, s)
  {
    var n := w.cfg.nrCpus;
    State(seq(|w.masks|, _ => None), [], [],
          seq(n, _ => []), seq(n, _ => None), seq(n, _ => true), seq(n, _ => false),
          {}, {}, Stats(0, 0, 0, 0, 0, 0, 0, 0, 0, 0, 0, 0))
  }

  /** The state after the history `evs`, `None` if the kernel would not have made those calls. */
  ghost function After(w: World, evs: seq<Event>): (r: Option<State>)
    requires ValidWorld(w)
    ensures r.Some? ==> WellFormed(w, r.value)
  {
    if evs == [] then Some(Initial(w))
    else
      var r := After(w, evs[..|evs| - 1]);
      var ev := evs[|evs| - 1];
      if r.Some? && Enabled(w, r.value, ev) then Some(Step(w, r.value, ev)) else None
  }

  ghost predicate ValidRun(w: World, evs: seq<Event>) {
    ValidWorld(w) && After(w, evs).Some?
  }

  ghost function Reached(w: World, evs: seq<Event>): (s: State)
    requires ValidRun(w, evs)
    ensures WellFormed(w, s)
  {
    After(w, evs).value
  }

  /** Everything before the last call of a valid run is a valid run that enabled that call. */
  lemma LastStep(w: World, evs: seq<Event>)
    requires ValidRun(w, evs) && evs != []
    ensures ValidRun(w, evs[..|evs| - 1])
    ensures Enabled(w, Reached(w, evs[..|evs| - 1]), evs[|evs| - 1])
    ensures Reached(w, evs) == Step(w, Reached(w, evs[..|evs| - 1]), evs[|evs| - 1])
  {
  }

  lemma {:induction false} PrefixRun(w: World, evs: seq<Event>, k: nat)
    requires ValidRun(w, evs) && k <= |evs|
    ensures ValidRun(w, evs[..k])
    decreases |evs| - k
  {
    if k < |evs| {
      PrefixRun(w, evs, k + 1);
      LastStep(w, evs[..k + 1]);
      assert evs[..k + 1][..k] == evs[..k];
    } else {
      assert evs[..k] == evs;
    }
  }
}
